/**
 * The debounced "models updated" event. Each critical section is one step; between the steps of one
 * caller or timer, any other caller, timer or the clock may step.
 */
module Debounce {
  import opened Options

  const DEBOUNCE_MS: nat := 750

  /** What the mutex protects. */
  datatype Shared = Shared(lastPublishedAt: Option<nat>, publishPending: bool)

  datatype Decision = PublishNow | Coalesced | Delay(ms: nat)

  function Decide(s: Shared, now: nat): (Shared, Decision) {
    if s.lastPublishedAt.None? then (s.(lastPublishedAt := Some(now)), PublishNow)
    else
      var elapsed := if now < s.lastPublishedAt.value then 0 else now - s.lastPublishedAt.value;
      if elapsed >= DEBOUNCE_MS then (s.(lastPublishedAt := Some(now)), PublishNow)
      else if s.publishPending then (s, Coalesced)
      else (s.(publishPending := true), Delay(DEBOUNCE_MS - elapsed))
  }

  /** A delayed publish waits out the interval after the last one, all of it when the clock was read before that. */
  lemma DelayFillsInterval(s: Shared, now: nat)
    ensures var (t, d) := Decide(s, now);
      && (d.Delay? ==>
            && s.lastPublishedAt.Some? && !s.publishPending && t.publishPending
            && 0 < d.ms <= DEBOUNCE_MS
            && d.ms + (if now < s.lastPublishedAt.value then s.lastPublishedAt.value else now)
               == s.lastPublishedAt.value + DEBOUNCE_MS)
      && (d.PublishNow? <==> s.lastPublishedAt.None? || now >= s.lastPublishedAt.value + DEBOUNCE_MS)
      && (d.Coalesced? <==> !d.PublishNow? && s.publishPending)
      && t.lastPublishedAt == (if d.PublishNow? then Some(now) else s.lastPublishedAt)
  {
  }

  /** The second critical section: a timer that fires, or a caller without a runtime to sleep on. */
  function Settle(s: Shared, now: nat): Shared {
    Shared(Some(now), false)
  }

  class ModelsUpdatedPublishState {
    var lastPublishedAt: Option<nat>
    var publishPending: bool

    function View(): Shared
      reads this
    {
      Shared(lastPublishedAt, publishPending)
    }

    constructor ()
      ensures View() == Shared(None, false)
    {
      lastPublishedAt, publishPending := None, false;
    }

    method DecideLocked(now: nat) returns (d: Decision)
      modifies this
      ensures (View(), d) == Decide(old(View()), now)
    {
      if lastPublishedAt.None? {
        lastPublishedAt := Some(now);
        return PublishNow;
      }
      var elapsed := if now < lastPublishedAt.value then 0 else now - lastPublishedAt.value;
      if elapsed >= DEBOUNCE_MS {
        lastPublishedAt := Some(now);
        return PublishNow;
      }
      if publishPending {
        return Coalesced;
      }
      publishPending := true;
      return Delay(DEBOUNCE_MS - elapsed);
    }

    method SettleLocked(now: nat)
      modifies this
      ensures View() == Settle(old(View()), now)
    {
      publishPending := false;
      lastPublishedAt := Some(now);
    }
  }

  // ---------- the step system ----------

  datatype Event = Called | Published(at: nat)

  /** Shared state, the clock, threads by where they are, and what has happened so far. */
  datatype System = System(
    shared: Shared,
    now: nat,
    scheduling: seq<nat>,
    timers: seq<nat>,
    publishing: nat,
    trace: seq<Event>)

  function Initial(): System { System(Shared(None, false), 0, [], [], 0, []) }

  /** A call decides by the time it read before it got the lock, which may be some time ago. */
  datatype Step = Call(at: nat) | Spawn(i: nat) | NoRuntime(i: nat) | Fire(i: nat) | Publish | Tick(ms: nat)

  function Removed<T>(s: seq<T>, i: nat): (r: seq<T>)
    requires i < |s|
    ensures |r| == |s| - 1
  {
    s[..i] + s[i + 1..]
  }

  predicate Enabled(s: System, step: Step) {
    match step
    case Call(at) => at <= s.now
    case Spawn(i) => i < |s.scheduling|
    case NoRuntime(i) => i < |s.scheduling|
    case Fire(i) => i < |s.timers| && s.timers[i] <= s.now
    case Publish => s.publishing > 0
    case Tick(_) => true
  }

  function Next(s: System, step: Step): System
    requires Enabled(s, step)
  {
    match step
    case Call(at) =>
      var (shared, d) := Decide(s.shared, at);
      s.(shared := shared,
         scheduling := if d.Delay? then s.scheduling + [d.ms] else s.scheduling,
         publishing := s.publishing + if d.PublishNow? then 1 else 0,
         trace := s.trace + [Called])
    case Spawn(i) => s.(scheduling := Removed(s.scheduling, i), timers := s.timers + [s.now + s.scheduling[i]])
    case NoRuntime(i) =>
      s.(scheduling := Removed(s.scheduling, i), shared := Settle(s.shared, s.now), publishing := s.publishing + 1)
    case Fire(i) =>
      s.(timers := Removed(s.timers, i), shared := Settle(s.shared, s.now), publishing := s.publishing + 1)
    case Publish => s.(publishing := s.publishing - 1, trace := s.trace + [Published(s.now)])
    case Tick(ms) => s.(now := s.now + ms)
  }

  predicate Runs(s: System, steps: seq<Step>)
    decreases |steps|
  {
    steps == [] || (Enabled(s, steps[0]) && Runs(Next(s, steps[0]), steps[1..]))
  }

  function Run(s: System, steps: seq<Step>): System
    requires Runs(s, steps)
    decreases |steps|
  {
    if steps == [] then s else Run(Next(s, steps[0]), steps[1..])
  }

  /** Publishes still to come. */
  function Outstanding(s: System): nat { s.publishing + |s.scheduling| + |s.timers| }

  function CallCount(trace: seq<Event>): (n: nat)
    ensures n <= |trace|
  {
    if trace == [] then 0 else CallCount(trace[..|trace| - 1]) + if trace[|trace| - 1].Called? then 1 else 0
  }

  function PublishCount(trace: seq<Event>): nat { |trace| - CallCount(trace) }

  lemma CallCountSnoc(trace: seq<Event>, e: Event)
    ensures CallCount(trace + [e]) == CallCount(trace) + if e.Called? then 1 else 0
  {
    assert (trace + [e])[..|trace|] == trace;
  }

  ghost predicate FollowedByPublish(trace: seq<Event>, i: nat) {
    exists j :: i < j < |trace| && trace[j].Published?
  }

  /** At most one delayed publish is outstanding, publishes never outnumber calls, and no call is forgotten. */
  ghost predicate Inv(s: System) {
    && |s.scheduling| + |s.timers| == (if s.shared.publishPending then 1 else 0)
    && |s.trace| - CallCount(s.trace) + Outstanding(s) <= CallCount(s.trace)
    && (Outstanding(s) == 0 ==> forall i :: 0 <= i < |s.trace| && s.trace[i].Called? ==> FollowedByPublish(s.trace, i))
  }

  lemma NextKeepsInv(s: System, step: Step)
    requires Inv(s) && Enabled(s, step)
    ensures Inv(Next(s, step))
  {
    var s' := Next(s, step);
    if step.Call? {
      CallCountSnoc(s.trace, Called);
    } else if step.Publish? {
      CallCountSnoc(s.trace, Published(s.now));
      forall i | 0 <= i < |s'.trace| && s'.trace[i].Called? ensures FollowedByPublish(s'.trace, i) {
        assert s'.trace[|s.trace|].Published?;
      }
    }
  }

  lemma {:induction false} RunKeepsInv(s: System, steps: seq<Step>)
    requires Inv(s) && Runs(s, steps)
    ensures Inv(Run(s, steps))
    decreases |steps|
  {
    if steps != [] {
      NextKeepsInv(s, steps[0]);
      RunKeepsInv(Next(s, steps[0]), steps[1..]);
    }
  }

  /**
   * In every reachable state: at most one delayed publish, never more publishes than calls, and once
   * nothing is outstanding every call has been followed by a publish.
   */
  lemma EveryCallIsFollowed(steps: seq<Step>)
    requires Runs(Initial(), steps)
    ensures var s := Run(Initial(), steps);
      && |s.scheduling| + |s.timers| <= 1
      && PublishCount(s.trace) + Outstanding(s) <= CallCount(s.trace)
      && (Outstanding(s) == 0 ==>
            forall i :: 0 <= i < |s.trace| && s.trace[i].Called? ==> FollowedByPublish(s.trace, i))
  {
    RunKeepsInv(Initial(), steps);
  }

  function Wait(s: System, i: nat): System
    requires i < |s.timers|
  {
    if s.timers[i] <= s.now then s else Next(s, Tick(s.timers[i] - s.now))
  }

  /** From any state, letting threads and timers finish, without any further call, publishes what is owed. */
  lemma {:induction false} Drains(s: System) returns (steps: seq<Step>)
    ensures Runs(s, steps) && Outstanding(Run(s, steps)) == 0
    ensures forall i :: 0 <= i < |steps| ==> !steps[i].Call?
    decreases 3 * |s.scheduling| + 2 * |s.timers| + s.publishing
  {
    if |s.scheduling| > 0 {
      var rest := Drains(Next(s, Spawn(0)));
      steps := [Spawn(0)] + rest;
    } else if |s.timers| > 0 {
      var late := Wait(s, 0);
      var rest := Drains(Next(late, Fire(0)));
      if late == s {
        steps := [Fire(0)] + rest;
      } else {
        steps := [Fire(0)] + rest;
        assert Runs(late, steps) && Run(late, steps) == Run(Next(late, Fire(0)), rest);
        steps := [Tick(s.timers[0] - s.now)] + steps;
      }
    } else if s.publishing > 0 {
      var rest := Drains(Next(s, Publish));
      steps := [Publish] + rest;
    } else {
      steps := [];
    }
  }

  /** Hence every reachable state can be continued, without further calls, until each call has been followed. */
  lemma EveryCallCanBeFollowed(steps: seq<Step>) returns (more: seq<Step>)
    requires Runs(Initial(), steps)
    ensures var s := Run(Initial(), steps);
      && Runs(s, more) && (forall i :: 0 <= i < |more| ==> !more[i].Call?)
      && var t := Run(s, more).trace; forall i :: 0 <= i < |t| && t[i].Called? ==> FollowedByPublish(t, i)
  {
    RunKeepsInv(Initial(), steps);
    more := Drains(Run(Initial(), steps));
    RunKeepsInv(Run(Initial(), steps), more);
  }

  // ---------- spacing ----------

  function PublishTimes(trace: seq<Event>): seq<nat> {
    if trace == [] then []
    else PublishTimes(trace[..|trace| - 1]) + if trace[|trace| - 1].Published? then [trace[|trace| - 1].at] else []
  }

  lemma PublishTimesSnoc(trace: seq<Event>, e: Event)
    ensures PublishTimes(trace + [e]) == PublishTimes(trace) + if e.Published? then [e.at] else []
  {
    assert (trace + [e])[..|trace|] == trace;
  }

  predicate Spaced(times: seq<nat>) {
    forall i :: 0 < i < |times| ==> times[i] >= times[i - 1] + DEBOUNCE_MS
  }

  function LastTime(times: seq<nat>): Option<nat> {
    if times == [] then None else Some(times[|times| - 1])
  }

  lemma SpacedSnoc(times: seq<nat>, t: nat)
    ensures Spaced(times + [t]) <==> Spaced(times) && (times == [] || t >= times[|times| - 1] + DEBOUNCE_MS)
  {
    var longer := times + [t];
    assert forall i :: 0 <= i < |times| ==> longer[i] == times[i];
    assert longer[|times|] == t;
  }

  /** Time does not pass inside the code: not from reading the clock to deciding, sleeping or publishing. */
  predicate Instant(s: System, step: Step) {
    match step
    case Call(at) => at == s.now
    case Tick(_) => s.publishing == 0 && s.scheduling == []
    case _ => true
  }

  /** The last publish decided on, whether a publish now would come less than one interval after it. */
  predicate TooSoon(s: System) {
    s.shared.lastPublishedAt.Some? && s.now < s.shared.lastPublishedAt.value + DEBOUNCE_MS
  }

  /** The two ways to break the spacing: a caller that cannot sleep, and a timer overtaken by a call. */
  predicate Hasty(s: System, step: Step) {
    step.NoRuntime? || (step.Fire? && TooSoon(s))
  }

  function Copies(t: nat, n: nat): (r: seq<nat>)
    ensures |r| == n && forall i :: 0 <= i < n ==> r[i] == t
  {
    if n == 0 then [] else Copies(t, n - 1) + [t]
  }

  /** Times of all publishes made or decided on. */
  function Decided(s: System): seq<nat> {
    PublishTimes(s.trace) + Copies(s.now, s.publishing)
  }

  /** The stored time is that of the latest publish decided on, and whoever is about to sleep decided just now. */
  ghost predicate InstantInv(s: System) {
    && s.shared.lastPublishedAt == LastTime(Decided(s))
    && (s.shared.lastPublishedAt.Some? ==> s.shared.lastPublishedAt.value <= s.now)
    && (s.scheduling != [] ==> TooSoon(s))
  }

  /** Whether a step decides on a publish. */
  predicate Decides(s: System, step: Step) {
    match step
    case Call(at) => Decide(s.shared, at).1.PublishNow?
    case NoRuntime(_) => true
    case Fire(_) => true
    case _ => false
  }

  lemma NothingDecided(s: System, t: System)
    requires PublishTimes(t.trace) == PublishTimes(s.trace) && t.publishing == s.publishing
    requires t.now == s.now || s.publishing == 0
    ensures Decided(t) == Decided(s) + []
  {
  }

  lemma OneDecided(s: System, t: System)
    requires PublishTimes(t.trace) == PublishTimes(s.trace) && t.publishing == s.publishing + 1 && t.now == s.now
    ensures Decided(t) == Decided(s) + [s.now]
  {
  }

  lemma OnePublished(s: System, t: System)
    requires s.publishing > 0 && t == Next(s, Publish)
    ensures Decided(t) == Decided(s) + []
  {
    PublishTimesSnoc(s.trace, Published(s.now));
    CopiesCons(s.now, s.publishing);
  }

  lemma {:induction false} CopiesCons(t: nat, n: nat)
    requires n > 0
    ensures Copies(t, n) == [t] + Copies(t, n - 1)
  {
    if n > 1 {
      CopiesCons(t, n - 1);
    }
  }

  lemma CallDecides(s: System, at: nat, t: System)
    requires at == s.now && t == Next(s, Call(at))
    ensures Decided(t) == Decided(s) + if Decides(s, Call(at)) then [s.now] else []
  {
    PublishTimesSnoc(s.trace, Called);
    if Decides(s, Call(at)) {
      OneDecided(s, t);
    } else {
      NothingDecided(s, t);
    }
  }

  /** Publishes are made at the time they are decided on. */
  lemma DecidedGrows(s: System, step: Step)
    requires Enabled(s, step) && Instant(s, step)
    ensures Decided(Next(s, step)) == Decided(s) + if Decides(s, step) then [s.now] else []
  {
    match step
    case Call(at) => CallDecides(s, at, Next(s, step));
    case Publish => OnePublished(s, Next(s, step));
    case NoRuntime(_) => OneDecided(s, Next(s, step));
    case Fire(_) => OneDecided(s, Next(s, step));
    case Spawn(_) => NothingDecided(s, Next(s, step));
    case Tick(_) => NothingDecided(s, Next(s, step));
  }

  lemma LastTimeSnoc(times: seq<nat>, more: seq<nat>)
    requires |more| <= 1
    ensures LastTime(times + more) == if more == [] then LastTime(times) else Some(more[0])
  {
    assert times + [] == times;
  }

  /** A publish decided on is stored as made now; no other step touches the stored time. */
  lemma StoredAfter(s: System, step: Step)
    requires Enabled(s, step) && Instant(s, step)
    ensures Next(s, step).shared.lastPublishedAt == if Decides(s, step) then Some(s.now) else s.shared.lastPublishedAt
  {
  }

  /** Only a call decides to sleep, and only too soon after the stored time; the clock waits for sleepers to be. */
  lemma SleepersAfter(s: System, step: Step)
    requires Enabled(s, step) && Instant(s, step) && (s.scheduling != [] ==> TooSoon(s))
    requires s.shared.lastPublishedAt.Some? ==> s.shared.lastPublishedAt.value <= s.now
    ensures Next(s, step).scheduling != [] ==> TooSoon(Next(s, step))
    ensures Next(s, step).now >= s.now
  {
  }

  lemma NextKeepsInstant(s: System, step: Step)
    requires InstantInv(s) && Enabled(s, step) && Instant(s, step)
    ensures InstantInv(Next(s, step))
  {
    DecidedGrows(s, step);
    LastTimeSnoc(Decided(s), if Decides(s, step) then [s.now] else []);
    StoredAfter(s, step);
    SleepersAfter(s, step);
  }

  /** A step keeps the spacing of all publishes decided on exactly when it is not hasty. */
  lemma NextSpacedIff(s: System, step: Step)
    requires InstantInv(s) && Enabled(s, step) && Instant(s, step)
    ensures Spaced(Decided(Next(s, step))) <==> Spaced(Decided(s)) && !Hasty(s, step)
  {
    DecidedGrows(s, step);
    SpacedSnoc(Decided(s), s.now);
    assert Decided(s) + [] == Decided(s);
    assert Decides(s, step) ==> (Hasty(s, step) <==> TooSoon(s));
  }

  predicate AllInstant(s: System, steps: seq<Step>)
    requires Runs(s, steps)
    decreases |steps|
  {
    steps != [] ==> Instant(s, steps[0]) && AllInstant(Next(s, steps[0]), steps[1..])
  }

  predicate NoneHasty(s: System, steps: seq<Step>)
    requires Runs(s, steps)
    decreases |steps|
  {
    steps != [] ==> !Hasty(s, steps[0]) && NoneHasty(Next(s, steps[0]), steps[1..])
  }

  lemma {:induction false} RunSpacedIff(s: System, steps: seq<Step>)
    requires InstantInv(s) && Runs(s, steps) && AllInstant(s, steps)
    ensures InstantInv(Run(s, steps))
    ensures Spaced(Decided(Run(s, steps))) <==> Spaced(Decided(s)) && NoneHasty(s, steps)
    decreases |steps|
  {
    if steps != [] {
      NextKeepsInstant(s, steps[0]);
      NextSpacedIff(s, steps[0]);
      RunSpacedIff(Next(s, steps[0]), steps[1..]);
    }
  }

  /**
   * Over every interleaving in which time does not pass inside the code: once no publish is left to be made,
   * all publishes are an interval apart if and only if no caller lacked a runtime to sleep on and no timer
   * fired within an interval of a publish.
   */
  lemma PublishesSpacedIff(steps: seq<Step>)
    requires Runs(Initial(), steps) && AllInstant(Initial(), steps)
    requires Run(Initial(), steps).publishing == 0
    ensures Spaced(PublishTimes(Run(Initial(), steps).trace)) <==> NoneHasty(Initial(), steps)
  {
    RunSpacedIff(Initial(), steps);
    var times := PublishTimes(Run(Initial(), steps).trace);
    assert times + [] == times;
  }

  // ---------- the stored times, in every interleaving ----------

  /** The time a step stores as that of a publish, if any. */
  function Stamp(s: System, step: Step): seq<nat> {
    match step
    case Call(at) => if Decide(s.shared, at).1.PublishNow? then [at] else []
    case NoRuntime(_) => [s.now]
    case Fire(_) => [s.now]
    case _ => []
  }

  function Stamps(s: System, steps: seq<Step>): seq<nat>
    requires Runs(s, steps)
    decreases |steps|
  {
    if steps == [] then [] else Stamp(s, steps[0]) + Stamps(Next(s, steps[0]), steps[1..])
  }

  /** A caller without a runtime or a timer stores a time less than an interval after the last one. */
  predicate StampsTooSoon(s: System, step: Step) { (step.NoRuntime? || step.Fire?) && TooSoon(s) }

  predicate NoneTooSoon(s: System, steps: seq<Step>)
    requires Runs(s, steps)
    decreases |steps|
  {
    steps != [] ==> !StampsTooSoon(s, steps[0]) && NoneTooSoon(Next(s, steps[0]), steps[1..])
  }

  lemma StampSpacedIff(s: System, step: Step, before: seq<nat>)
    requires Enabled(s, step) && s.shared.lastPublishedAt == LastTime(before)
    ensures Next(s, step).shared.lastPublishedAt == LastTime(before + Stamp(s, step))
    ensures Spaced(before + Stamp(s, step)) <==> Spaced(before) && !StampsTooSoon(s, step)
  {
    assert before + [] == before;
    if Stamp(s, step) != [] {
      SpacedSnoc(before, Stamp(s, step)[0]);
    }
  }

  lemma Associate<T>(a: seq<T>, b: seq<T>, c: seq<T>)
    ensures a + (b + c) == (a + b) + c
  {
  }

  lemma {:induction false} StampsSpacedFrom(s: System, steps: seq<Step>, before: seq<nat>, all: seq<nat>)
    requires Runs(s, steps) && s.shared.lastPublishedAt == LastTime(before)
    requires all == before + Stamps(s, steps)
    ensures Spaced(all) <==> Spaced(before) && NoneTooSoon(s, steps)
    decreases |steps|
  {
    if steps == [] {
      assert before + [] == before;
    } else {
      var stamp, next := Stamp(s, steps[0]), Next(s, steps[0]);
      StampSpacedIff(s, steps[0], before);
      Associate(before, stamp, Stamps(next, steps[1..]));
      StampsSpacedFrom(next, steps[1..], before + stamp, all);
    }
  }

  /**
   * Over every interleaving, whatever time passes inside the code: the times stored as those of publishes are an
   * interval apart if and only if no timer and no caller without a runtime comes within an interval of the last.
   */
  lemma StampsSpacedIff(steps: seq<Step>)
    requires Runs(Initial(), steps)
    ensures Spaced(Stamps(Initial(), steps)) <==> NoneTooSoon(Initial(), steps)
  {
    assert [] + Stamps(Initial(), steps) == Stamps(Initial(), steps);
    StampsSpacedFrom(Initial(), steps, [], Stamps(Initial(), steps));
  }

  // ---------- deadlines ----------

  /** There is a runtime, and a timer fires on its deadline, before any call made from then on. */
  predicate OnTime(s: System, step: Step) {
    match step
    case Call(_) => s.timers != [] ==> s.now < s.timers[0]
    case Tick(ms) => s.timers != [] ==> s.now + ms <= s.timers[0]
    case NoRuntime(_) => false
    case _ => true
  }

  /** Whoever sleeps or is about to will wake one interval after the stored time. */
  ghost predicate DeadlineInv(s: System) {
    && |s.scheduling| + |s.timers| == (if s.shared.publishPending then 1 else 0)
    && (s.shared.publishPending ==> s.shared.lastPublishedAt.Some?)
    && (s.scheduling != [] ==>
          s.scheduling[0] > 0 && s.now + s.scheduling[0] == s.shared.lastPublishedAt.value + DEBOUNCE_MS)
    && (s.timers != [] ==> s.timers[0] == s.shared.lastPublishedAt.value + DEBOUNCE_MS && s.now <= s.timers[0])
  }

  lemma NextKeepsDeadline(s: System, step: Step)
    requires InstantInv(s) && DeadlineInv(s) && Enabled(s, step) && Instant(s, step) && OnTime(s, step)
    ensures DeadlineInv(Next(s, step)) && !Hasty(s, step)
  {
  }

  predicate AllOnTime(s: System, steps: seq<Step>)
    requires Runs(s, steps)
    decreases |steps|
  {
    steps != [] ==> OnTime(s, steps[0]) && AllOnTime(Next(s, steps[0]), steps[1..])
  }

  lemma {:induction false} RunOnTimeNotHasty(s: System, steps: seq<Step>)
    requires InstantInv(s) && DeadlineInv(s)
    requires Runs(s, steps) && AllInstant(s, steps) && AllOnTime(s, steps)
    ensures NoneHasty(s, steps)
    decreases |steps|
  {
    if steps != [] {
      NextKeepsInstant(s, steps[0]);
      NextKeepsDeadline(s, steps[0]);
      RunOnTimeNotHasty(Next(s, steps[0]), steps[1..]);
    }
  }

  /**
   * When callers have a runtime and timers fire on their deadline, before any later call, publishes are an
   * interval apart, however callers interleave.
   */
  lemma PublishesAreSpaced(steps: seq<Step>)
    requires Runs(Initial(), steps) && AllInstant(Initial(), steps) && AllOnTime(Initial(), steps)
    requires Run(Initial(), steps).publishing == 0
    ensures Spaced(PublishTimes(Run(Initial(), steps).trace))
  {
    RunOnTimeNotHasty(Initial(), steps);
    PublishesSpacedIff(steps);
  }

  // ---------- two runs that break the spacing ----------

  lemma Prepend(s: System, step: Step, rest: seq<Step>) returns (steps: seq<Step>)
    requires Enabled(s, step) && Runs(Next(s, step), rest)
    ensures steps == [step] + rest && Runs(s, steps) && Run(s, steps) == Run(Next(s, step), rest)
    ensures AllInstant(s, steps) <==> Instant(s, step) && AllInstant(Next(s, step), rest)
  {
    steps := [step] + rest;
  }

  /** From a sleeping timer: the clock passes the deadline, a call is published, then the timer fires. */
  lemma LateTimerFires(s: System) returns (steps: seq<Step>)
    requires s == System(Shared(Some(0), true), 100, [], [750], 0, [Called, Published(0), Called])
    ensures Runs(s, steps) && AllInstant(s, steps)
    ensures Run(s, steps).trace == [Called, Published(0), Called, Called, Published(800), Published(801)]
  {
    var s1 := Next(s, Tick(700));
    var s2 := Next(s1, Call(800));
    var s3 := Next(s2, Publish);
    var s4 := Next(s3, Tick(1));
    var s5 := Next(s4, Fire(0));
    steps := Prepend(s5, Publish, []);
    steps := Prepend(s4, Fire(0), steps);
    steps := Prepend(s3, Tick(1), steps);
    steps := Prepend(s2, Publish, steps);
    steps := Prepend(s1, Call(800), steps);
    steps := Prepend(s, Tick(700), steps);
  }

  /** A late timer: a call published meanwhile is followed by the timer's own publish one millisecond later. */
  lemma LateTimerExample() returns (steps: seq<Step>)
    ensures Runs(Initial(), steps) && AllInstant(Initial(), steps)
    ensures Run(Initial(), steps).trace == [Called, Published(0), Called, Called, Published(800), Published(801)]
  {
    var s1 := Next(Initial(), Call(0));
    var s2 := Next(s1, Publish);
    var s3 := Next(s2, Tick(100));
    var s4 := Next(s3, Call(100));
    steps := LateTimerFires(Next(s4, Spawn(0)));
    steps := Prepend(s4, Spawn(0), steps);
    steps := Prepend(s3, Call(100), steps);
    steps := Prepend(s2, Tick(100), steps);
    steps := Prepend(s1, Publish, steps);
    steps := Prepend(Initial(), Call(0), steps);
  }

  /** A caller without a runtime publishes at once, a tenth of a second after the last publish, with no timer at all. */
  lemma NoRuntimeExample() returns (steps: seq<Step>)
    ensures Runs(Initial(), steps) && AllInstant(Initial(), steps)
    ensures forall i :: 0 <= i < |steps| ==> !steps[i].Fire?
    ensures Run(Initial(), steps).trace == [Called, Published(0), Called, Published(100)]
  {
    var s1 := Next(Initial(), Call(0));
    var s2 := Next(s1, Publish);
    var s3 := Next(s2, Tick(100));
    var s4 := Next(s3, Call(100));
    var s5 := Next(s4, NoRuntime(0));
    steps := Prepend(s5, Publish, []);
    steps := Prepend(s4, NoRuntime(0), steps);
    steps := Prepend(s3, Call(100), steps);
    steps := Prepend(s2, Tick(100), steps);
    steps := Prepend(s1, Publish, steps);
    steps := Prepend(Initial(), Call(0), steps);
  }
}
