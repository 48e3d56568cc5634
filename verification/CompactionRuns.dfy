/**
 * Runs of a session: the owner's history only grows, a background task may be pending while it grows,
 * and the slices that went into the current summary are recorded beside the state.
 */
module CompactionRuns {
  import opened Options
  import opened Helpers
  import opened Messages
  import opened Compaction

  /** One thing that happened to the summary. */
  datatype Step =
    | Background(provider: Provider, slice: seq<Message>)
    | Emergency(slice: seq<Message>, preTokens: nat, budget: nat)
    | Degraded
    | Provided(summary: Summary, slice: seq<Message>)

  function StepSlice(step: Step): seq<Message> {
    if step.Degraded? then [] else step.slice
  }

  /** All messages that went into a summary, in order. */
  function Slices(steps: seq<Step>): seq<Message> {
    if steps == [] then [] else Slices(steps[..|steps| - 1]) + StepSlice(steps[|steps| - 1])
  }

  function FoldStep(env: Env, prior: Option<Summary>, step: Step): Option<Summary> {
    match step
    case Background(p, slice) =>
      var a := GenerateArtifact(env, p, slice, prior);
      if a.Some? then Some(Summary(a.value.text, a.value.encrypted, a.value.coversUpToTurn, |slice|)) else prior
    case Emergency(slice, preTokens, budget) => Some(EmergencySummary(env, prior, slice, preTokens, budget))
    case Degraded => DegradeIfAny(env, prior)
    case Provided(m, _) => Some(m)
  }

  /** The summariser folded over the slices from the left. */
  function Fold(env: Env, steps: seq<Step>): Option<Summary> {
    if steps == [] then None else FoldStep(env, Fold(env, steps[..|steps| - 1]), steps[|steps| - 1])
  }

  lemma FoldSnoc(env: Env, steps: seq<Step>, step: Step)
    ensures Fold(env, steps + [step]) == FoldStep(env, Fold(env, steps), step)
    ensures Slices(steps + [step]) == Slices(steps) + StepSlice(step)
  {
    assert (steps + [step])[..|steps|] == steps;
  }

  /** A session: the owner's messages, the manager's state, and where each summary came from. */
  datatype Session = Session(history: seq<Message>, st: State, prov: seq<Step>, pendingProv: seq<Step>)

  datatype Op =
    | Append(message: Message)
    | Start(wanted: bool, mode: CutMode)
    | Force(usageHigh: bool)
    | Poll(outcome: Outcome)
    | Hard
    | Discard
    | Observe(tokens: nat)
    | SetBudget(budget: nat)
    | Reload
    | Native(encrypted: string, count: nat, budget: nat)

  function Fresh(): Session { Session([], NewState(), [], []) }

  function AfterAppend(env: Env, x: Session, m: Message): Session {
    x.(history := x.history + [m], st := Notify(env, x.st, m))
  }

  function AfterStart(x: Session, st: State): Session {
    x.(st := st, pendingProv := if x.st.pending.None? && st.pending.Some? then x.prov else x.pendingProv)
  }

  /** Polling now would apply a summary. */
  predicate Applies(env: Env, x: Session, outcome: Outcome) {
    && x.st.pending.Some? && outcome.Finished?
    && GenerateArtifact(env, outcome.provider, x.st.pending.value.slice, x.st.pending.value.existing).Some?
  }

  function AfterPoll(env: Env, x: Session, outcome: Outcome): Session {
    var st := Compaction.Poll(env, x.st, x.history, outcome);
    if Applies(env, x, outcome)
    then x.(st := st, prov := x.pendingProv + [Background(outcome.provider, x.st.pending.value.slice)])
    else x.(st := st)
  }

  /** The record of an emergency cut of `r` messages. */
  function CutStep(env: Env, x: Session, r: nat): Step {
    var active := Active(x.st, x.history);
    Emergency(active[..Min(r, |active|)], EffectiveTokens(env, x.st, x.history), x.st.budget)
  }

  function AfterHard(env: Env, x: Session): Session {
    var (st, r) := HardCompact(env, x.st, x.history);
    if r.None? then x else x.(st := st, prov := x.prov + [CutStep(env, x, r.value)])
  }

  function AfterDiscard(env: Env, x: Session): Session {
    x.(st := Compaction.Discard(env, x.st), prov := x.prov + [Degraded])
  }

  /** Leave the session and come back: export, reset, and restore or seed. */
  function AfterReload(env: Env, x: Session): Session {
    var blank := NewState().(budget := x.st.budget);
    var stored := Export(x.st);
    x.(st := if stored.Some? then Restore(env, blank, stored.value, x.history) else Seed(env, blank, x.history))
  }

  /** What is stored when the provider compacts by itself: its payload, or a notice when that is oversized. */
  function NativeState(env: Env, encrypted: string, count: nat): Stored {
    if Sendable(encrypted) then Stored("", Some(encrypted), count, count, count)
    else Stored(env.fallback(|encrypted|), None, count, count, count)
  }

  /** The provider's own summary of the first `count` messages replaces whatever there was, tasks included. */
  function AfterNative(env: Env, x: Session, encrypted: string, count: nat, budget: nat): Session {
    var st := Restore(env, x.st.(budget := budget), NativeState(env, encrypted, count), x.history);
    x.(st := st, prov := [Provided(st.summary.value, x.history[..st.compactedCount])])
  }

  function Next(env: Env, x: Session, op: Op): Session {
    match op
    case Append(m) => AfterAppend(env, x, m)
    case Start(wanted, mode) => AfterStart(x, MaybeStart(x.st, x.history, wanted, mode))
    case Force(usageHigh) => AfterStart(x, Compaction.Force(x.st, x.history, usageHigh).0)
    case Poll(outcome) => AfterPoll(env, x, outcome)
    case Hard => AfterHard(env, x)
    case Discard => AfterDiscard(env, x)
    case Observe(tokens) => x.(st := x.st.(observed := Some(tokens)))
    case SetBudget(budget) => x.(st := x.st.(budget := budget))
    case Reload => AfterReload(env, x)
    case Native(encrypted, count, budget) => AfterNative(env, x, encrypted, count, budget)
  }

  function Run(env: Env, x: Session, ops: seq<Op>): Session
    decreases |ops|
  {
    if ops == [] then x else Run(env, Next(env, x, ops[0]), ops[1..])
  }

  lemma {:induction false} RunConcat(env: Env, x: Session, a: seq<Op>, b: seq<Op>)
    ensures Run(env, x, a + b) == Run(env, Run(env, x, a), b)
    decreases |a|
  {
    if a == [] {
      assert a + b == b;
    } else {
      assert (a + b)[1..] == a[1..] + b;
      RunConcat(env, Next(env, x, a[0]), a[1..], b);
    }
  }

  lemma RunOne(env: Env, x: Session, op: Op)
    ensures Run(env, x, [op]) == Next(env, x, op)
  {
    assert [op][1..] == [];
    assert Run(env, Next(env, x, op), []) == Next(env, x, op);
  }

  lemma RunTwo(env: Env, x: Session, first: Op, second: Op)
    ensures Run(env, x, [first, second]) == Next(env, Next(env, x, first), second)
  {
    assert [first, second][1..] == [second];
    RunOne(env, Next(env, x, first), second);
  }

  /** The check before a request: maybe start a task, then cut when the context is nearly full. */
  function EnsureOps(wanted: bool, mode: CutMode, critical: bool): seq<Op> {
    [Start(wanted, mode)] + if critical then [Hard] else []
  }

  lemma EnsureRuns(env: Env, x: Session, wanted: bool, mode: CutMode, critical: bool)
    ensures var y := Next(env, x, Start(wanted, mode));
      Run(env, x, EnsureOps(wanted, mode, critical)) == if critical then Next(env, y, Hard) else y
  {
    if critical {
      RunTwo(env, x, Start(wanted, mode), Hard);
    } else {
      RunOne(env, x, Start(wanted, mode));
    }
  }

  lemma StartThenCut(env: Env, x: Session, wanted: bool, mode: CutMode, critical: bool)
    ensures var y := AfterStart(x, MaybeStart(x.st, x.history, wanted, mode));
      (if critical then AfterHard(env, y) else y).st == EnsureFits(env, x.st, x.history, wanted, mode, critical).0
  {
  }

  /** The manager's combined operations are runs of single ones. */
  lemma EnsureIsEnsureFits(env: Env, x: Session, wanted: bool, mode: CutMode, critical: bool)
    ensures Run(env, x, EnsureOps(wanted, mode, critical)).st
      == EnsureFits(env, x.st, x.history, wanted, mode, critical).0
  {
    EnsureRuns(env, x, wanted, mode, critical);
    StartThenCut(env, x, wanted, mode, critical);
  }

  lemma RequestIsPollAndDiscard(env: Env, x: Session, outcome: Outcome)
    ensures Run(env, x, [Poll(outcome), Discard]).st
      == Compaction.Discard(env, Compaction.Poll(env, x.st, x.history, outcome))
  {
    RunTwo(env, x, Poll(outcome), Discard);
  }

  // ---------- what a step changes ----------

  /** What a request shows of a history when `from` messages count as compacted. */
  function Shown(all: seq<Message>, from: nat): seq<Message> {
    if from <= |all| then all[from..] else all
  }

  datatype Change =
    | Appended(message: Message)
    | Settings
    | Begun
    | CutOff(count: nat)
    | Dropped
    | Applied(provider: Provider, artifact: Artifact)
    | Degrading
    | Reopened
    | Replaced(count: nat)

  /** What is pending, and what it was started from. */
  ghost predicate SamePending(x: Session, y: Session) {
    y.st.pending == x.st.pending && y.st.pendingCutoff == x.st.pendingCutoff && y.pendingProv == x.pendingProv
  }

  predicate NothingPending(y: Session) { y.st.pending.None? && y.st.pendingCutoff == 0 }

  ghost predicate SameTotal(x: Session, y: Session) {
    y.st.activeChars == x.st.activeChars && y.st.dirty == x.st.dirty && y.st.totalTurns == x.st.totalTurns
  }

  /** The incremental char total is that of a full rescan, and is trusted. */
  ghost predicate TotalMaintained(env: Env, x: Session) {
    && x.st.totalTurns == |x.history|
    && !x.st.dirty
    && x.st.activeChars == Chars(env, Active(x.st, x.history))
  }

  /** `y` is `x` after an emergency cut of `r` messages, recorded as one more slice. */
  ghost predicate IsCut(env: Env, x: Session, r: nat, y: Session) {
    var active := Active(x.st, x.history);
    && 0 < r <= |active| - MIN_TURNS_TO_KEEP && SelfContained(active[r..])
    && y.prov == x.prov + [CutStep(env, x, r)]
    && y.st.summary == FoldStep(env, x.st.summary, CutStep(env, x, r))
    && y.history == x.history && y.st.compactedCount == x.st.compactedCount + r && SamePending(x, y)
    && y.st.activeChars == Chars(env, active[r..]) && !y.st.dirty && y.st.totalTurns == x.st.totalTurns
  }

  /** `y` is `x` with the artifact of its pending task applied, wherever the front is by then. */
  ghost predicate IsApplied(env: Env, x: Session, p: Provider, a: Artifact, y: Session) {
    && x.st.pending.Some?
    && GenerateArtifact(env, p, x.st.pending.value.slice, x.st.pending.value.existing) == Some(a)
    && y.prov == x.pendingProv + [Background(p, x.st.pending.value.slice)]
    && y.history == x.history && y.st.compactedCount == x.st.compactedCount + x.st.pendingCutoff
    && y.st.summary == Some(Summary(a.text, a.encrypted, a.coversUpToTurn, x.st.pendingCutoff))
    && NothingPending(y)
    && (TotalMaintained(env, x) && x.st.compactedCount + x.st.pendingCutoff <= |x.history| ==> TotalMaintained(env, y))
  }

  /** What each kind of change does, by the fields it changes. */
  ghost predicate Changes(env: Env, x: Session, c: Change, y: Session) {
    match c
    case Appended(m) => y == AfterAppend(env, x, m)
    case Settings => y == x.(st := x.st.(budget := y.st.budget, observed := y.st.observed))
    case Begun => StartedSafely(x.st, x.history, y.st) && y == x.(st := y.st, pendingProv := x.prov)
    case CutOff(r) => IsCut(env, x, r, y)
    case Dropped => x.st.pending.Some? && y == x.(st := x.st.(pending := None, pendingCutoff := 0))
    case Applied(p, a) => IsApplied(env, x, p, a, y)
    case Degrading =>
      && y.history == x.history && y.st.compactedCount == x.st.compactedCount && SamePending(x, y) && SameTotal(x, y)
      && y.prov == x.prov + [Degraded] && y.st.summary == DegradeIfAny(env, x.st.summary)
    case Reopened =>
      && y.history == x.history && y.prov == x.prov && y.st.summary == x.st.summary
      && y.st.compactedCount == (if x.st.summary.None? then 0 else Min(x.st.compactedCount, |x.history|))
      && NothingPending(y) && TotalMaintained(env, y)
    case Replaced(count) =>
      && y.history == x.history && y.st.compactedCount == Min(count, |x.history|) && y.st.summary.Some?
      && y.prov == [Provided(y.st.summary.value, x.history[..y.st.compactedCount])]
      && NothingPending(y) && TotalMaintained(env, y)
  }

  /** Which change an operation makes. */
  ghost predicate Makes(env: Env, x: Session, op: Op, c: Change) {
    && (c.Appended? <==> op.Append?) && (op.Append? ==> c.message == op.message)
    && (c.Begun? ==> op.Start? || op.Force?)
    && (c.CutOff? ==> op.Hard? && HardCompact(env, x.st, x.history).1 == Some(c.count))
    && (op.Hard? && HardCompact(env, x.st, x.history).1.Some? ==> c.CutOff?)
    && (c.Applied? <==> op.Poll? && Applies(env, x, op.outcome))
    && (c.Applied? ==> c.provider == op.outcome.provider)
    && (c.Replaced? <==> op.Native?) && (op.Native? ==> c.count == op.count)
  }

  lemma StartChanges(x: Session, env: Env, op: Op) returns (y: Session, c: Change)
    requires op.Start? || op.Force?
    ensures y == Next(env, x, op) && Changes(env, x, c, y) && Makes(env, x, op, c)
  {
    y := Next(env, x, op);
    if op.Start? {
      StartKeepsRecentTurns(x.st, x.history, op.wanted, op.mode, false);
    } else {
      StartKeepsRecentTurns(x.st, x.history, false, ByRecency, op.usageHigh);
    }
    c := if y.st == x.st then Settings else Begun;
  }

  lemma HardChanges(x: Session, env: Env) returns (y: Session, c: Change)
    ensures y == AfterHard(env, x) && Changes(env, x, c, y)
    ensures var r := HardCompact(env, x.st, x.history).1; if r.Some? then c == CutOff(r.value) else c == Settings
  {
    HardCompactCutsAway(env, x.st, x.history);
    y := AfterHard(env, x);
    var r := HardCompact(env, x.st, x.history).1;
    c := if r.Some? then CutOff(r.value) else Settings;
  }

  lemma ApplyKeepsTotal(env: Env, x: Session, a: Artifact)
    requires TotalMaintained(env, x) && x.st.compactedCount + x.st.pendingCutoff <= |x.history|
    requires a.encrypted.Some? ==> Sendable(a.encrypted.value)
    ensures TotalMaintained(env, x.(st := Apply(env, x.st, x.history, a)))
  {
    ApplyMovesFront(env, x.st, x.history, a);
  }

  /** Of a task's success and of any other outcome. */
  lemma PollChanges(x: Session, env: Env, outcome: Outcome) returns (y: Session, c: Change)
    ensures y == AfterPoll(env, x, outcome) && Changes(env, x, c, y)
    ensures c.Applied? <==> Applies(env, x, outcome)
    ensures c.Applied? ==> c.provider == outcome.provider
    ensures c.Applied? || c.Dropped? || c.Settings?
  {
    y := AfterPoll(env, x, outcome);
    if Applies(env, x, outcome) {
      var t := x.st.pending.value;
      var a := GenerateArtifact(env, outcome.provider, t.slice, t.existing).value;
      c := Applied(outcome.provider, a);
      if TotalMaintained(env, x) && x.st.compactedCount + x.st.pendingCutoff <= |x.history| {
        ApplyKeepsTotal(env, x, a);
      }
    } else {
      c := if y.st == x.st then Settings else Dropped;
    }
  }

  lemma DiscardChanges(x: Session, env: Env) returns (y: Session)
    ensures y == AfterDiscard(env, x) && Changes(env, x, Degrading, y)
  {
    y := AfterDiscard(env, x);
  }

  lemma ReloadChanges(x: Session, env: Env) returns (y: Session)
    ensures y == AfterReload(env, x) && Changes(env, x, Reopened, y)
  {
    y := AfterReload(env, x);
    assert x.history[0..] == x.history;
  }

  lemma NativeChanges(x: Session, env: Env, encrypted: string, count: nat, budget: nat) returns (y: Session)
    ensures y == AfterNative(env, x, encrypted, count, budget) && Changes(env, x, Replaced(count), y)
  {
    y := AfterNative(env, x, encrypted, count, budget);
  }

  /** Every operation makes one of these changes. */
  lemma NextChanges(env: Env, x: Session, op: Op) returns (y: Session, c: Change)
    ensures y == Next(env, x, op) && Changes(env, x, c, y) && Makes(env, x, op, c)
  {
    match op
    case Append(m) => y, c := AfterAppend(env, x, m), Appended(m);
    case Start(_, _) => y, c := StartChanges(x, env, op);
    case Force(_) => y, c := StartChanges(x, env, op);
    case Poll(outcome) => y, c := PollChanges(x, env, outcome);
    case Hard => y, c := HardChanges(x, env);
    case Discard =>
      y := DiscardChanges(x, env);
      c := Degrading;
    case Observe(tokens) => y, c := x.(st := x.st.(observed := Some(tokens))), Settings;
    case SetBudget(budget) => y, c := x.(st := x.st.(budget := budget)), Settings;
    case Reload =>
      y := ReloadChanges(x, env);
      c := Reopened;
    case Native(encrypted, count, budget) =>
      y := NativeChanges(x, env, encrypted, count, budget);
      c := Replaced(count);
  }
}
