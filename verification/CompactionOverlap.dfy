/** What requests show when an emergency cut goes through while a background task is pending. */
module CompactionOverlap {
  import opened Options
  import opened Messages
  import opened SafeCutoffs
  import opened Compaction
  import opened CompactionRuns
  import opened CompactionCoverage
  import opened CompactionPairs

  function Appends(ms: seq<Message>): seq<Op> {
    if ms == [] then [] else [Append(ms[0])] + Appends(ms[1..])
  }

  /** `z` is `x` with messages appended, as far as coverage is concerned. */
  ghost predicate Extends(x: Session, z: Session) {
    x.history <= z.history && SamePending(x, z) && z.st.compactedCount == x.st.compactedCount
  }

  lemma OneMoreExtends(env: Env, x: Session, d: nat, m: Message) returns (y: Session)
    requires Inv(env, x, d)
    ensures y == Next(env, x, Append(m)) && y.history == x.history + [m] && Inv(env, y, d) && Extends(x, y)
  {
    var c;
    y, c := NextChanges(env, x, Append(m));
    CutAfter(env, x, d, c, y);
    y := NextKeepsInv(env, x, d, Append(m));
  }

  lemma ExtendsTransitive(x: Session, y: Session, z: Session)
    requires Extends(x, y) && Extends(y, z)
    ensures Extends(x, z)
  {
  }

  lemma ConsAppends(ms: seq<Message>)
    requires ms != []
    ensures Appends(ms) != [] && Appends(ms)[0] == Append(ms[0]) && Appends(ms)[1..] == Appends(ms[1..])
  {
  }

  lemma SnocCons<T>(s: seq<T>, t: seq<T>)
    requires t != []
    ensures s + [t[0]] + t[1..] == s + t
  {
  }

  lemma {:induction false} AppendsExtend(env: Env, x: Session, d: nat, ms: seq<Message>) returns (z: Session)
    requires Inv(env, x, d)
    ensures z == Run(env, x, Appends(ms)) && z.history == x.history + ms && Inv(env, z, d) && Extends(x, z)
    decreases |ms|
  {
    if ms == [] {
      z := x;
    } else {
      var y := OneMoreExtends(env, x, d, ms[0]);
      ConsAppends(ms);
      z := AppendsExtend(env, y, d, ms[1..]);
      SnocCons(x.history, ms);
      ExtendsTransitive(x, y, z);
    }
  }

  // ---------- a cut, appends, a poll ----------

  lemma CutThenAppends(env: Env, x: Session, d: nat, more: seq<Message>, r: nat) returns (z: Session, e: nat)
    requires Inv(env, x, d) && HardCompact(env, x.st, x.history).1 == Some(r)
    ensures z == Run(env, Next(env, x, Hard), Appends(more)) && z.history == x.history + more && Inv(env, z, e)
    ensures SamePending(x, z) && r > 0
    ensures z.st.compactedCount == x.st.compactedCount + r && e == if x.st.pending.None? then 0 else d + r
  {
    var y, c := NextChanges(env, x, Hard);
    CutAfter(env, x, d, c, y);
    e := NextCut(x, d, y);
    var same := NextKeepsInv(env, x, d, Hard);
    z := AppendsExtend(env, y, e, more);
  }

  lemma SamePendingApplies(env: Env, x: Session, z: Session, outcome: Outcome)
    requires SamePending(x, z)
    ensures Applies(env, z, outcome) <==> Applies(env, x, outcome)
  {
  }

  lemma NoApplyKeepsHistory(env: Env, z: Session, e: nat, outcome: Outcome) returns (y: Session)
    requires Inv(env, z, e) && !Applies(env, z, outcome)
    ensures y == Next(env, z, Poll(outcome)) && y.history == z.history && Covered(env, y)
  {
    var c;
    y, c := NextChanges(env, z, Poll(outcome));
    y := NextKeepsInv(env, z, e, Poll(outcome));
  }

  lemma StaleAt(env: Env, z: Session, e: nat, end: nat, p: Provider, all: seq<Message>) returns (y: Session)
    requires TaskAligned(env, z, e) && e > 0 && z.history <= all
    requires Applies(env, z, Finished(p)) && end == z.st.compactedCount - e + z.st.pendingCutoff
    ensures y == Next(env, z, Poll(Finished(p))) && y.history == z.history
    ensures !Covered(env, y) && Miscounts(env, y, end, e, all)
  {
    y := StaleMiscounts(env, z, e, p, all);
    FewerSlicesNotCovered(env, y);
  }

  /** With messages cut away under a task, polling it keeps coverage exactly when it does not succeed. */
  lemma PollCoveredIff(env: Env, z: Session, e: nat, end: nat, outcome: Outcome, all: seq<Message>) returns (y: Session)
    requires Inv(env, z, e) && z.history <= all
    requires z.st.pending.Some? ==> e > 0 && end == z.st.compactedCount - e + z.st.pendingCutoff
    ensures y == Next(env, z, Poll(outcome)) && y.history == z.history
    ensures Covered(env, y) <==> !Applies(env, z, outcome)
    ensures Applies(env, z, outcome) ==> Miscounts(env, y, end, e, all)
  {
    if Applies(env, z, outcome) {
      y := StaleAt(env, z, e, end, outcome.provider, all);
    } else {
      y := NoApplyKeepsHistory(env, z, e, outcome);
    }
  }

  /**
   * After an emergency cut of `r` messages, any appended messages and a poll, the history is covered if and only
   * if no task from before the cut now succeeds. If one does, those messages, and the `d` cut under it before, are
   * miscounted in every request, for as long as messages are only appended.
   */
  lemma CutThenPollCoveredIff(env: Env, x: Session, d: nat, r: nat, more: seq<Message>, outcome: Outcome,
                              all: seq<Message>) returns (y: Session, end: nat, e: nat)
    requires Inv(env, x, d) && HardCompact(env, x.st, x.history).1 == Some(r)
    requires x.history + more <= all
    ensures y == Next(env, Run(env, Next(env, x, Hard), Appends(more)), Poll(outcome))
    ensures y.history == x.history + more
    ensures Covered(env, y) <==> !Applies(env, x, outcome)
    ensures Applies(env, x, outcome) ==>
      end == x.st.compactedCount - d + x.st.pendingCutoff && e == d + r && Miscounts(env, y, end, e, all)
  {
    var z;
    z, e := CutThenAppends(env, x, d, more, r);
    SamePendingApplies(env, x, z, outcome);
    end := if x.st.pending.Some? then z.st.compactedCount - e + z.st.pendingCutoff else 0;
    y := PollCoveredIff(env, z, e, end, outcome, all);
  }

  /** Such a request keeps results with their calls exactly when what is left after both cuts does. */
  lemma MiscountedPairsIff(env: Env, y: Session, end: nat, d: nat, all: seq<Message>)
    requires Miscounts(env, y, end, d, all)
    ensures SelfContained(ApiView(env, y.st, all)) <==> SelfContained(Shown(all, end + d))
  {
    assert y.st.compactedCount == end + d;
    RequestPairedIff(env, y.st, all);
  }

  // ---------- how one check comes to do both ----------

  /** A session in which nothing happened but messages being appended and tokens being observed. */
  function Ready(env: Env, ms: seq<Message>, seen: Option<nat>): Session {
    Session(ms, NewState().(activeChars := Chars(env, ms), totalTurns := |ms|, observed := seen), [], [])
  }

  function Setup(ms: seq<Message>, seen: Option<nat>): seq<Op> {
    Appends(ms) + if seen.Some? then [Observe(seen.value)] else []
  }

  lemma AppendReadies(env: Env, ms: seq<Message>, m: Message)
    ensures Next(env, Ready(env, ms, None), Append(m)) == Ready(env, ms + [m], None)
  {
    CharsConcat(env, ms, [m]);
    assert Chars(env, [m]) == env.messageChars(m) by { assert [m][1..] == []; }
  }

  lemma {:induction false} AppendsReady(env: Env, ms: seq<Message>, rest: seq<Message>)
    ensures Run(env, Ready(env, ms, None), Appends(rest)) == Ready(env, ms + rest, None)
    decreases |rest|
  {
    if rest == [] {
      assert ms + rest == ms;
    } else {
      ConsAppends(rest);
      AppendReadies(env, ms, rest[0]);
      AppendsReady(env, ms + [rest[0]], rest[1..]);
      SnocCons(ms, rest);
    }
  }

  lemma SetupReadies(env: Env, ms: seq<Message>, seen: Option<nat>)
    ensures Run(env, Fresh(), Setup(ms, seen)) == Ready(env, ms, seen)
  {
    var sights := if seen.Some? then [Observe(seen.value)] else [];
    assert Fresh() == Ready(env, [], None) && [] + ms == ms;
    AppendsReady(env, [], ms);
    RunConcat(env, Fresh(), Appends(ms), sights);
    if seen.Some? {
      RunOne(env, Ready(env, ms, None), Observe(seen.value));
    }
  }

  lemma ReadyInv(env: Env, ms: seq<Message>, seen: Option<nat>)
    ensures Inv(env, Ready(env, ms, seen), 0)
  {
    assert ms[0..] == ms;
  }

  /** Where a task started by recency would cut. */
  function TaskCut(ms: seq<Message>): nat { BackgroundCut(ms, ByRecency) }

  /** What one check before a request does in reactive mode, by the usage it finds. */
  function Check(env: Env, x: Session): seq<Op> {
    var wanted := UsageAtLeast(env, x.st, x.history, COMPACTION_PERCENT);
    var started := MaybeStart(x.st, x.history, wanted, ByRecency);
    EnsureOps(wanted, ByRecency, UsageAtLeast(env, started, x.history, CRITICAL_PERCENT))
  }

  /** More messages than are kept, something to summarise, and a critically full context. */
  ghost predicate Full(env: Env, ms: seq<Message>, seen: Option<nat>) {
    && |ms| > RECENT_TURNS_TO_KEEP && TaskCut(ms) > 0
    && UsageAtLeast(env, Ready(env, ms, seen).st, ms, CRITICAL_PERCENT)
  }

  /** An emergency cut goes at least as far as a task would. */
  lemma HardCutAtLeast(env: Env, active: seq<Message>, budget: nat)
    requires |active| > RECENT_TURNS_TO_KEEP
    ensures TaskCut(active) <= HardCut(env, active, budget) <= |active| - MIN_TURNS_TO_KEEP
  {
    var i := HardCutSettles(env, active, budget, FirstRung(active));
    LadderFalls(FirstRung(active));
    KeepingLessCutsMore(active, RECENT_TURNS_TO_KEEP, Ladder(FirstRung(active))[i]);
  }

  lemma KeepingLessCutsMore(active: seq<Message>, keep: nat, less: nat)
    requires less <= keep <= |active|
    ensures CutKeeping(active, keep) <= CutKeeping(active, less)
  {
    SafeCutoffMonotone(active, |active| - keep, |active| - less);
  }

  lemma FullStarts(env: Env, ms: seq<Message>, seen: Option<nat>) returns (st: State)
    requires Full(env, ms, seen)
    ensures st == Ready(env, ms, seen).st.(pending := Some(Task(None, ms[..TaskCut(ms)])), pendingCutoff := TaskCut(ms))
    ensures MaybeStart(Ready(env, ms, seen).st, ms, true, ByRecency) == st
    ensures Check(env, Ready(env, ms, seen)) == [Start(true, ByRecency), Hard]
  {
    assert ms[0..] == ms;
    st := MaybeStart(Ready(env, ms, seen).st, ms, true, ByRecency);
  }

  lemma ActiveIsAll(st: State, ms: seq<Message>)
    requires st.compactedCount == 0
    ensures Active(st, ms) == ms
  {
  }

  lemma HardCompactSucceeds(env: Env, st: State, ms: seq<Message>) returns (d: nat)
    requires st.compactedCount == 0 && |ms| > RECENT_TURNS_TO_KEEP && TaskCut(ms) > 0
    ensures HardCompact(env, st, ms).1 == Some(d) && d == HardCut(env, ms, st.budget)
    ensures TaskCut(ms) <= d <= |ms| - MIN_TURNS_TO_KEEP
  {
    ActiveIsAll(st, ms);
    HardCutAtLeast(env, ms, st.budget);
    d := HardCompact(env, st, ms).1.value;
  }

  /** One check then starts a task and cuts at once, at least as many messages as the task is for. */
  lemma CheckStartsAndCuts(env: Env, ms: seq<Message>, seen: Option<nat>) returns (x: Session, d: nat)
    requires Full(env, ms, seen)
    ensures Check(env, Ready(env, ms, seen)) == [Start(true, ByRecency), Hard]
    ensures x == Next(env, Ready(env, ms, seen), Start(true, ByRecency)) && Inv(env, x, 0)
    ensures x.history == ms && x.st.compactedCount == 0 && x.st.pendingCutoff == TaskCut(ms)
    ensures x.st.pending == Some(Task(None, ms[..TaskCut(ms)]))
    ensures HardCompact(env, x.st, x.history).1 == Some(d) && d == HardCut(env, ms, DEFAULT_TOKEN_BUDGET)
    ensures TaskCut(ms) <= d <= |ms| - MIN_TURNS_TO_KEEP
  {
    var st := FullStarts(env, ms, seen);
    ReadyInv(env, ms, seen);
    x := NextKeepsInv(env, Ready(env, ms, seen), 0, Start(true, ByRecency));
    d := HardCompactSucceeds(env, st, ms);
  }

  /** Append `ms`, observe tokens, check, append `more`, and let the task that was started finish. */
  function CheckedRun(env: Env, ms: seq<Message>, seen: Option<nat>, more: seq<Message>, p: Provider): seq<Op> {
    Setup(ms, seen) + (Check(env, Ready(env, ms, seen)) + (Appends(more) + [Poll(Finished(p))]))
  }

  lemma CheckedRunIs(env: Env, ms: seq<Message>, seen: Option<nat>, more: seq<Message>, p: Provider, x: Session)
    requires Check(env, Ready(env, ms, seen)) == [Start(true, ByRecency), Hard]
    requires x == Next(env, Ready(env, ms, seen), Start(true, ByRecency))
    ensures Run(env, Fresh(), CheckedRun(env, ms, seen, more, p))
      == Next(env, Run(env, Next(env, x, Hard), Appends(more)), Poll(Finished(p)))
  {
    var ready, poll := Ready(env, ms, seen), Poll(Finished(p));
    SetupReadies(env, ms, seen);
    RunConcat(env, Fresh(), Setup(ms, seen), [Start(true, ByRecency), Hard] + (Appends(more) + [poll]));
    RunConcat(env, ready, [Start(true, ByRecency), Hard], Appends(more) + [poll]);
    RunTwo(env, ready, Start(true, ByRecency), Hard);
    RunConcat(env, Next(env, x, Hard), Appends(more), [poll]);
    RunOne(env, Run(env, Next(env, x, Hard), Appends(more)), poll);
  }

  /**
   * From an empty session: once the context is critically full, one check both starts a task and cuts, and the
   * task's success leaves the summary of its slice while at least as many more messages count as compacted.
   */
  lemma CheckMiscounts(env: Env, ms: seq<Message>, seen: Option<nat>, more: seq<Message>, p: Provider,
                       all: seq<Message>)
    returns (y: Session, d: nat)
    requires Full(env, ms, seen) && ms + more <= all
    requires GenerateArtifact(env, p, ms[..TaskCut(ms)], None).Some?
    ensures y == Run(env, Fresh(), CheckedRun(env, ms, seen, more, p)) && y.history == ms + more
    ensures d == HardCut(env, ms, DEFAULT_TOKEN_BUDGET) && TaskCut(ms) <= d <= |ms| - MIN_TURNS_TO_KEEP
    ensures Miscounts(env, y, TaskCut(ms), d, all)
  {
    var x;
    x, d := CheckStartsAndCuts(env, ms, seen);
    y := StartedMiscounts(env, x, d, more, p, all);
    CheckedRunIs(env, ms, seen, more, p, x);
  }

  lemma StartedMiscounts(env: Env, x: Session, d: nat, more: seq<Message>, p: Provider, all: seq<Message>)
    returns (y: Session)
    requires Inv(env, x, 0) && x.st.compactedCount == 0 && Applies(env, x, Finished(p))
    requires HardCompact(env, x.st, x.history).1 == Some(d) && x.history + more <= all
    ensures y == Next(env, Run(env, Next(env, x, Hard), Appends(more)), Poll(Finished(p)))
    ensures y.history == x.history + more && Miscounts(env, y, x.st.pendingCutoff, d, all)
  {
    var end, e;
    y, end, e := CutThenPollCoveredIff(env, x, 0, d, more, Finished(p), all);
  }

  /** With at most two messages more than are kept, some message is always missing from the next request. */
  lemma FewMessagesAreLost(env: Env, ms: seq<Message>, seen: Option<nat>, p: Provider)
    returns (y: Session, m: Message, d: nat)
    requires Full(env, ms, seen) && |ms| <= RECENT_TURNS_TO_KEEP + 2
    requires GenerateArtifact(env, p, ms[..TaskCut(ms)], None).Some?
    ensures y == Run(env, Fresh(), CheckedRun(env, ms, seen, [], p))
    ensures d > 0 && TaskCut(ms) + d <= |ms| && Slices(y.prov) == ms[..TaskCut(ms)]
    ensures ApiView(env, y.st, ms) == [m] + ms[TaskCut(ms) + d..]
  {
    assert ms + [] == ms;
    y, d := CheckMiscounts(env, ms, seen, [], p, ms);
    m := SummaryMessage(env, y.st.summary.value);
  }

  /** With a task for more than half of the messages, the next request repeats the whole history after the summary. */
  lemma ManyMessagesAreRepeated(env: Env, ms: seq<Message>, seen: Option<nat>, p: Provider)
    returns (y: Session, m: Message)
    requires Full(env, ms, seen) && 2 * TaskCut(ms) > |ms|
    requires GenerateArtifact(env, p, ms[..TaskCut(ms)], None).Some?
    ensures y == Run(env, Fresh(), CheckedRun(env, ms, seen, [], p))
    ensures Slices(y.prov) == ms[..TaskCut(ms)] && ApiView(env, y.st, ms) == [m] + ms
  {
    assert ms + [] == ms;
    var d;
    y, d := CheckMiscounts(env, ms, seen, [], p, ms);
    m := SummaryMessage(env, y.st.summary.value);
  }

  // ---------- a result without its call ----------

  /** Twelve short messages, and a provider that reports a nearly full context. */
  ghost predicate Twelve(env: Env, ms: seq<Message>) {
    && |ms| == RECENT_TURNS_TO_KEEP + 2 && SelfContained(ms[2..])
    && Fits(env, ms, DEFAULT_TOKEN_BUDGET, 2)
  }

  const NEARLY_FULL: nat := 195_000

  lemma TwelveCuts(env: Env, ms: seq<Message>)
    requires Twelve(env, ms)
    ensures TaskCut(ms) == 2 && HardCut(env, ms, DEFAULT_TOKEN_BUDGET) == 2
    ensures Full(env, ms, Some(NEARLY_FULL))
  {
    assert FirstRung(ms) == RECENT_TURNS_TO_KEEP;
    assert CutKeeping(ms, RECENT_TURNS_TO_KEEP) == 2;
  }

  /** The task and the cut are each safe, but applying both goes four messages in, between a call and its result. */
  lemma OverlapOrphansResult(env: Env, ms: seq<Message>, p: Provider) returns (y: Session, m: Message)
    requires Twelve(env, ms) && !SelfContained(ms[4..])
    requires GenerateArtifact(env, p, ms[..2], None).Some?
    ensures y == Run(env, Fresh(), CheckedRun(env, ms, Some(NEARLY_FULL), [], p)) && y.history == ms
    ensures ApiView(env, y.st, ms) == [m] + ms[4..] && !SelfContained(ApiView(env, y.st, ms))
  {
    TwelveCuts(env, ms);
    assert ms + [] == ms;
    var d;
    y, d := CheckMiscounts(env, ms, Some(NEARLY_FULL), [], p, ms);
    m := SummaryMessage(env, y.st.summary.value);
    MiscountedPairsIff(env, y, 2, 2, ms);
  }

  /** `n` messages of plain text. */
  function Plain(n: nat): (ms: seq<Message>)
    ensures |ms| == n
    ensures forall i :: 0 <= i < n ==> ms[i] == Message(User, [Text("hello")])
  {
    if n == 0 then [] else Plain(n - 1) + [Message(User, [Text("hello")])]
  }

  /** A call and its result at once after it, among plain text. */
  function Exchange(id: string): seq<Message> {
    [Message(Assistant, [ToolUse(id, "bash", "{}")]), Message(User, [ToolResult(id, "done", None)])]
  }

  function Talk(id: string): seq<Message> { Plain(3) + Exchange(id) + Plain(7) }

  lemma PlainHasNoIds(n: nat)
    ensures UseIds(Plain(n)) == {} && ResultIds(Plain(n)) == {}
  {
  }

  lemma CallIds(id: string)
    ensures UseIds([Exchange(id)[0]]) == {id} && ResultIds([Exchange(id)[0]]) == {}
  {
    var b := ToolUse(id, "bash", "{}");
    IdsOfOne(Exchange(id)[0]);
    assert b in Exchange(id)[0].content;
  }

  lemma AnswerIds(id: string)
    ensures UseIds([Exchange(id)[1]]) == {} && ResultIds([Exchange(id)[1]]) == {id}
  {
    var b := ToolResult(id, "done", None);
    IdsOfOne(Exchange(id)[1]);
    assert b in Exchange(id)[1].content;
  }

  lemma ExchangeIds(id: string)
    ensures UseIds(Exchange(id)) == {id} && ResultIds(Exchange(id)) == {id}
  {
    CallIds(id);
    AnswerIds(id);
    assert Exchange(id) == [Exchange(id)[0]] + [Exchange(id)[1]];
    IdsOfConcat([Exchange(id)[0]], [Exchange(id)[1]]);
  }

  /** An ordinary conversation: after every message, every result so far has its call before it. */
  lemma TalkIsOrdinary(id: string, i: nat)
    requires i <= |Talk(id)|
    ensures SelfContained(Talk(id)[..i])
  {
    PlainHasNoIds(3);
    if i <= 3 {
      PlainHasNoIds(i);
      assert Talk(id)[..i] == Plain(i);
    } else if i == 4 {
      CallIds(id);
      assert Talk(id)[..i] == Plain(3) + [Exchange(id)[0]];
      IdsOfConcat(Plain(3), [Exchange(id)[0]]);
    } else {
      ExchangeIds(id);
      PlainHasNoIds(i - 5);
      assert Talk(id)[..i] == Plain(3) + Exchange(id) + Plain(i - 5);
      IdsOfConcat(Plain(3), Exchange(id));
      IdsOfConcat(Plain(3) + Exchange(id), Plain(i - 5));
    }
  }

  lemma TalkFromTwo(id: string)
    ensures SelfContained(Talk(id)[2..])
  {
    PlainHasNoIds(1);
    PlainHasNoIds(7);
    ExchangeIds(id);
    assert Talk(id)[2..] == Plain(1) + Exchange(id) + Plain(7);
    IdsOfConcat(Plain(1), Exchange(id));
    IdsOfConcat(Plain(1) + Exchange(id), Plain(7));
  }

  lemma TalkFromFour(id: string)
    ensures !SelfContained(Talk(id)[4..])
  {
    PlainHasNoIds(7);
    AnswerIds(id);
    assert Talk(id)[4..] == [Exchange(id)[1]] + Plain(7);
    IdsOfConcat([Exchange(id)[1]], Plain(7));
    assert id in ResultIds(Talk(id)[4..]) && id !in UseIds(Talk(id)[4..]);
  }

  /** In that conversation the request after the check and the task's success begins with a result without its call. */
  lemma TalkIsOrphaned(env: Env, id: string, p: Provider) returns (y: Session)
    requires Fits(env, Talk(id), DEFAULT_TOKEN_BUDGET, 2)
    requires GenerateArtifact(env, p, Talk(id)[..2], None).Some?
    ensures y == Run(env, Fresh(), CheckedRun(env, Talk(id), Some(NEARLY_FULL), [], p))
    ensures !SelfContained(ApiView(env, y.st, y.history))
  {
    TalkFromTwo(id);
    TalkFromFour(id);
    var m;
    y, m := OverlapOrphansResult(env, Talk(id), p);
  }

  // ---------- stale totals ----------

  /** One message announced without its content, then one with it: the total misses the first. */
  lemma StaleTotalIsTrusted(env: Env, m: Message, m': Message)
    ensures TotalExact(env, Notify(env, NotifyUnseen(NewState()), m'), [m, m']) <==> env.messageChars(m) == 0
  {
    assert [m] + [m'] == [m, m'] && [m][0..] == [m] && [m][1..] == [];
    NotifyExactIff(env, NotifyUnseen(NewState()), [m], m');
  }
}
