/** When the summary and the active part together are exactly the history, over whole runs. */
module CompactionCoverage {
  import opened Options
  import opened Messages
  import opened Compaction
  import opened CompactionRuns

  /** The summary is the fold over slices that partition exactly the compacted front of the history. */
  ghost predicate Covered(env: Env, x: Session) {
    && x.st.compactedCount <= |x.history|
    && Slices(x.prov) == x.history[..x.st.compactedCount]
    && x.st.summary == Fold(env, x.prov)
    && (x.st.summary.None? ==> x.st.compactedCount == 0)
  }

  /**
   * A pending task summarises the messages right after those that were covered when it started; since then `d`
   * messages have been cut away.
   */
  ghost predicate TaskAligned(env: Env, x: Session, d: nat) {
    match x.st.pending
    case None => x.st.pendingCutoff == 0 && d == 0
    case Some(t) =>
      && d <= x.st.compactedCount
      && var start := x.st.compactedCount - d;
      && start + x.st.pendingCutoff <= |x.history|
      && 0 < x.st.pendingCutoff == |t.slice|
      && t.slice == x.history[start..start + x.st.pendingCutoff]
      && Slices(x.pendingProv) == x.history[..start]
      && t.existing == Fold(env, x.pendingProv)
  }

  ghost predicate Inv(env: Env, x: Session, d: nat) {
    Covered(env, x) && TaskAligned(env, x, d) && TotalMaintained(env, x)
  }

  /** Messages cut away since the pending task started, after one more step. */
  function NextCut(x: Session, d: nat, y: Session): nat {
    if y.st.pending.None? then 0 else d + Minus(y.st.compactedCount, x.st.compactedCount)
  }

  /** A task from before a cut is applied. */
  predicate StaleSuccess(env: Env, x: Session, d: nat, op: Op) {
    d > 0 && op.Poll? && Applies(env, x, op.outcome)
  }

  // ---------- one change ----------

  lemma GrowthKeepsAligned(env: Env, x: Session, d: nat, y: Session)
    requires TaskAligned(env, x, d) && x.history <= y.history && SamePending(x, y)
    requires y.st.compactedCount == x.st.compactedCount <= |x.history|
    ensures TaskAligned(env, y, d)
  {
    if x.st.pending.Some? {
      var start := x.st.compactedCount - d;
      var end := start + x.st.pendingCutoff;
      assert y.history[start..end] == x.history[start..end];
      assert y.history[..start] == x.history[..start];
    }
  }

  lemma GrowthKeepsCovered(env: Env, x: Session, y: Session)
    requires Covered(env, x) && x.history <= y.history && y.prov == x.prov
    requires y.st.compactedCount == x.st.compactedCount && y.st.summary == x.st.summary
    ensures Covered(env, y)
  {
    assert y.history[..x.st.compactedCount] == x.history[..x.st.compactedCount];
  }

  lemma AppendKeepsTotal(env: Env, x: Session, m: Message)
    requires TotalMaintained(env, x) && x.st.compactedCount <= |x.history|
    ensures TotalMaintained(env, AfterAppend(env, x, m))
  {
    CharsConcat(env, Active(x.st, x.history), [m]);
    assert (x.history + [m])[x.st.compactedCount..] == Active(x.st, x.history) + [m];
    assert Chars(env, [m]) == env.messageChars(m) by { assert [m][1..] == []; }
  }

  lemma BeginKeepsAligned(env: Env, x: Session, y: Session)
    requires Covered(env, x) && Changes(env, x, Begun, y)
    ensures TaskAligned(env, y, 0)
  {
    var c, k := x.st.compactedCount, y.st.pendingCutoff;
    assert x.history[c..][..k] == x.history[c..c + k];
  }

  lemma CutKeepsCovered(env: Env, x: Session, r: nat, y: Session)
    requires Covered(env, x) && IsCut(env, x, r, y)
    ensures Covered(env, y)
  {
    FoldSnoc(env, x.prov, CutStep(env, x, r));
    FrontGrows(x.history, x.st.compactedCount, y.st.compactedCount);
    ActiveFront(x, r);
  }

  lemma ActiveFront(x: Session, r: nat)
    requires x.st.compactedCount <= |x.history| && r <= |Active(x.st, x.history)|
    ensures Active(x.st, x.history)[..r] == x.history[x.st.compactedCount..x.st.compactedCount + r]
  {
  }

  lemma CutKeepsTotal(env: Env, x: Session, r: nat, y: Session)
    requires x.st.compactedCount <= |x.history| && TotalMaintained(env, x) && IsCut(env, x, r, y)
    ensures TotalMaintained(env, y)
  {
    assert x.history[x.st.compactedCount + r..] == Active(x.st, x.history)[r..];
  }

  /** A cut leaves a pending task where it was, `r` messages further behind. */
  lemma CutKeepsAligned(env: Env, x: Session, d: nat, r: nat, y: Session)
    requires TaskAligned(env, x, d) && IsCut(env, x, r, y)
    ensures TaskAligned(env, y, if x.st.pending.None? then 0 else d + r)
  {
  }

  /** The slices and the summary of a task that succeeds, by what it was started from. */
  lemma TaskIsFold(env: Env, x: Session, d: nat, p: Provider, a: Artifact, y: Session)
    requires TaskAligned(env, x, d) && IsApplied(env, x, p, a, y)
    ensures y.st.compactedCount - d <= |x.history|
    ensures Slices(y.prov) == x.history[..y.st.compactedCount - d]
    ensures y.st.summary == Fold(env, y.prov)
  {
    FoldSnoc(env, x.pendingProv, Background(p, x.st.pending.value.slice));
    FrontGrows(x.history, x.st.compactedCount - d, y.st.compactedCount - d);
  }

  lemma FrontGrows<T>(s: seq<T>, i: nat, j: nat)
    requires i <= j <= |s|
    ensures s[..j] == s[..i] + s[i..j]
  {
  }

  lemma DegradeKeepsCovered(env: Env, x: Session, y: Session)
    requires Covered(env, x) && Changes(env, x, Degrading, y)
    ensures Covered(env, y)
  {
    FoldSnoc(env, x.prov, Degraded);
  }

  lemma SameKeepsAligned(env: Env, x: Session, d: nat, y: Session)
    requires TaskAligned(env, x, d) && y.history == x.history
    requires y.st.compactedCount == x.st.compactedCount && SamePending(x, y)
    ensures TaskAligned(env, y, d)
  {
  }

  /** A summary made by the provider covers what it says, from any state and whatever was pending. */
  lemma ReplacedIsCovered(env: Env, x: Session, count: nat, y: Session)
    requires Changes(env, x, Replaced(count), y)
    ensures Covered(env, y)
  {
    var step := Provided(y.st.summary.value, x.history[..y.st.compactedCount]);
    FoldSnoc(env, [], step);
    assert [] + [step] == y.prov && [] + StepSlice(step) == StepSlice(step);
  }

  lemma ChangeKeepsCovered(env: Env, x: Session, d: nat, c: Change, y: Session)
    requires Inv(env, x, d) && Changes(env, x, c, y) && !(d > 0 && c.Applied?)
    ensures Covered(env, y)
  {
    match c
    case Appended(m) => GrowthKeepsCovered(env, x, y);
    case CutOff(r) => CutKeepsCovered(env, x, r, y);
    case Applied(p, a) => TaskIsFold(env, x, 0, p, a, y);
    case Degrading => DegradeKeepsCovered(env, x, y);
    case Replaced(count) => ReplacedIsCovered(env, x, count, y);
    case _ => SameKeepsCovered(env, x, y);
  }

  lemma SameKeepsCovered(env: Env, x: Session, y: Session)
    requires Covered(env, x) && y.history == x.history && y.prov == x.prov && y.st.summary == x.st.summary
    requires y.st.compactedCount == x.st.compactedCount
    ensures Covered(env, y)
  {
  }

  /** How far a task is behind after a change. */
  lemma CutAfter(env: Env, x: Session, d: nat, c: Change, y: Session)
    requires TaskAligned(env, x, d) && Changes(env, x, c, y)
    ensures c.Appended? || c.Settings? || c.Begun? || c.Degrading? ==> NextCut(x, d, y) == d
    ensures c.Begun? ==> d == 0
    ensures c.CutOff? ==> NextCut(x, d, y) == if x.st.pending.None? then 0 else d + c.count
    ensures c.Dropped? || c.Applied? || c.Reopened? || c.Replaced? ==> NextCut(x, d, y) == 0 && NothingPending(y)
  {
  }

  lemma NothingIsAligned(env: Env, y: Session)
    requires NothingPending(y)
    ensures TaskAligned(env, y, 0)
  {
  }

  lemma SameCutAligned(env: Env, x: Session, d: nat, c: Change, y: Session)
    requires Covered(env, x) && TaskAligned(env, x, d) && Changes(env, x, c, y)
    requires c.Appended? || c.Settings? || c.Degrading?
    ensures TaskAligned(env, y, d)
  {
    if c.Appended? {
      GrowthKeepsAligned(env, x, d, y);
    } else {
      SameKeepsAligned(env, x, d, y);
    }
  }

  lemma OtherChangeAligned(env: Env, x: Session, d: nat, c: Change, y: Session, e: nat)
    requires Covered(env, x) && TaskAligned(env, x, d) && Changes(env, x, c, y)
    requires c.Begun? || c.CutOff? || NothingPending(y)
    requires e == if c.CutOff? && x.st.pending.Some? then d + c.count else 0
    ensures TaskAligned(env, y, e)
  {
    if c.Begun? {
      BeginKeepsAligned(env, x, y);
    } else if c.CutOff? {
      CutKeepsAligned(env, x, d, c.count, y);
    } else {
      NothingIsAligned(env, y);
    }
  }

  lemma ChangeKeepsAligned(env: Env, x: Session, d: nat, c: Change, y: Session)
    requires Covered(env, x) && TaskAligned(env, x, d) && Changes(env, x, c, y)
    ensures TaskAligned(env, y, NextCut(x, d, y))
  {
    CutAfter(env, x, d, c, y);
    if c.Appended? || c.Settings? || c.Degrading? {
      SameCutAligned(env, x, d, c, y);
    } else {
      OtherChangeAligned(env, x, d, c, y, NextCut(x, d, y));
    }
  }

  lemma ChangeKeepsTotal(env: Env, x: Session, d: nat, c: Change, y: Session)
    requires Inv(env, x, d) && Changes(env, x, c, y) && !(d > 0 && c.Applied?)
    ensures TotalMaintained(env, y)
  {
    match c
    case Appended(m) => AppendKeepsTotal(env, x, m);
    case CutOff(r) => CutKeepsTotal(env, x, r, y);
    case _ =>
  }

  /** Coverage, the task's place and the exact total survive every step but the success of a task from before a cut. */
  lemma NextKeepsInv(env: Env, x: Session, d: nat, op: Op) returns (y: Session)
    requires Inv(env, x, d) && !StaleSuccess(env, x, d, op)
    ensures y == Next(env, x, op) && Inv(env, y, NextCut(x, d, y))
  {
    var c;
    y, c := NextChanges(env, x, op);
    ChangeKeepsCovered(env, x, d, c, y);
    ChangeKeepsAligned(env, x, d, c, y);
    ChangeKeepsTotal(env, x, d, c, y);
  }

  // ---------- the one way to lose coverage ----------

  /**
   * The summary of `y` is of exactly the first `end` messages, but the manager counts `d` more as compacted.
   * If there are that many messages, those `d` are in neither the summary nor the request; if there are not,
   * the request repeats the whole history behind the summary.
   */
  ghost predicate Miscounts(env: Env, y: Session, end: nat, d: nat, all: seq<Message>) {
    && end <= |all| && Slices(y.prov) == all[..end] && y.st.compactedCount == end + d
    && y.st.summary.Some? && y.st.summary == Fold(env, y.prov)
    && ApiView(env, y.st, all) == [SummaryMessage(env, y.st.summary.value)] + Shown(all, end + d)
  }

  lemma FewerSlicesNotCovered(env: Env, y: Session)
    requires |Slices(y.prov)| != y.st.compactedCount
    ensures !Covered(env, y)
  {
  }

  /** What every later request shows after a task from before a cut of `d` messages succeeds. */
  lemma StaleMiscounts(env: Env, x: Session, d: nat, p: Provider, all: seq<Message>) returns (y: Session)
    requires TaskAligned(env, x, d) && Applies(env, x, Finished(p)) && x.history <= all
    ensures y == Next(env, x, Poll(Finished(p))) && y.history == x.history
    ensures Miscounts(env, y, x.st.compactedCount - d + x.st.pendingCutoff, d, all)
  {
    var c;
    y, c := NextChanges(env, x, Poll(Finished(p)));
    TaskIsFold(env, x, d, c.provider, c.artifact, y);
    MiscountsLater(env, y, y.st.compactedCount - d, d, all);
  }

  lemma MiscountsLater(env: Env, y: Session, end: nat, d: nat, all: seq<Message>)
    requires end <= |y.history| && y.history <= all && Slices(y.prov) == y.history[..end]
    requires y.st.compactedCount == end + d && y.st.summary.Some? && y.st.summary == Fold(env, y.prov)
    ensures Miscounts(env, y, end, d, all)
  {
    assert all[..end] == y.history[..end];
  }

  lemma StaleIsNotCovered(env: Env, x: Session, d: nat, op: Op) returns (y: Session)
    requires TaskAligned(env, x, d) && StaleSuccess(env, x, d, op)
    ensures y == Next(env, x, op) && !Covered(env, y)
  {
    y := StaleMiscounts(env, x, d, op.outcome.provider, x.history);
    FewerSlicesNotCovered(env, y);
  }

  /** Every state of the run is covered. */
  ghost predicate AlwaysCovered(env: Env, x: Session, ops: seq<Op>)
    decreases |ops|
  {
    Covered(env, x) && (ops != [] ==> AlwaysCovered(env, Next(env, x, ops[0]), ops[1..]))
  }

  /** No task from before a cut ever succeeds in the run; `d` messages have been cut under a task pending now. */
  predicate NoStaleSuccess(env: Env, x: Session, ops: seq<Op>, d: nat)
    decreases |ops|
  {
    ops != [] ==>
      var y := Next(env, x, ops[0]);
      !StaleSuccess(env, x, d, ops[0]) && NoStaleSuccess(env, y, ops[1..], NextCut(x, d, y))
  }

  lemma {:induction false} RunCoveredIff(env: Env, x: Session, ops: seq<Op>, d: nat)
    requires Inv(env, x, d)
    ensures AlwaysCovered(env, x, ops) <==> NoStaleSuccess(env, x, ops, d)
    decreases |ops|
  {
    if ops != [] {
      if StaleSuccess(env, x, d, ops[0]) {
        var y := StaleIsNotCovered(env, x, d, ops[0]);
      } else {
        var y := NextKeepsInv(env, x, d, ops[0]);
        RunCoveredIff(env, y, ops[1..], NextCut(x, d, y));
      }
    }
  }

  lemma FreshInv(env: Env)
    ensures Inv(env, Fresh(), 0)
  {
  }

  /**
   * Over all runs: the history is covered in every state if and only if no task that was pending while an
   * emergency cut went through ever succeeds.
   */
  lemma AlwaysCoveredIff(env: Env, ops: seq<Op>)
    ensures AlwaysCovered(env, Fresh(), ops) <==> NoStaleSuccess(env, Fresh(), ops, 0)
  {
    FreshInv(env);
    RunCoveredIff(env, Fresh(), ops, 0);
  }

  /** Coverage and the exact char total hold after every run without such a success. */
  lemma {:induction false} RunKeepsInv(env: Env, x: Session, ops: seq<Op>, d: nat) returns (y: Session, e: nat)
    requires Inv(env, x, d) && NoStaleSuccess(env, x, ops, d)
    ensures y == Run(env, x, ops) && Inv(env, y, e)
    decreases |ops|
  {
    if ops == [] {
      y, e := x, d;
    } else {
      var z := NextKeepsInv(env, x, d, ops[0]);
      y, e := RunKeepsInv(env, z, ops[1..], NextCut(x, d, z));
    }
  }

  lemma CoveredRequest(env: Env, x: Session, d: nat)
    requires Inv(env, x, d)
    ensures x.st.summary == Fold(env, x.prov)
    ensures Slices(x.prov) + Active(x.st, x.history) == x.history
    ensures ApiView(env, x.st, x.history) ==
      (if x.st.summary.None? then x.history
       else [SummaryMessage(env, x.st.summary.value)] + x.history[|Slices(x.prov)|..])
    ensures TotalExact(env, x.st, x.history)
  {
    assert x.history == x.history[..x.st.compactedCount] + x.history[x.st.compactedCount..];
  }

  /**
   * The request is the summary of exactly the front of the history followed by exactly the rest of it;
   * with no summary it is the whole history. The token estimate is that of a full rescan.
   */
  lemma RequestCoversHistory(env: Env, ops: seq<Op>)
    requires NoStaleSuccess(env, Fresh(), ops, 0)
    ensures var x := Run(env, Fresh(), ops);
      && x.st.summary == Fold(env, x.prov)
      && Slices(x.prov) + Active(x.st, x.history) == x.history
      && ApiView(env, x.st, x.history) ==
           (if x.st.summary.None? then x.history
            else [SummaryMessage(env, x.st.summary.value)] + x.history[|Slices(x.prov)|..])
      && TotalExact(env, x.st, x.history)
  {
    FreshInv(env);
    var x, d := RunKeepsInv(env, Fresh(), ops, 0);
    CoveredRequest(env, x, d);
  }

  // ---------- runs without overlap ----------

  /** An emergency cut goes through while a task is pending. */
  predicate Overlaps(env: Env, x: Session, op: Op) {
    op.Hard? && x.st.pending.Some? && HardCompact(env, x.st, x.history).1.Some?
  }

  predicate NeverOverlaps(env: Env, x: Session, ops: seq<Op>)
    decreases |ops|
  {
    ops != [] ==> !Overlaps(env, x, ops[0]) && NeverOverlaps(env, Next(env, x, ops[0]), ops[1..])
  }

  /** Under a task that stays pending the front moves by an overlapping cut only. */
  lemma OnlyOverlapsCut(env: Env, x: Session, op: Op) returns (y: Session)
    requires !Overlaps(env, x, op)
    ensures y == Next(env, x, op) && NextCut(x, 0, y) == 0
  {
    var c;
    y, c := NextChanges(env, x, op);
  }

  /** In particular no run in which cuts and tasks never overlap loses coverage. */
  lemma {:induction false} NoOverlapNoStale(env: Env, x: Session, ops: seq<Op>)
    requires NeverOverlaps(env, x, ops)
    ensures NoStaleSuccess(env, x, ops, 0)
    decreases |ops|
  {
    if ops != [] {
      var y := OnlyOverlapsCut(env, x, ops[0]);
      NoOverlapNoStale(env, y, ops[1..]);
    }
  }

  /** Rewinding the history leaves the manager alone: coverage survives exactly when the front is not reached. */
  lemma RewindCoveredIff(env: Env, x: Session, len: nat)
    requires Covered(env, x) && len <= |x.history|
    ensures Covered(env, x.(history := x.history[..len])) <==> x.st.compactedCount <= len
  {
    if x.st.compactedCount <= len {
      assert x.history[..len][..x.st.compactedCount] == x.history[..x.st.compactedCount];
    }
  }

  // ---------- restore ----------

  /** Steps that neither append a message nor are a manual start. */
  predicate Passive(ops: seq<Op>) {
    forall i :: 0 <= i < |ops| ==> !ops[i].Append? && !ops[i].Force?
  }

  /** Nothing can start on its own: restored and unchanged, or nothing to compact at all. */
  ghost predicate Quiet(x: Session) {
    x.st.pending.None? && (x.st.suppress || x.history == [])
  }

  lemma NextKeepsQuiet(env: Env, x: Session, op: Op)
    requires Quiet(x) && !op.Append? && !op.Force?
    ensures Quiet(Next(env, x, op))
  {
  }

  /** After a reload no background compaction starts in any run until a message is appended or one is forced. */
  lemma {:induction false} ReloadStaysQuiet(env: Env, x: Session, ops: seq<Op>)
    requires Quiet(x) && Passive(ops)
    ensures Quiet(Run(env, x, ops))
    decreases |ops|
  {
    if ops != [] {
      NextKeepsQuiet(env, x, ops[0]);
      ReloadStaysQuiet(env, Next(env, x, ops[0]), ops[1..]);
    }
  }

  lemma ReloadIsQuiet(env: Env, x: Session)
    ensures Quiet(AfterReload(env, x))
  {
  }

  /** In a quiet session a single step starts a task exactly when it is a manual start that is allowed. */
  lemma QuietStartsIff(env: Env, x: Session, op: Op)
    requires Quiet(x) && !op.Append?
    ensures Next(env, x, op).st.pending.Some? <==>
      op.Force? && Compaction.Force(x.st, x.history, op.usageHigh).1.Started?
  {
  }

  /** Leaving a session and coming back: what is stored and restored, then an oversized payload discarded. */
  function Comeback(): seq<Op> { [Reload, Discard] }

  /** What a request shows is the same before leaving a covered session and after coming back to it. */
  lemma ReloadKeepsRequest(env: Env, x: Session, d: nat)
    requires Inv(env, x, d)
    ensures var y := Run(env, x, Comeback()); var z := AfterDiscard(env, x);
      && ApiView(env, y.st, y.history) == ApiView(env, z.st, z.history)
      && y.st.compactedCount == x.st.compactedCount && y.st.activeChars == x.st.activeChars
      && y.prov == z.prov
  {
    RunTwo(env, x, Reload, Discard);
    var reopened := ReloadChanges(x, env);
    var y := DiscardChanges(reopened, env);
    var z := DiscardChanges(x, env);
    SameView(env, y, z);
  }

  lemma SameView(env: Env, y: Session, z: Session)
    requires y.history == z.history && y.st.compactedCount == z.st.compactedCount && y.st.summary == z.st.summary
    ensures ApiView(env, y.st, y.history) == ApiView(env, z.st, z.history)
  {
  }
}
