/** When requests keep tool results together with their calls, over whole runs. */
module CompactionPairs {
  import opened Options
  import opened Helpers
  import opened Messages
  import opened Compaction
  import opened CompactionRuns

  /** A history, how many messages count as compacted, and how many more will when a pending task is applied. */
  datatype Front = Front(all: seq<Message>, from: nat, more: nat)

  function FrontOf(x: Session): Front {
    Front(x.history, x.st.compactedCount, if x.st.pending.Some? then x.st.pendingCutoff else 0)
  }

  /** The part a request shows is self-contained. */
  predicate Paired(f: Front) { SelfContained(Shown(f.all, f.from)) }

  /** And it will be once a pending task is applied. */
  predicate Safe(f: Front) { Paired(f) && SelfContained(Shown(f.all, f.from + f.more)) }

  /** The summary message makes no call and answers none. */
  lemma RequestPairedIff(env: Env, s: State, all: seq<Message>)
    ensures SelfContained(ApiView(env, s, all)) <==> SelfContained(Shown(all, s.compactedCount))
  {
    assert Active(s, all) == Shown(all, s.compactedCount);
    if s.summary.Some? {
      SummaryFirst(SummaryMessage(env, s.summary.value), Active(s, all));
    } else {
      assert [] + Active(s, all) == Active(s, all);
    }
  }

  lemma SummaryFirst(m: Message, rest: seq<Message>)
    requires BlockUses(m.content) == {} && BlockResults(m.content) == {}
    ensures SelfContained([m] + rest) <==> SelfContained(rest)
  {
    IdsOfOne(m);
    IdsOfConcat([m], rest);
  }

  /** Every result in `m` answers a call that is shown when `from` messages count as compacted. */
  predicate Reaches(all: seq<Message>, from: nat, m: Message) {
    from == |all| + 1 || BlockResults(m.content) <= UseIds(Shown(all, from)) + BlockUses(m.content)
  }

  lemma ShownSnocIff(all: seq<Message>, from: nat, m: Message)
    requires SelfContained(Shown(all, from))
    ensures SelfContained(Shown(all + [m], from)) <==> Reaches(all, from, m)
  {
    if from == |all| + 1 {
      assert Shown(all + [m], from) == [];
    } else {
      assert Shown(all + [m], from) == Shown(all, from) + [m];
      SnocIff(Shown(all, from), m);
    }
  }

  lemma SnocIff(kept: seq<Message>, m: Message)
    requires SelfContained(kept)
    ensures SelfContained(kept + [m]) <==> BlockResults(m.content) <= UseIds(kept) + BlockUses(m.content)
  {
    assert [] + kept == kept;
    SnocSelfContained([], kept, m);
  }

  /** The part that stays behind when `r` messages of those shown go. */
  lemma ShownBehind(all: seq<Message>, from: nat, r: nat)
    requires 0 < r <= |Shown(all, from)|
    ensures Shown(all, from + r) == if from <= |all| then Shown(all, from)[r..] else Shown(all, from)
  {
  }

  lemma CutBehindPaired(all: seq<Message>, from: nat, r: nat)
    requires 0 < r <= |Shown(all, from)| && SelfContained(Shown(all, from)) && SelfContained(Shown(all, from)[r..])
    ensures SelfContained(Shown(all, from + r))
  {
    ShownBehind(all, from, r);
  }

  lemma ClippedPaired(all: seq<Message>, from: nat)
    requires SelfContained(Shown(all, from))
    ensures SelfContained(Shown(all, Min(from, |all|)))
  {
    if from > |all| {
      assert Shown(all, |all|) == [];
    }
  }

  // ---------- how changes move the front ----------

  function Moved(f: Front, c: Change, k: nat): Front {
    match c
    case Appended(m) => f.(all := f.all + [m])
    case Settings => f
    case Begun => f.(more := k)
    case CutOff(r) => f.(from := f.from + r)
    case Dropped => f.(more := 0)
    case Applied(_, _) => Front(f.all, f.from + f.more, 0)
    case Degrading => f
    case Reopened => Front(f.all, Min(f.from, |f.all|), 0)
    case Replaced(count) => Front(f.all, Min(count, |f.all|), 0)
  }

  /** Where a cut or a new task would cut, what stays behind is self-contained. */
  predicate CutsSafely(f: Front, c: Change, k: nat) {
    && (c.CutOff? ==> 0 < c.count <= |Shown(f.all, f.from)| && SelfContained(Shown(f.all, f.from)[c.count..]))
    && (c.Begun? ==> f.more == 0 && 0 < k <= |Shown(f.all, f.from)| && SelfContained(Shown(f.all, f.from)[k..]))
  }

  /** Nothing counts as compacted without a summary. */
  ghost predicate CountHasSummary(x: Session) { x.st.summary.None? ==> x.st.compactedCount == 0 }

  lemma ChangeMoves(env: Env, x: Session, c: Change, y: Session)
    requires CountHasSummary(x) && Changes(env, x, c, y)
    ensures FrontOf(y) == Moved(FrontOf(x), c, y.st.pendingCutoff) && CountHasSummary(y)
    ensures CutsSafely(FrontOf(x), c, y.st.pendingCutoff)
  {
    assert Active(x.st, x.history) == Shown(x.history, x.st.compactedCount);
  }

  /** What an operation makes of the front. */
  lemma NextMoves(env: Env, x: Session, op: Op) returns (y: Session, c: Change, f: Front)
    requires CountHasSummary(x)
    ensures y == Next(env, x, op) && CountHasSummary(y) && Makes(env, x, op, c)
    ensures f == FrontOf(x) && FrontOf(y) == Moved(f, c, y.st.pendingCutoff) && CutsSafely(f, c, y.st.pendingCutoff)
  {
    y, c := NextChanges(env, x, op);
    ChangeMoves(env, x, c, y);
    f := FrontOf(x);
  }

  // ---------- the requests of a run ----------

  predicate MovePaired(f: Front, c: Change) {
    match c
    case Appended(m) => Reaches(f.all, f.from, m)
    case Applied(_, _) => SelfContained(Shown(f.all, f.from + f.more))
    case Replaced(count) => SelfContained(Shown(f.all, Min(count, |f.all|)))
    case _ => true
  }

  lemma AppendPairedIff(f: Front, c: Change, k: nat)
    requires Paired(f) && c.Appended?
    ensures Paired(Moved(f, c, k)) <==> MovePaired(f, c)
  {
    ShownSnocIff(f.all, f.from, c.message);
  }

  lemma CutPaired(f: Front, c: Change, k: nat)
    requires Paired(f) && c.CutOff? && CutsSafely(f, c, k)
    ensures Paired(Moved(f, c, k)) <==> MovePaired(f, c)
  {
    CutBehindPaired(f.all, f.from, c.count);
  }

  lemma MovePairedIff(f: Front, c: Change, k: nat)
    requires Paired(f) && CutsSafely(f, c, k)
    ensures Paired(Moved(f, c, k)) <==> MovePaired(f, c)
  {
    if c.Appended? {
      AppendPairedIff(f, c, k);
    } else if c.CutOff? {
      CutPaired(f, c, k);
    } else if c.Reopened? {
      ClippedPaired(f.all, f.from);
    }
  }

  /** What the provider leaves uncompacted is self-contained. */
  predicate LeavesPairs(x: Session, count: nat) { SelfContained(Shown(x.history, Min(count, |x.history|))) }

  /** What an operation must see to for the next request to be paired. */
  predicate PairedStep(env: Env, x: Session, op: Op) {
    var f := FrontOf(x);
    match op
    case Append(m) => Reaches(f.all, f.from, m)
    case Poll(outcome) => Applies(env, x, outcome) ==> SelfContained(Shown(f.all, f.from + f.more))
    case Native(_, count, _) => LeavesPairs(x, count)
    case _ => true
  }

  lemma NextPairedIff(env: Env, x: Session, op: Op) returns (y: Session)
    requires Paired(FrontOf(x)) && CountHasSummary(x)
    ensures y == Next(env, x, op) && CountHasSummary(y)
    ensures Paired(FrontOf(y)) <==> PairedStep(env, x, op)
  {
    var c, f;
    y, c, f := NextMoves(env, x, op);
    MovePairedIff(f, c, y.st.pendingCutoff);
    StepIsMove(env, x, op, c);
  }

  lemma StepIsMove(env: Env, x: Session, op: Op, c: Change)
    requires Makes(env, x, op, c)
    ensures PairedStep(env, x, op) <==> MovePaired(FrontOf(x), c)
  {
    if op.Poll? && Applies(env, x, op.outcome) {
      assert c.Applied?;
    } else if op.Append? || op.Native? {
    } else {
      assert MovePaired(FrontOf(x), c);
    }
  }

  /** Every request that could be made in the run is self-contained. */
  predicate RequestsPaired(env: Env, x: Session, ops: seq<Op>)
    decreases |ops|
  {
    && SelfContained(ApiView(env, x.st, x.history))
    && (ops != [] ==> RequestsPaired(env, Next(env, x, ops[0]), ops[1..]))
  }

  predicate PairedSteps(env: Env, x: Session, ops: seq<Op>)
    decreases |ops|
  {
    ops != [] ==> PairedStep(env, x, ops[0]) && PairedSteps(env, Next(env, x, ops[0]), ops[1..])
  }

  lemma {:induction false} RunPairedIff(env: Env, x: Session, ops: seq<Op>)
    requires Paired(FrontOf(x)) && CountHasSummary(x)
    ensures RequestsPaired(env, x, ops) <==> PairedSteps(env, x, ops)
    decreases |ops|
  {
    RequestPairedIff(env, x.st, x.history);
    if ops != [] {
      var y := NextPairedIff(env, x, ops[0]);
      if Paired(FrontOf(y)) {
        RunPairedIff(env, y, ops[1..]);
      } else {
        RequestPairedIff(env, y.st, y.history);
      }
    }
  }

  lemma FreshSafe()
    ensures Safe(FrontOf(Fresh())) && CountHasSummary(Fresh())
  {
    assert Shown([], 0) == [];
  }

  /**
   * Over all runs, overlaps included: no request carries a tool result without its call if and only if every
   * appended result answers a call still shown, no task that succeeds moves the front between a call and its
   * result, and neither does the provider's own compaction. Emergency cuts and starts never do.
   */
  lemma RequestsPairedIff(env: Env, ops: seq<Op>)
    ensures RequestsPaired(env, Fresh(), ops) <==> PairedSteps(env, Fresh(), ops)
  {
    FreshSafe();
    RunPairedIff(env, Fresh(), ops);
  }

  // ---------- whatever pending tasks return ----------

  /** Safe is: paired now, and paired after polling if a pending task succeeds. */
  lemma SafeMeans(env: Env, x: Session, p: Provider) returns (y: Session)
    requires Applies(env, x, Finished(p)) && CountHasSummary(x)
    ensures y == Next(env, x, Poll(Finished(p)))
    ensures Safe(FrontOf(x)) <==> Paired(FrontOf(x)) && Paired(FrontOf(y))
  {
    var c, f;
    y, c, f := NextMoves(env, x, Poll(Finished(p)));
  }

  /** After a cut of that many messages, a pending task would still leave a self-contained part. */
  predicate KeepsBehind(f: Front, cut: Option<nat>) {
    cut.Some? ==> SelfContained(Shown(f.all, f.from + cut.value + f.more))
  }

  predicate MoveSafe(f: Front, c: Change) {
    match c
    case Appended(m) => Reaches(f.all, f.from, m) && Reaches(f.all, f.from + f.more, m)
    case CutOff(r) => KeepsBehind(f, Some(r))
    case Replaced(count) => SelfContained(Shown(f.all, Min(count, |f.all|)))
    case _ => true
  }

  lemma BegunSafe(f: Front, k: nat)
    requires Paired(f) && f.more == 0 && 0 < k <= |Shown(f.all, f.from)| && SelfContained(Shown(f.all, f.from)[k..])
    ensures Safe(f.(more := k))
  {
    CutBehindPaired(f.all, f.from, k);
  }

  lemma CutSafeIff(f: Front, r: nat)
    requires Paired(f) && 0 < r <= |Shown(f.all, f.from)| && SelfContained(Shown(f.all, f.from)[r..])
    ensures Safe(f.(from := f.from + r)) <==> KeepsBehind(f, Some(r))
  {
    CutBehindPaired(f.all, f.from, r);
  }

  lemma AppendSafeIff(f: Front, m: Message)
    requires Safe(f)
    ensures Safe(f.(all := f.all + [m])) <==> Reaches(f.all, f.from, m) && Reaches(f.all, f.from + f.more, m)
  {
    ShownSnocIff(f.all, f.from, m);
    ShownSnocIff(f.all, f.from + f.more, m);
  }

  lemma AloneSafeIff(f: Front)
    requires f.more == 0
    ensures Safe(f) <==> Paired(f)
  {
  }

  lemma OtherSafeIff(f: Front, c: Change, k: nat)
    requires Safe(f) && !c.Appended? && !c.CutOff? && !c.Begun?
    ensures Safe(Moved(f, c, k)) <==> MoveSafe(f, c)
  {
    if !c.Settings? && !c.Degrading? {
      AloneSafeIff(Moved(f, c, k));
      ClippedPaired(f.all, f.from);
    }
  }

  lemma AppendMoveIff(f: Front, c: Change, k: nat)
    requires Safe(f) && c.Appended?
    ensures Safe(Moved(f, c, k)) <==> MoveSafe(f, c)
  {
    AppendSafeIff(f, c.message);
  }

  lemma CutMoveIff(f: Front, r: nat, k: nat, f': Front)
    requires Paired(f) && CutsSafely(f, CutOff(r), k) && f' == Moved(f, CutOff(r), k)
    ensures Safe(f') <==> MoveSafe(f, CutOff(r))
  {
    CutSafeIff(f, r);
    assert f' == f.(from := f.from + r);
  }

  lemma BegunMoveIff(f: Front, c: Change, k: nat)
    requires Paired(f) && c.Begun? && CutsSafely(f, c, k)
    ensures Safe(Moved(f, c, k)) <==> MoveSafe(f, c)
  {
    BegunSafe(f, k);
  }

  lemma MoveSafeIff(f: Front, c: Change, k: nat)
    requires Safe(f) && CutsSafely(f, c, k)
    ensures Safe(Moved(f, c, k)) <==> MoveSafe(f, c)
  {
    if c.Appended? {
      AppendMoveIff(f, c, k);
    } else if c.CutOff? {
      CutMoveIff(f, c.count, k, Moved(f, c, k));
    } else if c.Begun? {
      BegunMoveIff(f, c, k);
    } else {
      OtherSafeIff(f, c, k);
    }
  }

  /** What an operation must see to for requests to stay paired whatever pending tasks return. */
  predicate SafeStep(env: Env, x: Session, op: Op) {
    var f := FrontOf(x);
    match op
    case Append(m) => Reaches(f.all, f.from, m) && Reaches(f.all, f.from + f.more, m)
    case Hard => KeepsBehind(f, HardCompact(env, x.st, x.history).1)
    case Native(_, count, _) => LeavesPairs(x, count)
    case _ => true
  }

  lemma CutIsMove(f: Front, cut: Option<nat>, c: Change)
    requires !c.Appended? && !c.Replaced? && if cut.Some? then c == CutOff(cut.value) else !c.CutOff?
    ensures KeepsBehind(f, cut) <==> MoveSafe(f, c)
  {
  }

  lemma SafeStepIsMove(env: Env, x: Session, op: Op, c: Change)
    requires Makes(env, x, op, c)
    ensures SafeStep(env, x, op) <==> MoveSafe(FrontOf(x), c)
  {
    if op.Hard? {
      CutIsMove(FrontOf(x), HardCompact(env, x.st, x.history).1, c);
    }
  }

  lemma NextSafeIff(env: Env, x: Session, op: Op) returns (y: Session)
    requires Safe(FrontOf(x)) && CountHasSummary(x)
    ensures y == Next(env, x, op) && CountHasSummary(y)
    ensures Safe(FrontOf(y)) <==> SafeStep(env, x, op)
  {
    var c, f;
    y, c, f := NextMoves(env, x, op);
    MoveSafeIff(f, c, y.st.pendingCutoff);
    SafeStepIsMove(env, x, op, c);
  }

  /** An emergency cut with nothing pending is always safe; only one under a task need not be. */
  lemma CutAloneIsSafe(env: Env, x: Session)
    requires x.st.pending.None? && Paired(FrontOf(x))
    ensures SafeStep(env, x, Hard)
  {
    var y, c := HardChanges(x, env);
    if c.CutOff? {
      CutLeavesPairs(env, x, c.count, y);
    }
    assert KeepsBehind(FrontOf(x), HardCompact(env, x.st, x.history).1);
  }

  lemma CutLeavesPairs(env: Env, x: Session, r: nat, y: Session)
    requires x.st.pending.None? && Paired(FrontOf(x)) && IsCut(env, x, r, y)
    ensures KeepsBehind(FrontOf(x), Some(r))
  {
    ActiveIsShown(x);
    CutBehindPaired(x.history, x.st.compactedCount, r);
  }

  lemma ActiveIsShown(x: Session)
    ensures Active(x.st, x.history) == Shown(x.history, x.st.compactedCount)
  {
  }

  /** Every state of the run is safe. */
  predicate AlwaysSafe(env: Env, x: Session, ops: seq<Op>)
    decreases |ops|
  {
    Safe(FrontOf(x)) && (ops != [] ==> AlwaysSafe(env, Next(env, x, ops[0]), ops[1..]))
  }

  predicate SafeSteps(env: Env, x: Session, ops: seq<Op>)
    decreases |ops|
  {
    ops != [] ==> SafeStep(env, x, ops[0]) && SafeSteps(env, Next(env, x, ops[0]), ops[1..])
  }

  /**
   * Pairs stay together whatever pending tasks return if and only if appended results answer calls shown now and
   * after a pending task, no emergency cut under a pending task moves that task's front between a call and its
   * result, and the provider's own compaction does not either.
   */
  lemma {:induction false} RunSafeIff(env: Env, x: Session, ops: seq<Op>)
    requires Safe(FrontOf(x)) && CountHasSummary(x)
    ensures AlwaysSafe(env, x, ops) <==> SafeSteps(env, x, ops)
    decreases |ops|
  {
    if ops != [] {
      var y := NextSafeIff(env, x, ops[0]);
      if Safe(FrontOf(y)) {
        RunSafeIff(env, y, ops[1..]);
      }
    }
  }

  lemma {:induction false} SafeMakesPaired(env: Env, x: Session, ops: seq<Op>)
    requires AlwaysSafe(env, x, ops)
    ensures RequestsPaired(env, x, ops)
    decreases |ops|
  {
    RequestPairedIff(env, x.st, x.history);
    if ops != [] {
      SafeMakesPaired(env, Next(env, x, ops[0]), ops[1..]);
    }
  }

  /** Hence no request of such a run from an empty session carries a tool result without its call. */
  lemma RequestsKeepPairs(env: Env, ops: seq<Op>)
    requires SafeSteps(env, Fresh(), ops)
    ensures RequestsPaired(env, Fresh(), ops)
  {
    FreshSafe();
    RunSafeIff(env, Fresh(), ops);
    SafeMakesPaired(env, Fresh(), ops);
  }
}
