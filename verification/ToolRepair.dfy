/** Filling in error results for tool calls whose output never arrived. */
module ToolRepair {
  import opened Options
  import opened Helpers
  import opened Messages

  const TOOL_OUTPUT_MISSING_TEXT := "Tool output missing (session interrupted before tool execution completed)"

  /** Ids of the calls an assistant message makes, in block order. */
  function CallsIn(blocks: seq<ContentBlock>): seq<string> {
    if blocks == [] then []
    else (if blocks[0].ToolUse? then [blocks[0].id] else []) + CallsIn(blocks[1..])
  }

  function Calls(m: Message): seq<string> {
    if m.role.Assistant? then CallsIn(m.content) else []
  }

  function Results(m: Message): set<string> {
    if m.role.User? then BlockResults(m.content) else {}
  }

  /** Calls made by assistant messages. */
  function CallIds(ms: seq<Message>): set<string> {
    set m, id | m in ms && id in Calls(m) :: id
  }

  /** Calls answered by user messages. */
  function AnsweredIds(ms: seq<Message>): set<string> {
    set m, id | m in ms && id in Results(m) :: id
  }

  /** Every assistant call has a user result. */
  predicate Closed(ms: seq<Message>) { CallIds(ms) <= AnsweredIds(ms) }

  function Unanswered(ids: seq<string>, known: set<string>): seq<string> {
    if ids == [] then []
    else (if ids[0] in known then [] else [ids[0]]) + Unanswered(ids[1..], known)
  }

  /** Which calls of a message still need a result. */
  function Need(known: set<string>): Message -> seq<string> {
    m => Unanswered(Calls(m), known)
  }

  function ErrorResult(id: string): Message {
    Message(User, [ToolResult(id, TOOL_OUTPUT_MISSING_TEXT, Some(true))])
  }

  function ErrorResults(ids: seq<string>): (ms: seq<Message>)
    ensures |ms| == |ids|
  {
    if ids == [] then [] else ErrorResults(ids[..|ids| - 1]) + [ErrorResult(ids[|ids| - 1])]
  }

  /** A message followed at once by one error result per unanswered call. */
  function Answered(m: Message, need: Message -> seq<string>): seq<Message> {
    [m] + ErrorResults(need(m))
  }

  /** Each message in order, with its error results. */
  function Expand(ms: seq<Message>, need: Message -> seq<string>): (r: seq<Message>)
    ensures |r| >= |ms|
  {
    if ms == [] then [] else Answered(ms[0], need) + Expand(ms[1..], need)
  }

  datatype Tracking = Tracking(messages: seq<Message>, callIds: set<string>, resultIds: set<string>, scanIndex: nat)

  function Reset(t: Tracking): Tracking { t.(callIds := {}, resultIds := {}, scanIndex := 0) }

  /** A scan position past the end means the history was replaced: start over. */
  function Rebased(t: Tracking): (u: Tracking)
    ensures u.messages == t.messages && u.scanIndex <= |u.messages|
  {
    if t.scanIndex > |t.messages| then Reset(t) else t
  }

  function Unscanned(u: Tracking): seq<Message>
    requires u.scanIndex <= |u.messages|
  {
    u.messages[u.scanIndex..]
  }

  /** Ids known to be answered once the unscanned part has been read. */
  function Known(u: Tracking): set<string>
    requires u.scanIndex <= |u.messages|
  {
    u.resultIds + AnsweredIds(Unscanned(u))
  }

  function Repaired(u: Tracking): (ms: seq<Message>)
    requires u.scanIndex <= |u.messages|
    ensures |ms| >= |u.messages|
  {
    u.messages[..u.scanIndex] + Expand(Unscanned(u), Need(Known(u)))
  }

  /** The state once the history is `ms`, given what is known to be answered and what was called. */
  function Finish(u: Tracking, ms: seq<Message>, known: set<string>, calls: set<string>): (Tracking, nat)
    requires |ms| >= |u.messages|
  {
    (Tracking(ms, u.callIds + calls, known + calls, |ms|), |ms| - |u.messages|)
  }

  function RepairFrom(u: Tracking): (Tracking, nat)
    requires u.scanIndex <= |u.messages|
  {
    Finish(u, Repaired(u), Known(u), CallIds(Unscanned(u)))
  }

  function Repair(t: Tracking): (Tracking, nat) { RepairFrom(Rebased(t)) }

  // ---------- the flat-map and the id sets ----------

  lemma {:induction false} ExpandConcat(a: seq<Message>, b: seq<Message>, need: Message -> seq<string>)
    ensures Expand(a + b, need) == Expand(a, need) + Expand(b, need)
  {
    if a == [] {
      assert a + b == b;
    } else {
      ExpandConcat(a[1..], b, need);
      assert (a + b)[1..] == a[1..] + b;
      Associate(Answered(a[0], need), Expand(a[1..], need), Expand(b, need));
    }
  }

  lemma ExpandOne(m: Message, need: Message -> seq<string>)
    ensures Expand([m], need) == Answered(m, need)
  {
    assert [m][1..] == [];
  }

  lemma Associate<T>(a: seq<T>, b: seq<T>, c: seq<T>)
    ensures a + b + c == a + (b + c)
  {
  }

  lemma IdsConcat(a: seq<Message>, b: seq<Message>)
    ensures CallIds(a + b) == CallIds(a) + CallIds(b)
    ensures AnsweredIds(a + b) == AnsweredIds(a) + AnsweredIds(b)
  {
    assert forall m :: m in a + b <==> m in a || m in b;
    assert CallIds(a + b) == CallIds(a) + CallIds(b);
    assert AnsweredIds(a + b) == AnsweredIds(a) + AnsweredIds(b);
  }

  lemma IdsOne(m: Message)
    ensures CallIds([m]) == AsSet(Calls(m))
    ensures AnsweredIds([m]) == Results(m)
  {
    assert m in [m];
  }

  lemma {:induction false} UnansweredAre(ids: seq<string>, known: set<string>)
    ensures AsSet(Unanswered(ids, known)) == AsSet(ids) - known
    ensures forall id :: id in Unanswered(ids, known) <==> id in ids && id !in known
  {
    if ids != [] {
      UnansweredAre(ids[1..], known);
      assert forall id :: id in ids <==> id == ids[0] || id in ids[1..];
    }
  }

  lemma {:induction false} AllAnswered(ids: seq<string>, known: set<string>)
    requires forall id :: id in ids ==> id in known
    ensures Unanswered(ids, known) == []
  {
    if ids != [] {
      AllAnswered(ids[1..], known);
    }
  }

  lemma {:induction false} ErrorResultIds(ids: seq<string>)
    ensures CallIds(ErrorResults(ids)) == {}
    ensures AnsweredIds(ErrorResults(ids)) == AsSet(ids)
    ensures UseIds(ErrorResults(ids)) == {}
    ensures ResultIds(ErrorResults(ids)) == AsSet(ids)
  {
    if ids != [] {
      var front, last := ids[..|ids| - 1], ids[|ids| - 1];
      ErrorResultIds(front);
      assert ids == front + [last];
      IdsConcat(ErrorResults(front), [ErrorResult(last)]);
      IdsOfConcat(ErrorResults(front), [ErrorResult(last)]);
      IdsOne(ErrorResult(last));
      IdsOfOne(ErrorResult(last));
      var block := ToolResult(last, TOOL_OUTPUT_MISSING_TEXT, Some(true));
      assert block in ErrorResult(last).content;
      assert BlockResults(ErrorResult(last).content) == {last};
      assert BlockUses(ErrorResult(last).content) == {};
      assert AsSet(ids) == AsSet(front) + {last};
    }
  }

  lemma MinusRegroups(a: set<string>, c: set<string>, a': set<string>, c': set<string>, known: set<string>)
    ensures (a + (c - known)) + (a' + (c' - known)) == (a + a') + (c + c' - known)
  {
  }

  lemma AnsweredMessageIds(m: Message, known: set<string>)
    ensures CallIds(Answered(m, Need(known))) == CallIds([m])
    ensures AnsweredIds(Answered(m, Need(known))) == AnsweredIds([m]) + (CallIds([m]) - known)
  {
    UnansweredAre(Calls(m), known);
    ErrorResultIds(Need(known)(m));
    IdsOne(m);
    IdsConcat([m], ErrorResults(Need(known)(m)));
  }

  lemma HeadAndTail(ms: seq<Message>)
    requires ms != []
    ensures ms == [ms[0]] + ms[1..]
    ensures CallIds(ms) == CallIds([ms[0]]) + CallIds(ms[1..])
    ensures AnsweredIds(ms) == AnsweredIds([ms[0]]) + AnsweredIds(ms[1..])
  {
    assert ms == [ms[0]] + ms[1..];
    IdsConcat([ms[0]], ms[1..]);
  }

  /** Expanding answers every call, and adds no other id. */
  lemma {:induction false} ExpandIds(ms: seq<Message>, known: set<string>)
    ensures CallIds(Expand(ms, Need(known))) == CallIds(ms)
    ensures AnsweredIds(Expand(ms, Need(known))) == AnsweredIds(ms) + (CallIds(ms) - known)
  {
    if ms != [] {
      var first, rest := Answered(ms[0], Need(known)), Expand(ms[1..], Need(known));
      ExpandIds(ms[1..], known);
      AnsweredMessageIds(ms[0], known);
      HeadAndTail(ms);
      IdsConcat(first, rest);
      MinusRegroups(AnsweredIds([ms[0]]), CallIds([ms[0]]), AnsweredIds(ms[1..]), CallIds(ms[1..]), known);
    }
  }

  lemma NothingNeeded(m: Message, known: set<string>)
    requires CallIds([m]) <= known
    ensures Answered(m, Need(known)) == [m]
  {
    IdsOne(m);
    AllAnswered(Calls(m), known);
  }

  /** Nothing is inserted where every call is answered already. */
  lemma {:induction false} ExpandNothing(ms: seq<Message>, known: set<string>)
    requires CallIds(ms) <= known
    ensures Expand(ms, Need(known)) == ms
  {
    if ms != [] {
      HeadAndTail(ms);
      NothingNeeded(ms[0], known);
      ExpandNothing(ms[1..], known);
    }
  }

  /** Each message keeps its place in the order and is followed by exactly its error results. */
  lemma ExpandKeepsOrder(before: seq<Message>, m: Message, after: seq<Message>, need: Message -> seq<string>)
    ensures Expand(before + ([m] + after), need) == Expand(before, need) + (Answered(m, need) + Expand(after, need))
  {
    ExpandConcat(before, [m] + after, need);
    ExpandConcat([m], after, need);
    ExpandOne(m, need);
  }

  // ---------- what is inserted, block by block ----------

  lemma {:induction false} ErrorResultAt(ids: seq<string>, i: nat)
    requires i < |ids|
    ensures ErrorResults(ids)[i] == Message(User, [ToolResult(ids[i], TOOL_OUTPUT_MISSING_TEXT, Some(true))])
  {
    if i < |ids| - 1 {
      ErrorResultAt(ids[..|ids| - 1], i);
    }
  }

  lemma {:induction false} CallsInSnoc(blocks: seq<ContentBlock>, b: ContentBlock)
    ensures CallsIn(blocks + [b]) == CallsIn(blocks) + if b.ToolUse? then [b.id] else []
  {
    if blocks == [] {
      assert [b][1..] == [];
    } else {
      assert (blocks + [b])[1..] == blocks[1..] + [b];
      CallsInSnoc(blocks[1..], b);
      Associate(if blocks[0].ToolUse? then [blocks[0].id] else [], CallsIn(blocks[1..]),
                if b.ToolUse? then [b.id] else []);
    }
  }

  lemma {:induction false} UnansweredSnoc(ids: seq<string>, id: string, known: set<string>)
    ensures Unanswered(ids + [id], known) == Unanswered(ids, known) + if id in known then [] else [id]
  {
    if ids == [] {
      assert [id][1..] == [];
    } else {
      assert (ids + [id])[1..] == ids[1..] + [id];
      UnansweredSnoc(ids[1..], id, known);
      Associate(if ids[0] in known then [] else [ids[0]], Unanswered(ids[1..], known),
                if id in known then [] else [id]);
    }
  }

  /** Block `j` is a call without a known result. */
  predicate OpenCall(blocks: seq<ContentBlock>, known: set<string>, j: nat) {
    j < |blocks| && blocks[j].ToolUse? && blocks[j].id !in known
  }

  /** `at` lists the open calls by position, and `ids` are theirs in that order. */
  ghost predicate ListsOpenCalls(blocks: seq<ContentBlock>, known: set<string>, at: seq<nat>, ids: seq<string>) {
    && Rising(at) && |at| == |ids|
    && (forall k :: 0 <= k < |at| ==> OpenCall(blocks, known, at[k]) && blocks[at[k]].id == ids[k])
    && (forall j: nat :: OpenCall(blocks, known, j) ==> j in at)
  }

  lemma ListsSnoc(blocks: seq<ContentBlock>, b: ContentBlock, known: set<string>, at: seq<nat>, ids: seq<string>)
    returns (at': seq<nat>, ids': seq<string>)
    requires ListsOpenCalls(blocks, known, at, ids)
    ensures ids' == ids + if b.ToolUse? && b.id !in known then [b.id] else []
    ensures ListsOpenCalls(blocks + [b], known, at', ids')
  {
    at', ids' := at, ids;
    if b.ToolUse? && b.id !in known {
      at', ids' := at + [|blocks|], ids + [b.id];
    }
    forall j: nat | OpenCall(blocks + [b], known, j) ensures j in at' {
      if j < |blocks| {
        assert OpenCall(blocks, known, j);
      }
    }
  }

  /** The ids that get an error result are those of the open calls, in block order. */
  lemma {:induction false} MissingInOrder(blocks: seq<ContentBlock>, known: set<string>)
    returns (at: seq<nat>, ids: seq<string>)
    ensures ids == Unanswered(CallsIn(blocks), known) && ListsOpenCalls(blocks, known, at, ids)
  {
    if blocks == [] {
      at, ids := [], [];
    } else {
      var front, b := blocks[..|blocks| - 1], blocks[|blocks| - 1];
      at, ids := MissingInOrder(front, known);
      at, ids := ListsSnoc(front, b, known, at, ids);
      CallsInSnoc(front, b);
      assert CallsIn(front) + [] == CallsIn(front);
      if b.ToolUse? {
        UnansweredSnoc(CallsIn(front), b.id, known);
      }
      assert blocks == front + [b];
    }
  }

  /** The blocks of a message that can be open calls. */
  function CallBlocks(m: Message): seq<ContentBlock> { if m.role.Assistant? then m.content else [] }

  /** `errors` are one error result for each open call of `m`, in block order. */
  ghost predicate AnswersOpenCalls(m: Message, known: set<string>, errors: seq<Message>) {
    exists at, ids :: ListsOpenCalls(CallBlocks(m), known, at, ids) && |errors| == |ids|
      && forall k :: 0 <= k < |ids| ==>
        errors[k] == Message(User, [ToolResult(ids[k], TOOL_OUTPUT_MISSING_TEXT, Some(true))])
  }

  lemma ErrorsAnswerOpenCalls(m: Message, known: set<string>)
    ensures AnswersOpenCalls(m, known, ErrorResults(Need(known)(m)))
  {
    var at, ids := MissingInOrder(CallBlocks(m), known);
    assert ids == Need(known)(m);
    forall k | 0 <= k < |ids|
      ensures ErrorResults(ids)[k] == Message(User, [ToolResult(ids[k], TOOL_OUTPUT_MISSING_TEXT, Some(true))])
    {
      ErrorResultAt(ids, k);
    }
  }

  // ---------- runs ----------

  datatype Op = Append(message: Message) | DoRepair | DoReset | Rewind(len: nat) | Replace(messages: seq<Message>)

  /** Rewinding and undoing a rewind reset the tracking, as every step that is not an append must. */
  function Next(t: Tracking, op: Op): Tracking {
    match op
    case Append(m) => t.(messages := t.messages + [m])
    case DoRepair => Repair(t).0
    case DoReset => Reset(t)
    case Rewind(len) => Reset(if len < |t.messages| then t.(messages := t.messages[..len]) else t)
    case Replace(ms) => Reset(t.(messages := ms))
  }

  function Run(t: Tracking, ops: seq<Op>): Tracking
    decreases |ops|
  {
    if ops == [] then t else Run(Next(t, ops[0]), ops[1..])
  }

  /** The id sets are those of the scanned front, in which nothing is unanswered. */
  ghost predicate Inv(t: Tracking) {
    && t.scanIndex <= |t.messages|
    && t.callIds == CallIds(t.messages[..t.scanIndex])
    && t.resultIds == AnsweredIds(t.messages[..t.scanIndex])
    && t.callIds <= t.resultIds
  }

  /** Right after a repair nothing in the whole history is unanswered, whatever was scanned before. */
  lemma RepairCloses(t: Tracking)
    requires Inv(t)
    ensures var (t', repaired) := Repair(t);
      && Inv(t') && t'.scanIndex == |t'.messages|
      && Closed(t'.messages)
      && t'.resultIds == AnsweredIds(t'.messages)
      && repaired == |t'.messages| - |t.messages|
  {
    var front, rest := t.messages[..t.scanIndex], t.messages[t.scanIndex..];
    var known := t.resultIds + AnsweredIds(rest);
    ExpandIds(rest, known);
    IdsConcat(front, Expand(rest, Need(known)));
    var ms := Repair(t).0.messages;
    assert ms[..|ms|] == ms;
  }

  lemma NextKeepsInv(t: Tracking, op: Op)
    requires Inv(t)
    ensures Inv(Next(t, op))
  {
    match op
    case Append(m) => assert (t.messages + [m])[..t.scanIndex] == t.messages[..t.scanIndex];
    case DoRepair => RepairCloses(t);
    case DoReset => assert t.messages[..0] == [];
    case Rewind(len) =>
    case Replace(ms) =>
  }

  lemma {:induction false} RunKeepsInv(t: Tracking, ops: seq<Op>)
    requires Inv(t)
    ensures Inv(Run(t, ops))
    decreases |ops|
  {
    if ops != [] {
      NextKeepsInv(t, ops[0]);
      RunKeepsInv(Next(t, ops[0]), ops[1..]);
    }
  }

  lemma RescanParts(t: Tracking)
    requires CallIds(t.messages) <= AnsweredIds(t.messages)
    ensures var u := Reset(t);
      Repaired(u) == t.messages && Known(u) == AnsweredIds(t.messages) && CallIds(Unscanned(u)) == CallIds(t.messages)
  {
    var u := Reset(t);
    assert Unscanned(u) == t.messages;
    assert Known(u) == AnsweredIds(t.messages);
    ExpandNothing(t.messages, Known(u));
    assert Repaired(u) == [] + t.messages == t.messages;
  }

  lemma FinishIs(u: Tracking, ms: seq<Message>, known: set<string>, calls: set<string>, t: Tracking, repaired: nat)
    requires |ms| >= |u.messages| && repaired == |ms| - |u.messages|
    requires t.messages == ms && t.scanIndex == |ms|
    requires t.callIds == u.callIds + calls && t.resultIds == known + calls
    ensures (t, repaired) == Finish(u, ms, known, calls)
  {
  }

  lemma RescanRepairsNothing(t: Tracking)
    requires t.scanIndex == |t.messages| && Closed(t.messages)
    requires t.callIds == CallIds(t.messages) && t.resultIds == AnsweredIds(t.messages)
    ensures Repair(Reset(t)) == (t, 0)
  {
    RescanParts(t);
    FinishIs(Reset(t), t.messages, t.resultIds, t.callIds, t, 0);
  }

  lemma KnownIsAll(t: Tracking)
    requires Inv(t)
    ensures Known(t) == AnsweredIds(t.messages)
  {
    assert t.messages == t.messages[..t.scanIndex] + Unscanned(t);
    IdsConcat(t.messages[..t.scanIndex], Unscanned(t));
  }

  /**
   * Where an unscanned message is in the repaired history: what comes before it, itself, one error result for each
   * of its calls without a result anywhere in the history, in block order, and what comes after it.
   */
  lemma RepairInserts(t: Tracking, before: seq<Message>, m: Message, after: seq<Message>)
    returns (errors: seq<Message>, front: seq<Message>, back: seq<Message>)
    requires Inv(t) && Unscanned(t) == before + ([m] + after)
    ensures Repair(t).0.messages == front + ([m] + errors + back)
    ensures front == t.messages[..t.scanIndex] + Expand(before, Need(AnsweredIds(t.messages)))
    ensures back == Expand(after, Need(AnsweredIds(t.messages)))
    ensures AnswersOpenCalls(m, AnsweredIds(t.messages), errors)
  {
    var known := AnsweredIds(t.messages);
    KnownIsAll(t);
    ExpandKeepsOrder(before, m, after, Need(known));
    ErrorsAnswerOpenCalls(m, known);
    errors, back := ErrorResults(Need(known)(m)), Expand(after, Need(known));
    front := t.messages[..t.scanIndex] + Expand(before, Need(known));
    assert Repaired(t) == t.messages[..t.scanIndex] + (Expand(before, Need(known)) + ([m] + errors + back));
    Associate(t.messages[..t.scanIndex], Expand(before, Need(known)), [m] + errors + back);
  }

  /** A scan position past the end makes a repair start over, and it closes the history. */
  lemma StaleScanStartsOver(t: Tracking)
    requires t.scanIndex > |t.messages|
    ensures var t' := Repair(t).0;
      Inv(t') && t'.scanIndex == |t'.messages| && Closed(t'.messages) && t'.resultIds == AnsweredIds(t'.messages)
  {
    assert t.messages[..0] == [];
    RepairCloses(Reset(t));
    assert Repair(t) == Repair(Reset(t));
  }

  /** After any run that ends in a repair the history is closed, and rescanning it from scratch repairs nothing. */
  lemma RepairedRunIsClosed(ops: seq<Op>)
    ensures var t := Repair(Run(Tracking([], {}, {}, 0), ops)).0;
      && Closed(t.messages)
      && t.resultIds == AnsweredIds(t.messages)
      && Repair(Reset(t)) == (t, 0)
  {
    var last := Run(Tracking([], {}, {}, 0), ops);
    RunKeepsInv(Tracking([], {}, {}, 0), ops);
    RepairCloses(last);
    var t := Repair(last).0;
    assert t.messages[..t.scanIndex] == t.messages;
    RescanRepairsNothing(t);
  }

  lemma {:induction false} CallsAreUses(blocks: seq<ContentBlock>)
    ensures forall id :: id in CallsIn(blocks) <==> id in BlockUses(blocks)
  {
    if blocks != [] {
      CallsAreUses(blocks[1..]);
      assert forall b :: b in blocks <==> b == blocks[0] || b in blocks[1..];
    }
  }

  /** Results that stay within the results and uses there were. */
  lemma StaysWithin(r1: set<string>, u1: set<string>, r2: set<string>, u2: set<string>,
                    s1: set<string>, s2: set<string>)
    requires s1 <= r1 + u1 && s2 <= r2 + u2
    ensures s1 + s2 <= (r1 + r2) + (u1 + u2)
  {
  }

  lemma AnsweredUses(m: Message, known: set<string>)
    ensures UseIds(Answered(m, Need(known))) == UseIds([m])
    ensures ResultIds(Answered(m, Need(known))) <= ResultIds([m]) + UseIds([m])
  {
    ErrorsHaveUses(m, known);
    IdsOfConcat([m], ErrorResults(Need(known)(m)));
  }

  lemma UsesOfHeadAndTail(ms: seq<Message>)
    requires ms != []
    ensures UseIds(ms) == UseIds([ms[0]]) + UseIds(ms[1..]) && ResultIds(ms) == ResultIds([ms[0]]) + ResultIds(ms[1..])
  {
    assert ms == [ms[0]] + ms[1..];
    IdsOfConcat([ms[0]], ms[1..]);
  }

  lemma {:induction false} ExpandUses(ms: seq<Message>, known: set<string>)
    ensures UseIds(Expand(ms, Need(known))) == UseIds(ms)
    ensures ResultIds(Expand(ms, Need(known))) <= ResultIds(ms) + UseIds(ms)
  {
    if ms != [] {
      var first, rest := Answered(ms[0], Need(known)), Expand(ms[1..], Need(known));
      ExpandUses(ms[1..], known);
      AnsweredUses(ms[0], known);
      UsesOfHeadAndTail(ms);
      IdsOfConcat(first, rest);
      StaysWithin(ResultIds([ms[0]]), UseIds([ms[0]]), ResultIds(ms[1..]), UseIds(ms[1..]),
                  ResultIds(first), ResultIds(rest));
    }
  }

  /** Replacing the rest by one with the same uses, and results within what there was, keeps a list self-contained. */
  lemma ReplaceRest(front: seq<Message>, rest: seq<Message>, rest': seq<Message>)
    requires SelfContained(front + rest)
    requires UseIds(rest') == UseIds(rest) && ResultIds(rest') <= ResultIds(rest) + UseIds(rest)
    ensures SelfContained(front + rest')
  {
    IdsOfConcat(front, rest);
    IdsOfConcat(front, rest');
  }

  lemma ExpandRest(front: seq<Message>, rest: seq<Message>, known: set<string>)
    requires SelfContained(front + rest)
    ensures SelfContained(front + Expand(rest, Need(known)))
  {
    ExpandUses(rest, known);
    ReplaceRest(front, rest, Expand(rest, Need(known)));
  }

  lemma RepairIs(t: Tracking)
    requires t.scanIndex <= |t.messages|
    ensures Repair(t) == Finish(t, Repaired(t), Known(t), CallIds(Unscanned(t)))
  {
  }

  lemma FinishMessages(u: Tracking, ms: seq<Message>, known: set<string>, calls: set<string>)
    requires |ms| >= |u.messages|
    ensures Finish(u, ms, known, calls).0.messages == ms
  {
  }

  lemma RepairedIs(t: Tracking) returns (front: seq<Message>, rest: seq<Message>, known: set<string>)
    requires t.scanIndex <= |t.messages|
    ensures t.messages == front + rest && Repaired(t) == front + Expand(rest, Need(known))
  {
    front, rest, known := t.messages[..t.scanIndex], Unscanned(t), Known(t);
  }

  /** A repair never puts a result where its call is missing. */
  lemma RepairKeepsSelfContained(t: Tracking)
    requires t.scanIndex <= |t.messages| && SelfContained(t.messages)
    ensures SelfContained(Repair(t).0.messages)
  {
    var front, rest, known := RepairedIs(t);
    ExpandRest(front, rest, known);
    RepairIs(t);
    FinishMessages(t, Repaired(t), Known(t), CallIds(Unscanned(t)));
  }

  lemma ErrorsHaveUses(m: Message, known: set<string>)
    ensures ResultIds(ErrorResults(Need(known)(m))) <= UseIds([m])
    ensures UseIds(ErrorResults(Need(known)(m))) == {}
  {
    UnansweredAre(Calls(m), known);
    CallsAreUses(m.content);
    IdsOfOne(m);
    ErrorResultIds(Need(known)(m));
  }
}
