/** The in-place repair: an incremental scan, then inserts at positions shifted by earlier inserts. */
module ToolRepairAgents {
  import opened Helpers
  import opened Messages
  import opened ToolRepair

  /** Position of a message and the call ids listed for it. */
  datatype Entry = Entry(index: nat, ids: seq<string>)

  /** Lists a message unless it has no ids. */
  function Listed(entries: seq<Entry>, index: nat, ids: seq<string>): seq<Entry> {
    if ids == [] then entries else entries + [Entry(index, ids)]
  }

  /** Which messages in `[lo, hi)` make calls. */
  function CallsAt(ms: seq<Message>, lo: nat, hi: nat): seq<Entry>
    requires lo <= hi <= |ms|
    decreases hi
  {
    if lo == hi then [] else Listed(CallsAt(ms, lo, hi - 1), hi - 1, Calls(ms[hi - 1]))
  }

  /** Which messages in `[lo, hi)` need error results, with the ids they need. */
  function MissingAt(ms: seq<Message>, need: Message -> seq<string>, lo: nat, hi: nat): seq<Entry>
    requires lo <= hi <= |ms|
    decreases hi
  {
    if lo == hi then [] else Listed(MissingAt(ms, need, lo, hi - 1), hi - 1, need(ms[hi - 1]))
  }

  /** The entries of `calls` that still have unanswered ids. */
  function OnlyMissing(calls: seq<Entry>, known: set<string>): seq<Entry> {
    if calls == [] then []
    else
      var last := calls[|calls| - 1];
      Listed(OnlyMissing(calls[..|calls| - 1], known), last.index, Unanswered(last.ids, known))
  }

  /** Listing a call and then dropping what is answered lists the same repairs. */
  lemma OnlyMissingListed(calls: seq<Entry>, repairs: seq<Entry>, index: nat, ids: seq<string>, known: set<string>)
    requires repairs == OnlyMissing(calls, known)
    ensures OnlyMissing(Listed(calls, index, ids), known) == Listed(repairs, index, Unanswered(ids, known))
  {
    assert (calls + [Entry(index, ids)])[..|calls|] == calls;
  }

  lemma EntriesSnoc(ms: seq<Message>, known: set<string>, lo: nat, hi: nat)
    requires lo < hi <= |ms|
    ensures CallsAt(ms, lo, hi) == Listed(CallsAt(ms, lo, hi - 1), hi - 1, Calls(ms[hi - 1]))
    ensures MissingAt(ms, Need(known), lo, hi)
      == Listed(MissingAt(ms, Need(known), lo, hi - 1), hi - 1, Unanswered(Calls(ms[hi - 1]), known))
  {
  }

  lemma {:induction false} MissingOfCalls(ms: seq<Message>, known: set<string>, lo: nat, hi: nat)
    returns (calls: seq<Entry>, repairs: seq<Entry>)
    requires lo <= hi <= |ms|
    ensures calls == CallsAt(ms, lo, hi) && repairs == MissingAt(ms, Need(known), lo, hi)
    ensures repairs == OnlyMissing(calls, known)
    decreases hi
  {
    if lo == hi {
      calls, repairs := [], [];
    } else {
      var c, r := MissingOfCalls(ms, known, lo, hi - 1);
      var ids := Calls(ms[hi - 1]);
      EntriesSnoc(ms, known, lo, hi);
      OnlyMissingListed(c, r, hi - 1, ids, known);
      calls, repairs := Listed(c, hi - 1, ids), Listed(r, hi - 1, Unanswered(ids, known));
    }
  }

  lemma {:induction false} MissingGrows(ms: seq<Message>, need: Message -> seq<string>, lo: nat, p: nat, q: nat)
    requires lo <= p <= q <= |ms|
    ensures |MissingAt(ms, need, lo, p)| <= |MissingAt(ms, need, lo, q)|
    ensures MissingAt(ms, need, lo, p) == MissingAt(ms, need, lo, q) ==>
      forall i :: p <= i < q ==> need(ms[i]) == []
    decreases q
  {
    if p < q {
      MissingGrows(ms, need, lo, p, q - 1);
    }
  }

  /** Entry `k` of the repair list: where it is, what it needs, and that nothing between is missing. */
  lemma {:induction false} RepairEntry(ms: seq<Message>, need: Message -> seq<string>, lo: nat, hi: nat, k: nat)
    requires lo <= hi <= |ms| && k < |MissingAt(ms, need, lo, hi)|
    ensures var repairs := MissingAt(ms, need, lo, hi); var e := repairs[k];
      && lo <= e.index < hi && e.ids == need(ms[e.index]) != []
      && MissingAt(ms, need, lo, e.index) == repairs[..k]
    decreases hi
  {
    var repairs := MissingAt(ms, need, lo, hi);
    var before := MissingAt(ms, need, lo, hi - 1);
    if k < |before| {
      RepairEntry(ms, need, lo, hi - 1, k);
      assert repairs[..k] == before[..k];
    } else {
      assert repairs[..k] == before;
    }
  }

  /** After entry `k - 1` was placed at `p - 1`, entry `k` is the next message with anything missing. */
  lemma NextEntry(ms: seq<Message>, need: Message -> seq<string>, lo: nat, p: nat, repairs: seq<Entry>, k: nat)
    requires lo <= p <= |ms| && repairs == MissingAt(ms, need, lo, |ms|) && k < |repairs|
    requires MissingAt(ms, need, lo, p) == repairs[..k]
    ensures var e := repairs[k];
      && p <= e.index < |ms| && e.ids == need(ms[e.index])
      && (forall i :: p <= i < e.index ==> need(ms[i]) == [])
      && MissingAt(ms, need, lo, e.index + 1) == repairs[..k + 1]
  {
    var e := repairs[k];
    RepairEntry(ms, need, lo, |ms|, k);
    assert repairs[..k + 1] == repairs[..k] + [e];
    if e.index < p {
      MissingGrows(ms, need, lo, e.index + 1, p);
    }
    MissingGrows(ms, need, lo, p, e.index);
  }

  lemma {:induction false} ExpandComplete(ms: seq<Message>, need: Message -> seq<string>)
    requires forall i :: 0 <= i < |ms| ==> need(ms[i]) == []
    ensures Expand(ms, need) == ms
  {
    if ms != [] {
      ExpandComplete(ms[1..], need);
      assert Answered(ms[0], need) == [ms[0]];
    }
  }

  /** Messages without missing results are copied. */
  lemma ExpandGap(ms: seq<Message>, need: Message -> seq<string>, lo: nat, p: nat, q: nat)
    requires lo <= p <= q <= |ms|
    requires forall i :: p <= i < q ==> need(ms[i]) == []
    ensures Expand(ms[lo..q], need) == Expand(ms[lo..p], need) + ms[p..q]
  {
    assert ms[lo..q] == ms[lo..p] + ms[p..q];
    ExpandConcat(ms[lo..p], ms[p..q], need);
    ExpandComplete(ms[p..q], need);
  }

  lemma ExpandSnoc(ms: seq<Message>, need: Message -> seq<string>, lo: nat, p: nat)
    requires lo <= p < |ms|
    ensures Expand(ms[lo..p + 1], need) == Expand(ms[lo..p], need) + Answered(ms[p], need)
  {
    assert ms[lo..p + 1] == ms[lo..p] + [ms[p]];
    ExpandConcat(ms[lo..p], [ms[p]], need);
    ExpandOne(ms[p], need);
  }

  /** What has been written once everything before `q` is repaired, from what was written up to `p`. */
  lemma WrittenGrows(ms: seq<Message>, need: Message -> seq<string>, lo: nat, p: nat, q: nat, written: seq<Message>)
    requires lo <= p <= q < |ms|
    requires forall i :: p <= i < q ==> need(ms[i]) == []
    requires written == ms[..lo] + Expand(ms[lo..p], need)
    ensures written + ms[p..q] + Answered(ms[q], need) == ms[..lo] + Expand(ms[lo..q + 1], need)
  {
    ExpandGap(ms, need, lo, p, q);
    ExpandSnoc(ms, need, lo, q);
    Associate4(ms[..lo], Expand(ms[lo..p], need), ms[p..q], Answered(ms[q], need));
  }

  lemma Associate4<T>(a: seq<T>, b: seq<T>, c: seq<T>, d: seq<T>)
    ensures a + b + c + d == a + (b + c + d)
  {
  }

  /** Inserting right after the element at `q`, counted from a front of another length. */
  lemma InsertShifted<T>(front: seq<T>, ms: seq<T>, p: nat, q: nat, extra: seq<T>)
    requires p <= q < |ms|
    ensures var all := front + ms[p..]; var at := |front| + q - p;
      all[..at + 1] + extra + all[at + 1..] == front + ms[p..q] + ([ms[q]] + extra) + ms[q + 1..]
  {
  }

  /** All ids in a list of entries. */
  function IdsIn(entries: seq<Entry>): set<string> {
    if entries == [] then {}
    else IdsIn(entries[..|entries| - 1]) + AsSet(entries[|entries| - 1].ids)
  }

  lemma IdsInListed(entries: seq<Entry>, index: nat, ids: seq<string>)
    ensures IdsIn(Listed(entries, index, ids)) == IdsIn(entries) + AsSet(ids)
  {
    assert (entries + [Entry(index, ids)])[..|entries|] == entries;
  }

  /** The call list holds exactly the ids called. */
  lemma CallIdsSnoc(ms: seq<Message>, lo: nat, hi: nat)
    requires lo < hi <= |ms|
    ensures CallIds(ms[lo..hi]) == CallIds(ms[lo..hi - 1]) + AsSet(Calls(ms[hi - 1]))
  {
    assert ms[lo..hi] == ms[lo..hi - 1] + [ms[hi - 1]];
    IdsConcat(ms[lo..hi - 1], [ms[hi - 1]]);
    IdsOne(ms[hi - 1]);
  }

  lemma {:induction false} CallsAtIds(ms: seq<Message>, lo: nat, hi: nat) returns (calls: seq<Entry>, ids: set<string>)
    requires lo <= hi <= |ms|
    ensures calls == CallsAt(ms, lo, hi) && ids == CallIds(ms[lo..hi]) && IdsIn(calls) == ids
    decreases hi
  {
    if lo == hi {
      calls, ids := [], {};
    } else {
      calls, ids := CallsAtIds(ms, lo, hi - 1);
      CallIdsSnoc(ms, lo, hi);
      var more := Calls(ms[hi - 1]);
      IdsInListed(calls, hi - 1, more);
      calls, ids := Listed(calls, hi - 1, more), ids + AsSet(more);
    }
  }

  lemma Absorbs(a: set<string>, b: set<string>)
    ensures a + (b - a) == a + b
  {
  }

  lemma MinusDistributes(a: set<string>, b: set<string>, c: set<string>)
    ensures (a - c) + (b - c) == a + b - c
  {
  }

  /** The repair list holds exactly the called ids that are not known to be answered. */
  lemma MissingIdsListed(repairs: seq<Entry>, ids: set<string>, known: set<string>, index: nat, calls: seq<string>)
    requires IdsIn(repairs) == ids - known
    ensures IdsIn(Listed(repairs, index, Unanswered(calls, known))) == ids + AsSet(calls) - known
  {
    IdsInListed(repairs, index, Unanswered(calls, known));
    UnansweredAre(calls, known);
    MinusDistributes(ids, AsSet(calls), known);
  }

  lemma {:induction false} MissingAtIds(ms: seq<Message>, known: set<string>, lo: nat, hi: nat)
    returns (repairs: seq<Entry>, ids: set<string>)
    requires lo <= hi <= |ms|
    ensures repairs == MissingAt(ms, Need(known), lo, hi) && ids == CallIds(ms[lo..hi]) && IdsIn(repairs) == ids - known
    decreases hi
  {
    if lo == hi {
      repairs, ids := [], {};
    } else {
      var calls := Calls(ms[hi - 1]);
      repairs, ids := MissingAtIds(ms, known, lo, hi - 1);
      CallIdsSnoc(ms, lo, hi);
      EntriesSnoc(ms, known, lo, hi);
      MissingIdsListed(repairs, ids, known, hi - 1, calls);
      repairs, ids := Listed(repairs, hi - 1, Unanswered(calls, known)), ids + AsSet(calls);
    }
  }

  /** Placing the error results of message `q`: where they go, and what has been written afterwards. */
  lemma PlaceNext(ms: seq<Message>, need: Message -> seq<string>, lo: nat, p: nat, q: nat, written: seq<Message>,
                  all: seq<Message>, inserted: int, errors: seq<Message>) returns (next: seq<Message>)
    requires lo <= p <= q < |ms|
    requires forall i :: p <= i < q ==> need(ms[i]) == []
    requires written == ms[..lo] + Expand(ms[lo..p], need)
    requires all == written + ms[p..] && inserted == |written| - p
    requires errors == ErrorResults(need(ms[q]))
    ensures 0 <= q + inserted < |all|
    ensures all[..q + inserted + 1] + errors + all[q + inserted + 1..] == next + ms[q + 1..]
    ensures next == ms[..lo] + Expand(ms[lo..q + 1], need)
    ensures |next| - (q + 1) == inserted + |errors|
  {
    next := written + ms[p..q] + Answered(ms[q], need);
    WrittenGrows(ms, need, lo, p, q, written);
    InsertShifted(written, ms, p, q, errors);
  }

  /** The repaired form of everything before `p`. */
  function Written(ms: seq<Message>, need: Message -> seq<string>, lo: nat, p: nat): seq<Message>
    requires lo <= p <= |ms|
  {
    ms[..lo] + Expand(ms[lo..p], need)
  }

  /**
   * The first `k` entries have been placed: all messages before `p` have their repaired form,
   * the rest is untouched, and `inserted` is how far positions have shifted.
   */
  ghost predicate Placed(ms: seq<Message>, need: Message -> seq<string>, lo: nat, repairs: seq<Entry>, k: nat,
                         p: nat, all: seq<Message>, inserted: int) {
    && lo <= p <= |ms| && k <= |repairs|
    && MissingAt(ms, need, lo, p) == repairs[..k]
    && all == Written(ms, need, lo, p) + ms[p..]
    && inserted == |all| - |ms|
  }

  /** `all` with one error result per id right after position `at`. */
  function Spliced(all: seq<Message>, at: nat, ids: seq<string>): seq<Message>
    requires at < |all|
  {
    all[..at + 1] + ErrorResults(ids) + all[at + 1..]
  }

  lemma StartPlacing(ms: seq<Message>, need: Message -> seq<string>, lo: nat, repairs: seq<Entry>)
    requires lo <= |ms|
    ensures Placed(ms, need, lo, repairs, 0, lo, ms, 0)
  {
    assert ms[lo..lo] == [] && ms[..lo] + [] == ms[..lo] && ms == ms[..lo] + ms[lo..];
  }

  lemma PlaceEntry(ms: seq<Message>, need: Message -> seq<string>, lo: nat, repairs: seq<Entry>, k: nat,
                   p: nat, all: seq<Message>, inserted: int)
    requires Placed(ms, need, lo, repairs, k, p, all, inserted)
    requires repairs == MissingAt(ms, need, lo, |ms|) && k < |repairs|
    ensures var e := repairs[k]; var at := e.index + inserted;
      && 0 <= at < |all|
      && Placed(ms, need, lo, repairs, k + 1, e.index + 1, Spliced(all, at, e.ids), inserted + |e.ids|)
  {
    var e := repairs[k];
    NextEntry(ms, need, lo, p, repairs, k);
    var next := PlaceNext(ms, need, lo, p, e.index, Written(ms, need, lo, p), all, inserted, ErrorResults(e.ids));
  }

  /** Once the whole list is placed the history is the flat-map. */
  lemma AllPlaced(ms: seq<Message>, need: Message -> seq<string>, lo: nat, repairs: seq<Entry>,
                  p: nat, all: seq<Message>, inserted: int)
    requires Placed(ms, need, lo, repairs, |repairs|, p, all, inserted)
    requires repairs == MissingAt(ms, need, lo, |ms|)
    ensures all == ms[..lo] + Expand(ms[lo..], need)
    ensures inserted == |all| - |ms|
  {
    assert repairs[..|repairs|] == repairs;
    MissingGrows(ms, need, lo, p, |ms|);
    ExpandGap(ms, need, lo, p, |ms|);
    assert ms[lo..|ms|] == ms[lo..] && ms[p..|ms|] == ms[p..];
    Associate(ms[..lo], Expand(ms[lo..p], need), ms[p..]);
  }

  /** The ids of the first `k` entries have been added. */
  ghost predicate Recorded(before: set<string>, entries: seq<Entry>, k: nat, now: set<string>) {
    k <= |entries| && now == before + IdsIn(entries[..k])
  }

  lemma StartRecording(before: set<string>, entries: seq<Entry>)
    ensures Recorded(before, entries, 0, before)
  {
  }

  lemma RecordEntry(before: set<string>, entries: seq<Entry>, k: nat, now: set<string>)
    requires k < |entries| && Recorded(before, entries, k, now)
    ensures Recorded(before, entries, k + 1, now + AsSet(entries[k].ids))
  {
    assert entries[..k + 1][..k] == entries[..k];
  }

  /** What has been collected from the messages in `[start, i)`. */
  ghost predicate Scanned(ms: seq<Message>, start: nat, i: nat, results: set<string>, calls: seq<Entry>) {
    start <= i <= |ms| && results == AnsweredIds(ms[start..i]) && calls == CallsAt(ms, start, i)
  }

  /** One more message scanned. */
  lemma ScanOne(ms: seq<Message>, start: nat, i: nat, results: set<string>, calls: seq<Entry>)
    requires i < |ms| && Scanned(ms, start, i, results, calls)
    ensures Scanned(ms, start, i + 1, results + Results(ms[i]), Listed(calls, i, Calls(ms[i])))
  {
    assert ms[start..i + 1] == ms[start..i] + [ms[i]];
    IdsConcat(ms[start..i], [ms[i]]);
    IdsOne(ms[i]);
  }

  lemma ScannedAll(ms: seq<Message>, start: nat, results: set<string>, calls: seq<Entry>)
    requires Scanned(ms, start, |ms|, results, calls)
    ensures results == AnsweredIds(ms[start..]) && calls == CallsAt(ms, start, |ms|)
  {
    assert ms[start..|ms|] == ms[start..];
  }

  class Agent {
    var messages: seq<Message>
    var toolCallIds: set<string>
    var toolResultIds: set<string>
    var scanIndex: nat

    function View(): Tracking
      reads this
    {
      Tracking(messages, toolCallIds, toolResultIds, scanIndex)
    }

    constructor ()
      ensures View() == Tracking([], {}, {}, 0)
    {
      messages, toolCallIds, toolResultIds, scanIndex := [], {}, {}, 0;
    }

    method AppendMessage(m: Message)
      modifies this
      ensures View() == Next(old(View()), Append(m))
    {
      messages := messages + [m];
    }

    method ResetToolOutputTracking()
      modifies this
      ensures View() == Reset(old(View()))
    {
      toolCallIds, toolResultIds, scanIndex := {}, {}, 0;
    }

    /** Reads the messages from `start` on: results given by users, calls made by the assistant. */
    method Scan(start: nat) returns (results: set<string>, calls: seq<Entry>)
      requires start <= |messages|
      ensures results == AnsweredIds(messages[start..])
      ensures calls == CallsAt(messages, start, |messages|)
    {
      results, calls := {}, [];
      var ms := messages;
      for i := start to |ms|
        invariant Scanned(ms, start, i, results, calls)
      {
        var m, ids := ms[i], Calls(ms[i]);
        ScanOne(ms, start, i, results, calls);
        if m.role.User? {
          results := results + BlockResults(m.content);
        } else if ids != [] {
          calls := calls + [Entry(i, ids)];
        }
      }
      ScannedAll(ms, start, results, calls);
    }

    /** Records the calls and keeps those without a known result. */
    method FindMissing(calls: seq<Entry>) returns (repairs: seq<Entry>)
      modifies `toolCallIds
      ensures repairs == OnlyMissing(calls, toolResultIds)
      ensures toolCallIds == old(toolCallIds) + IdsIn(calls)
    {
      repairs := [];
      for k := 0 to |calls|
        invariant repairs == OnlyMissing(calls[..k], toolResultIds)
        invariant toolCallIds == old(toolCallIds) + IdsIn(calls[..k])
      {
        var e := calls[k];
        assert calls[..k + 1][..k] == calls[..k];
        toolCallIds := toolCallIds + AsSet(e.ids);
        var missing := Unanswered(e.ids, toolResultIds);
        if missing != [] {
          repairs := repairs + [Entry(e.index, missing)];
        }
      }
      assert calls[..|calls|] == calls;
    }

    /** Inserts one error result per id right after position `at`. */
    method InsertAfter(at: nat, ids: seq<string>)
      requires at < |messages|
      modifies `messages, `toolResultIds
      ensures messages == Spliced(old(messages), at, ids)
      ensures toolResultIds == old(toolResultIds) + AsSet(ids)
    {
      for offset := 0 to |ids|
        invariant messages == old(messages)[..at + 1] + ErrorResults(ids[..offset]) + old(messages)[at + 1..]
        invariant toolResultIds == old(toolResultIds) + AsSet(ids[..offset])
      {
        assert ids[..offset + 1] == ids[..offset] + [ids[offset]];
        assert ids[..offset + 1][..offset] == ids[..offset];
        messages := messages[..at + 1 + offset] + [ErrorResult(ids[offset])] + messages[at + 1 + offset..];
        toolResultIds := toolResultIds + {ids[offset]};
      }
      assert ids[..|ids|] == ids;
    }

    /** Handles entry `k`, whose message has been shifted by the `inserted` results placed so far. */
    method InsertEntry(repairs: seq<Entry>, k: nat, inserted: nat, ghost ms: seq<Message>, ghost start: nat,
                       ghost need: Message -> seq<string>, ghost known: set<string>, ghost p: nat)
      returns (ghost next: nat)
      requires start <= |ms| && repairs == MissingAt(ms, need, start, |ms|) && k < |repairs|
      requires Placed(ms, need, start, repairs, k, p, messages, inserted)
      requires Recorded(known, repairs, k, toolResultIds)
      modifies `messages, `toolResultIds
      ensures Placed(ms, need, start, repairs, k + 1, next, messages, inserted + |repairs[k].ids|)
      ensures Recorded(known, repairs, k + 1, toolResultIds)
    {
      PlaceEntry(ms, need, start, repairs, k, p, messages, inserted);
      RecordEntry(known, repairs, k, toolResultIds);
      InsertAfter(repairs[k].index + inserted, repairs[k].ids);
      next := repairs[k].index + 1;
    }

    /** Walks the repair list; every insert shifts what follows. */
    method InsertRepairs(repairs: seq<Entry>, ghost start: nat, ghost need: Message -> seq<string>)
      returns (repaired: nat, ghost p: nat)
      requires start <= |messages|
      requires repairs == MissingAt(messages, need, start, |messages|)
      modifies `messages, `toolResultIds
      ensures Placed(old(messages), need, start, repairs, |repairs|, p, messages, repaired)
      ensures Recorded(old(toolResultIds), repairs, |repairs|, toolResultIds)
    {
      ghost var ms, known := messages, toolResultIds;
      p := start;
      repaired := 0;
      var inserted := 0;
      StartPlacing(ms, need, start, repairs);
      StartRecording(known, repairs);
      for k := 0 to |repairs|
        invariant Placed(ms, need, start, repairs, k, p, messages, inserted)
        invariant Recorded(known, repairs, k, toolResultIds)
        invariant repaired == inserted
      {
        p := InsertEntry(repairs, k, inserted, ms, start, need, known, p);
        repaired := repaired + |repairs[k].ids|;
        inserted := inserted + |repairs[k].ids|;
      }
    }

    /** Scan, find what is missing, insert. */
    method RepairUnscanned() returns (repaired: nat)
      requires scanIndex <= |messages|
      modifies this
      ensures (View(), repaired) == RepairFrom(old(View()))
    {
      ghost var u := View();
      var results, calls := Scan(scanIndex);
      toolResultIds := toolResultIds + results;
      ghost var need := ListsAgree(u, toolResultIds);
      var repairs := FindMissing(calls);
      var start := scanIndex;
      scanIndex := |messages|;
      ghost var p;
      repaired, p := InsertRepairs(repairs, start, need);
      assert messages == Repaired(u) && repaired == |messages| - |u.messages| by {
        AllPlaced(u.messages, need, start, repairs, p, messages, repaired);
      }
      assert toolResultIds == Known(u) + CallIds(Unscanned(u)) by {
        assert repairs[..|repairs|] == repairs;
        Absorbs(Known(u), CallIds(Unscanned(u)));
      }
      scanIndex := |messages|;
      RepairsDone(u, View(), repaired);
    }

    method RepairMissingToolOutputs() returns (repaired: nat)
      modifies this
      ensures (View(), repaired) == Repair(old(View()))
    {
      if scanIndex > |messages| {
        ResetToolOutputTracking();
      }
      repaired := RepairUnscanned();
    }
  }

  /** History expanded and ids recorded, the state is the specified one. */
  lemma RepairsDone(u: Tracking, t: Tracking, repaired: nat)
    requires u.scanIndex <= |u.messages|
    requires t.messages == Repaired(u) && t.scanIndex == |t.messages|
    requires t.callIds == u.callIds + CallIds(Unscanned(u))
    requires t.resultIds == Known(u) + CallIds(Unscanned(u))
    requires repaired == |t.messages| - |u.messages|
    ensures (t, repaired) == RepairFrom(u)
  {
    FinishIs(u, t.messages, Known(u), CallIds(Unscanned(u)), t, repaired);
  }

  /** The lists the scan produces are the ones the flat-map is about. */
  lemma ListsAgree(u: Tracking, known: set<string>) returns (need: Message -> seq<string>)
    requires u.scanIndex <= |u.messages|
    ensures need == Need(known)
    ensures OnlyMissing(CallsAt(u.messages, u.scanIndex, |u.messages|), known)
      == MissingAt(u.messages, need, u.scanIndex, |u.messages|)
    ensures IdsIn(CallsAt(u.messages, u.scanIndex, |u.messages|)) == CallIds(Unscanned(u))
    ensures IdsIn(MissingAt(u.messages, need, u.scanIndex, |u.messages|)) == CallIds(Unscanned(u)) - known
  {
    need := Need(known);
    assert u.messages[u.scanIndex..|u.messages|] == Unscanned(u);
    var calls, repairs := MissingOfCalls(u.messages, known, u.scanIndex, |u.messages|);
    var all, called := CallsAtIds(u.messages, u.scanIndex, |u.messages|);
    var missing, asked := MissingAtIds(u.messages, known, u.scanIndex, |u.messages|);
  }
}
