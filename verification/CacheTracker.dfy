/** Detecting that a request is not an extension of the previous one, from rolling prefix hashes. */
module CacheTracking {
  import opened Options
  import opened Messages

  newtype Hash = x: int | 0 <= x < 0x1_0000_0000_0000_0000

  const MAX_HISTORY: nat := 10

  /** Hash of one message, and how a prefix hash is extended by the next message's hash. */
  datatype Hashing = Hashing(stable: Message -> Hash, extend: (Hash, Hash) -> Hash)

  function Link(hs: Hashing, before: Option<Hash>, m: Message): Hash {
    if before.Some? then hs.extend(before.value, hs.stable(m)) else hs.stable(m)
  }

  /** Hash of a whole message list; the empty list has none. */
  function FullHash(hs: Hashing, ms: seq<Message>): (h: Option<Hash>)
    ensures h.None? <==> ms == []
  {
    if ms == [] then None else Some(Link(hs, FullHash(hs, ms[..|ms| - 1]), ms[|ms| - 1]))
  }

  function OrZero(h: Option<Hash>): Hash { if h.Some? then h.value else 0 }

  datatype Violation = MessagesRemoved(turn: nat, had: nat, have: nat)
                     | PrefixModified(turn: nat, count: nat, expected: Hash, actual: Hash)

  datatype Tracker = Tracker(previousHash: Option<Hash>, previousCount: nat, turnCount: nat,
                             hashHistory: seq<Hash>, lastViolation: Option<Violation>)

  function Blank(): Tracker { Tracker(None, 0, 0, [], None) }

  /** What the tracker remembers about a request. */
  function Remember(t: Tracker, ms: seq<Message>, hash: Hash, v: Option<Violation>): Tracker {
    var longer := t.hashHistory + [hash];
    Tracker(Some(hash), |ms|, t.turnCount + 1, if |longer| > MAX_HISTORY then longer[1..] else longer, v)
  }

  /** The request does not start with the previous one, as far as hashes tell. */
  function Check(hs: Hashing, t: Tracker, ms: seq<Message>): Option<Violation> {
    if t.turnCount == 0 || t.previousHash.None? then None
    else if |ms| < t.previousCount then Some(MessagesRemoved(t.turnCount + 1, t.previousCount, |ms|))
    else
      var actual := OrZero(FullHash(hs, ms[..t.previousCount]));
      if actual != t.previousHash.value
      then Some(PrefixModified(t.turnCount + 1, t.previousCount, t.previousHash.value, actual))
      else None
  }

  function Record(hs: Hashing, t: Tracker, ms: seq<Message>): (Tracker, Option<Violation>) {
    var v := Check(hs, t, ms);
    (Remember(t, ms, OrZero(FullHash(hs, ms)), v), v)
  }

  // ---------- the tracker itself ----------

  class CacheTracker {
    var previousPrefixHash: Option<Hash>
    var previousMessageCount: nat
    var turnCount: nat
    var hashHistory: seq<Hash>
    var lastViolation: Option<Violation>

    function View(): Tracker
      reads this
    {
      Tracker(previousPrefixHash, previousMessageCount, turnCount, hashHistory, lastViolation)
    }

    constructor ()
      ensures View() == Blank()
    {
      previousPrefixHash, previousMessageCount, turnCount, hashHistory, lastViolation := None, 0, 0, [], None;
    }

    method Reset()
      modifies this
      ensures View() == Blank()
    {
      previousPrefixHash, previousMessageCount, turnCount, hashHistory, lastViolation := None, 0, 0, [], None;
    }

    method PushHistory(hash: Hash)
      modifies `hashHistory
      ensures var longer := old(hashHistory) + [hash];
        hashHistory == if |longer| > MAX_HISTORY then longer[1..] else longer
    {
      hashHistory := hashHistory + [hash];
      if |hashHistory| > MAX_HISTORY {
        hashHistory := hashHistory[1..];
      }
    }

    /** Only the count and two hashes of the request are given; `ms` is the request they are taken from. */
    method RecordPrefixHashSnapshot(hs: Hashing, ghost ms: seq<Message>, currentCount: nat,
                                    atPrevious: Option<Hash>, full: Option<Hash>) returns (v: Option<Violation>)
      requires currentCount == |ms| && full == FullHash(hs, ms)
      requires atPrevious == if previousMessageCount == 0 || previousMessageCount > |ms| then None
                             else FullHash(hs, ms[..previousMessageCount])
      modifies this
      ensures (View(), v) == Record(hs, old(View()), ms)
    {
      turnCount := turnCount + 1;
      if turnCount == 1 || previousPrefixHash.None? {
        previousPrefixHash := Some(OrZero(full));
        previousMessageCount := currentCount;
        PushHistory(OrZero(full));
        lastViolation := None;
        return None;
      }
      var previous, previousCount := previousPrefixHash.value, previousMessageCount;
      if currentCount < previousCount {
        v := Some(MessagesRemoved(turnCount, previousCount, currentCount));
        previousPrefixHash := Some(OrZero(full));
        previousMessageCount := currentCount;
        PushHistory(OrZero(full));
        lastViolation := v;
        return;
      }
      var prefix := OrZero(atPrevious);
      if prefix != previous {
        v := Some(PrefixModified(turnCount, previousCount, previous, prefix));
        previousPrefixHash := Some(OrZero(full));
        previousMessageCount := currentCount;
        PushHistory(OrZero(full));
        lastViolation := v;
        return;
      }
      previousPrefixHash := Some(OrZero(full));
      previousMessageCount := currentCount;
      PushHistory(OrZero(full));
      lastViolation := None;
      return None;
    }

    /** The hash of every non-empty prefix is given. */
    method RecordPrefixHashes(hs: Hashing, ghost ms: seq<Message>, hashes: seq<Hash>) returns (v: Option<Violation>)
      requires ArePrefixHashes(hs, ms, hashes)
      modifies this
      ensures (View(), v) == Record(hs, old(View()), ms)
    {
      var count := |hashes|;
      var full := if count == 0 then None else Some(hashes[count - 1]);
      var previous := previousMessageCount;
      var atPrevious := if previous == 0 || previous > count then None else Some(hashes[previous - 1]);
      assert ms[..|ms|] == ms;
      assert count > 0 ==> FrontHash(hs, ms, count).Some?;
      assert atPrevious.Some? ==> FrontHash(hs, ms, previous) == atPrevious;
      v := RecordPrefixHashSnapshot(hs, ms, count, atPrevious, full);
    }

    method RecordRequest(hs: Hashing, ms: seq<Message>) returns (v: Option<Violation>)
      modifies this
      ensures (View(), v) == Record(hs, old(View()), ms)
    {
      var hashes := PrefixHashes(hs, ms);
      v := RecordPrefixHashes(hs, ms, hashes);
    }
  }

  function FrontHash(hs: Hashing, ms: seq<Message>, n: nat): Option<Hash>
    requires n <= |ms|
  {
    FullHash(hs, ms[..n])
  }

  /** There is one hash for every non-empty front of the list, shortest first. */
  ghost predicate ArePrefixHashes(hs: Hashing, ms: seq<Message>, hashes: seq<Hash>) {
    |hashes| == |ms| && forall n :: 0 < n <= |ms| ==> FrontHash(hs, ms, n) == Some(hashes[n - 1])
  }

  lemma PrefixHashesSnoc(hs: Hashing, ms: seq<Message>, hashes: seq<Hash>, m: Message)
    requires ArePrefixHashes(hs, ms, hashes)
    ensures ArePrefixHashes(hs, ms + [m],
      hashes + [Link(hs, if hashes == [] then None else Some(hashes[|hashes| - 1]), m)])
  {
    var all := ms + [m];
    var longer := hashes + [Link(hs, if hashes == [] then None else Some(hashes[|hashes| - 1]), m)];
    forall n | 0 < n <= |all| ensures FrontHash(hs, all, n) == Some(longer[n - 1]) {
      if n <= |ms| {
        assert all[..n] == ms[..n];
        assert FrontHash(hs, ms, n) == Some(hashes[n - 1]);
      } else {
        assert all[..n] == all && all[..|all| - 1] == ms && ms[..|ms|] == ms;
        assert ms != [] ==> FrontHash(hs, ms, |ms|) == Some(hashes[|ms| - 1]);
      }
    }
  }

  method PrefixHashes(hs: Hashing, ms: seq<Message>) returns (hashes: seq<Hash>)
    ensures ArePrefixHashes(hs, ms, hashes)
  {
    hashes := [];
    for i := 0 to |ms|
      invariant ArePrefixHashes(hs, ms[..i], hashes)
    {
      PrefixHashesSnoc(hs, ms[..i], hashes, ms[i]);
      assert ms[..i + 1] == ms[..i] + [ms[i]];
      hashes := hashes + [Link(hs, if hashes == [] then None else Some(hashes[|hashes| - 1]), ms[i])];
    }
    assert ms[..|ms|] == ms;
  }

  // ---------- the session's own incremental prefix hashes ----------

  datatype CacheMode = Clean | Appended | Full

  /** A session that keeps provider messages and their prefix hashes up to date lazily. */
  class ProviderHistory {
    const hs: Hashing
    var messages: seq<Message>
    var cached: seq<Message>
    var hashes: seq<Hash>
    var cachedLen: nat
    var mode: CacheMode

    /** Unless a rebuild is due, the cache is right for the front it covers. */
    ghost predicate Valid()
      reads this
    {
      mode != Full ==>
        && cachedLen <= |messages| && cached == messages[..cachedLen]
        && ArePrefixHashes(hs, cached, hashes)
        && (mode == Clean ==> cachedLen == |messages|)
    }

    constructor (hs: Hashing)
      ensures Valid() && messages == [] && this.hs == hs
    {
      this.hs := hs;
      messages, cached, hashes, cachedLen, mode := [], [], [], 0, Full;
    }

    method AppendStoredMessage(m: Message)
      requires Valid()
      modifies this
      ensures Valid() && messages == old(messages) + [m]
    {
      messages := messages + [m];
      if mode != Full {
        mode := Appended;
      }
    }

    method InsertMessage(index: nat, m: Message)
      requires Valid() && index <= |messages|
      modifies this
      ensures Valid() && messages == old(messages)[..index] + [m] + old(messages)[index..]
    {
      messages := messages[..index] + [m] + messages[index..];
      mode := Full;
    }

    method ReplaceMessages(ms: seq<Message>)
      requires Valid()
      modifies this
      ensures Valid() && messages == ms
    {
      messages := ms;
      mode := Full;
    }

    method TruncateMessages(len: nat)
      requires Valid()
      modifies this
      ensures Valid() && messages == if len < |old(messages)| then old(messages)[..len] else old(messages)
    {
      if len < |messages| {
        messages := messages[..len];
        mode := Full;
      }
    }

    method PushEntry(m: Message)
      requires ArePrefixHashes(hs, cached, hashes)
      modifies `cached, `hashes
      ensures ArePrefixHashes(hs, cached, hashes) && cached == old(cached) + [m]
    {
      PrefixHashesSnoc(hs, cached, hashes, m);
      cached := cached + [m];
      hashes := hashes + [Link(hs, if hashes == [] then None else Some(hashes[|hashes| - 1]), m)];
    }

    method FillFrom(start: nat)
      requires start <= |messages| && cached == messages[..start] && ArePrefixHashes(hs, cached, hashes)
      modifies `cached, `hashes
      ensures cached == messages && ArePrefixHashes(hs, cached, hashes)
    {
      for index := start to |messages|
        invariant cached == messages[..index] && ArePrefixHashes(hs, cached, hashes)
      {
        PushEntry(messages[index]);
      }
    }

    /** The incremental prefix hashes are those of a full recomputation. */
    method ProviderMessagePrefixHashes() returns (r: seq<Hash>)
      requires Valid()
      modifies `cached, `hashes, `cachedLen, `mode
      ensures Valid() && cached == messages
      ensures ArePrefixHashes(hs, messages, r)
    {
      if mode == Full || cachedLen > |messages| {
        cached, hashes := [], [];
        FillFrom(0);
        cachedLen, mode := |messages|, Clean;
      } else if mode == Appended && cachedLen < |messages| {
        FillFrom(cachedLen);
        cachedLen, mode := |messages|, Clean;
      }
      r := hashes;
    }

    /** The short form of recording a request: no message is hashed again. */
    method RecordFast(tracker: CacheTracker) returns (v: Option<Violation>)
      requires Valid()
      modifies `cached, `hashes, `cachedLen, `mode, tracker
      ensures Valid() && messages == old(messages)
      ensures (tracker.View(), v) == Record(hs, old(tracker.View()), messages)
    {
      var previousCount := tracker.previousMessageCount;
      var prefixHashes := ProviderMessagePrefixHashes();
      var count := |prefixHashes|;
      var full := if count == 0 then None else Some(prefixHashes[count - 1]);
      var atPrevious :=
        if previousCount == 0 || previousCount > count then None else Some(prefixHashes[previousCount - 1]);
      assert messages[..|messages|] == messages;
      assert count > 0 ==> FrontHash(hs, messages, count).Some?;
      assert atPrevious.Some? ==> FrontHash(hs, messages, previousCount) == atPrevious;
      v := tracker.RecordPrefixHashSnapshot(hs, messages, count, atPrevious, full);
    }
  }
}
