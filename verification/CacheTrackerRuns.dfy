/** What the tracker's verdicts mean over a whole sequence of requests. */
module CacheTrackerRuns {
  import opened Options
  import opened Messages
  import opened CacheTracking

  datatype Event = Request(messages: seq<Message>) | ResetAll

  function Next(hs: Hashing, t: Tracker, e: Event): Tracker {
    if e.Request? then Record(hs, t, e.messages).0 else Blank()
  }

  function Run(hs: Hashing, events: seq<Event>): Tracker {
    if events == [] then Blank() else Next(hs, Run(hs, events[..|events| - 1]), events[|events| - 1])
  }

  /** The request made last since the last reset. */
  function Previous(events: seq<Event>): Option<seq<Message>> {
    if events == [] || events[|events| - 1].ResetAll? then None else Some(events[|events| - 1].messages)
  }

  /** Hashes of the requests since the last reset. */
  function Hashes(hs: Hashing, events: seq<Event>): seq<Hash> {
    if events == [] || events[|events| - 1].ResetAll? then []
    else Hashes(hs, events[..|events| - 1]) + [OrZero(FullHash(hs, events[|events| - 1].messages))]
  }

  function LastUpTo(hashes: seq<Hash>, n: nat): seq<Hash> {
    if |hashes| <= n then hashes else hashes[|hashes| - n..]
  }

  /** The tracker remembers the previous request by length and hash, and the last ten hashes. */
  lemma {:induction false} RunRemembers(hs: Hashing, events: seq<Event>)
    ensures var t := Run(hs, events); var p := Previous(events);
      && (p.None? ==> t == Blank())
      && (p.Some? ==>
            && t.turnCount > 0 && t.previousCount == |p.value|
            && t.previousHash == Some(OrZero(FullHash(hs, p.value))))
      && t.hashHistory == LastUpTo(Hashes(hs, events), MAX_HISTORY)
      && t.turnCount == |Hashes(hs, events)|
  {
    if events != [] {
      RunRemembers(hs, events[..|events| - 1]);
    }
  }

  /** The verdict on the next request. */
  function Verdict(hs: Hashing, events: seq<Event>, ms: seq<Message>): Option<Violation> {
    Record(hs, Run(hs, events), ms).1
  }

  /** Without any assumption on hashes: a violation means removed messages or a different prefix hash. */
  lemma VerdictIsHashComparison(hs: Hashing, events: seq<Event>, ms: seq<Message>)
    ensures var p := Previous(events);
      Verdict(hs, events, ms).Some? <==>
        p.Some? && (|ms| < |p.value| || FullHash(hs, ms[..|p.value|]) != FullHash(hs, p.value))
  {
    RunRemembers(hs, events);
  }

  /** What a report tells: which request it is, and either how many messages it had and has, or which hashes differ. */
  lemma VerdictTells(hs: Hashing, events: seq<Event>, ms: seq<Message>)
    requires Verdict(hs, events, ms).Some?
    ensures var p := Previous(events); var v := Verdict(hs, events, ms).value;
      && p.Some? && v.turn == |Hashes(hs, events)| + 1
      && (v.MessagesRemoved? <==> |ms| < |p.value|)
      && (v.MessagesRemoved? ==> v.had == |p.value| && v.have == |ms|)
      && (v.PrefixModified? ==>
            && v.count == |p.value| && Some(v.expected) == FullHash(hs, p.value)
            && Some(v.actual) == FullHash(hs, ms[..|p.value|]) && v.expected != v.actual)
  {
    RunRemembers(hs, events);
  }

  /** No false alarm, whatever the hashes are: an extended request is never reported. */
  lemma ExtensionIsNeverReported(hs: Hashing, events: seq<Event>, ms: seq<Message>)
    requires Previous(events).Some? ==> Previous(events).value <= ms
    ensures Verdict(hs, events, ms).None?
  {
    VerdictIsHashComparison(hs, events, ms);
    if Previous(events).Some? {
      assert ms[..|Previous(events).value|] == Previous(events).value;
    }
  }

  // ---------- no collisions ----------

  /** Prefix hashes that occur while hashing `ms`. */
  ghost predicate Occurs(hs: Hashing, ms: seq<Message>, h: Hash) {
    exists i :: 0 < i <= |ms| && FullHash(hs, ms[..i]) == Some(h)
  }

  /** Hashing does not confuse any two links that occur in these two message lists. */
  ghost predicate NoCollision(hs: Hashing, a: seq<Message>, b: seq<Message>) {
    && (forall x, y :: x in a && y in b && hs.stable(x) == hs.stable(y) ==> x == y)
    && (forall g, h, x, y ::
          (&& Occurs(hs, a, g) && Occurs(hs, b, h) && x in a && y in b
           && hs.extend(g, hs.stable(x)) == hs.extend(h, hs.stable(y)))
          ==> g == h && hs.stable(x) == hs.stable(y))
  }

  lemma NoCollisionOnFronts(hs: Hashing, a: seq<Message>, b: seq<Message>, i: nat, j: nat)
    requires NoCollision(hs, a, b) && i <= |a| && j <= |b|
    ensures NoCollision(hs, a[..i], b[..j])
  {
    forall h | Occurs(hs, a[..i], h) ensures Occurs(hs, a, h) {
      var k :| 0 < k <= i && FullHash(hs, a[..i][..k]) == Some(h);
      assert a[..i][..k] == a[..k];
    }
    forall h | Occurs(hs, b[..j], h) ensures Occurs(hs, b, h) {
      var k :| 0 < k <= j && FullHash(hs, b[..j][..k]) == Some(h);
      assert b[..j][..k] == b[..k];
    }
  }

  /** Equal hashes have equal last links, and what comes before these has equal hashes. */
  lemma EqualLastLinks(hs: Hashing, a: seq<Message>, b: seq<Message>, n: nat)
    requires NoCollision(hs, a, b) && |a| == |b| == n + 1
    requires FullHash(hs, a) == FullHash(hs, b)
    ensures a[n] == b[n] && FullHash(hs, a[..n]) == FullHash(hs, b[..n])
  {
    assert a[n] in a && b[n] in b;
    if n > 0 {
      assert Occurs(hs, a, FullHash(hs, a[..n]).value) && Occurs(hs, b, FullHash(hs, b[..n]).value);
    }
  }

  /** Equally long lists with equal hashes are equal. */
  lemma {:induction false} EqualHashes(hs: Hashing, a: seq<Message>, b: seq<Message>)
    requires NoCollision(hs, a, b) && |a| == |b|
    requires FullHash(hs, a) == FullHash(hs, b)
    ensures a == b
  {
    if a != [] {
      var n := |a| - 1;
      EqualLastLinks(hs, a, b, n);
      NoCollisionOnFronts(hs, a, b, n, n);
      EqualHashes(hs, a[..n], b[..n]);
      assert a == a[..n] + [a[n]] && b == b[..n] + [b[n]];
    }
  }

  /** Without collisions a violation is reported exactly when the previous request is not a prefix. */
  lemma ReportedIffNotPrefix(hs: Hashing, events: seq<Event>, ms: seq<Message>)
    requires Previous(events).Some? ==> NoCollision(hs, Previous(events).value, ms)
    ensures Verdict(hs, events, ms).Some? <==> Previous(events).Some? && !(Previous(events).value <= ms)
  {
    VerdictIsHashComparison(hs, events, ms);
    var p := Previous(events);
    if p.Some? && p.value <= ms {
      assert ms[..|p.value|] == p.value;
    } else if p.Some? && |p.value| <= |ms| && FullHash(hs, ms[..|p.value|]) == FullHash(hs, p.value) {
      NoCollisionOnFronts(hs, p.value, ms, |p.value|, |p.value|);
      assert p.value[..|p.value|] == p.value;
      EqualHashes(hs, p.value, ms[..|p.value|]);
    }
  }

  // ---------- whole runs ----------

  ghost predicate NoCollisions(hs: Hashing, requests: seq<seq<Message>>) {
    forall i :: 0 < i < |requests| ==> NoCollision(hs, requests[i - 1], requests[i])
  }

  function Requests(requests: seq<seq<Message>>): seq<Event> {
    if requests == [] then []
    else Requests(requests[..|requests| - 1]) + [Request(requests[|requests| - 1])]
  }

  /** No request of the run was reported. */
  ghost predicate Silent(hs: Hashing, requests: seq<seq<Message>>) {
    forall i :: 0 <= i < |requests| ==> Verdict(hs, Requests(requests[..i]), requests[i]).None?
  }

  /** Every request starts with every earlier one. */
  ghost predicate PrefixChain(requests: seq<seq<Message>>) {
    forall i, j :: 0 <= i <= j < |requests| ==> requests[i] <= requests[j]
  }

  lemma PreviousOfRequests(requests: seq<seq<Message>>)
    ensures Previous(Requests(requests)) == if requests == [] then None else Some(requests[|requests| - 1])
  {
  }

  lemma {:induction false} StepsMakeChain(requests: seq<seq<Message>>, i: nat, j: nat)
    requires forall k :: 0 < k < |requests| ==> requests[k - 1] <= requests[k]
    requires i <= j < |requests|
    ensures requests[i] <= requests[j]
    decreases j
  {
    if i < j {
      StepsMakeChain(requests, i, j - 1);
      assert requests[j - 1] <= requests[j];
    }
  }

  /** A run since a reset is silent exactly when its requests form a prefix chain. */
  lemma SilentIffPrefixChain(hs: Hashing, requests: seq<seq<Message>>)
    requires NoCollisions(hs, requests)
    ensures Silent(hs, requests) <==> PrefixChain(requests)
  {
    forall i | 0 <= i < |requests|
      ensures Verdict(hs, Requests(requests[..i]), requests[i]).None? <==> i == 0 || requests[i - 1] <= requests[i]
    {
      PreviousOfRequests(requests[..i]);
      ReportedIffNotPrefix(hs, Requests(requests[..i]), requests[i]);
    }
    if Silent(hs, requests) {
      forall k | 0 < k < |requests| ensures requests[k - 1] <= requests[k] {
        assert Verdict(hs, Requests(requests[..k]), requests[k]).None?;
      }
      forall i, j | 0 <= i <= j < |requests| ensures requests[i] <= requests[j] {
        StepsMakeChain(requests, i, j);
      }
    }
  }
}
