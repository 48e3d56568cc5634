/** Which items a bounded heap keeps, down to the choice among equal scores. */
module TopKChoice {
  import opened Helpers

  /** Scores by their place in the total order of comparison. */
  type Score = int

  /** Heap order: by score, then by arrival. */
  predicate AtMost(scores: seq<Score>, a: nat, b: nat)
    requires a < |scores| && b < |scores|
  {
    scores[a] < scores[b] || (scores[a] == scores[b] && a <= b)
  }

  /** Output order: higher scores first, earlier items first among equal scores. */
  predicate Precedes(scores: seq<Score>, a: nat, b: nat)
    requires a < |scores| && b < |scores|
  {
    scores[a] > scores[b] || (scores[a] == scores[b] && a < b)
  }

  ghost predicate IsLeast(scores: seq<Score>, heap: set<nat>, o: nat)
    requires forall p :: p in heap ==> p < |scores|
  {
    o in heap && forall p :: p in heap ==> AtMost(scores, o, p)
  }

  /** What the heap holds after the first `n` items: as many as allowed, and none left out scores above one kept. */
  ghost predicate Holds(scores: seq<Score>, limit: nat, n: nat, heap: set<nat>)
    requires n <= |scores|
  {
    && (forall o :: o in heap ==> o < n)
    && |heap| == Min(limit, n)
    && (n <= limit ==> forall o: nat :: o < n ==> o in heap)
    && forall e: nat, o :: e < n && e !in heap && o in heap ==> scores[e] <= scores[o]
  }

  // ---------- counting ----------

  /** How many of the first `n` items score more than `v`. */
  function Above(scores: seq<Score>, n: nat, v: Score): (r: nat)
    requires n <= |scores|
    ensures r <= n
  {
    if n == 0 then 0 else Above(scores, n - 1, v) + if scores[n - 1] > v then 1 else 0
  }

  /** How many of the first `n` items score exactly `v`. */
  function Tied(scores: seq<Score>, n: nat, v: Score): (r: nat)
    requires n <= |scores|
    ensures r <= n
  {
    if n == 0 then 0 else Tied(scores, n - 1, v) + if scores[n - 1] == v then 1 else 0
  }

  /** How many of the first `n` items score at least `v`. */
  function AtLeast(scores: seq<Score>, n: nat, v: Score): nat
    requires n <= |scores|
  {
    Above(scores, n, v) + Tied(scores, n, v)
  }

  /** How many of the first `n` items come before item `o` when all are sorted. */
  function Ahead(scores: seq<Score>, n: nat, o: nat): nat
    requires n <= |scores| && o < |scores|
  {
    if n == 0 then 0 else Ahead(scores, n - 1, o) + if Precedes(scores, n - 1, o) then 1 else 0
  }

  /** The shortest prefix, up to `n`, in which `limit` items score at least `v`; `n` when there is none. */
  function Reach(scores: seq<Score>, limit: nat, n: nat, v: Score): (t: nat)
    requires n <= |scores|
    ensures t <= n
  {
    if n > 0 && AtLeast(scores, n - 1, v) >= limit then Reach(scores, limit, n - 1, v) else n
  }

  /** Items scoring above `v` that come once `limit` items scoring at least `v` are there: each costs a tied one. */
  function Late(scores: seq<Score>, limit: nat, n: nat, v: Score): int
    requires n <= |scores|
  {
    Above(scores, n, v) - Above(scores, Reach(scores, limit, n, v), v)
  }

  /** Item `o` came in time and is not among the earliest tied items that later, better ones replaced. */
  predicate Survives(scores: seq<Score>, limit: nat, n: nat, o: nat)
    requires n <= |scores| && o < |scores|
  {
    && o < Reach(scores, limit, n, scores[o])
    && Tied(scores, o, scores[o]) >= Late(scores, limit, n, scores[o])
  }

  lemma {:induction false} CountsGrow(scores: seq<Score>, m: nat, n: nat, v: Score)
    requires m <= n <= |scores|
    ensures Above(scores, m, v) <= Above(scores, n, v) <= Above(scores, m, v) + n - m
    ensures Tied(scores, m, v) <= Tied(scores, n, v) <= Tied(scores, m, v) + n - m
    decreases n
  {
    if m < n {
      CountsGrow(scores, m, n - 1, v);
    }
  }

  /** A tied item is counted from its place on. */
  lemma TiedPast(scores: seq<Score>, o: nat, n: nat)
    requires o < n <= |scores|
    ensures Tied(scores, o, scores[o]) < Tied(scores, n, scores[o])
  {
    CountsGrow(scores, o + 1, n, scores[o]);
  }

  lemma {:induction false} AboveFalls(scores: seq<Score>, n: nat, v: Score, w: Score)
    requires n <= |scores| && v < w
    ensures Above(scores, n, v) >= AtLeast(scores, n, w)
  {
    if n > 0 {
      AboveFalls(scores, n - 1, v, w);
    }
  }

  lemma {:induction false} AtMostAll(scores: seq<Score>, n: nat, v: Score)
    requires n <= |scores|
    ensures AtLeast(scores, n, v) <= n
  {
    if n > 0 {
      AtMostAll(scores, n - 1, v);
    }
  }

  /** Before the prefix is reached there is no limit to reach; from then on it stays. */
  lemma {:induction false} ReachIs(scores: seq<Score>, limit: nat, n: nat, v: Score)
    requires n <= |scores|
    ensures AtLeast(scores, n, v) < limit ==> Reach(scores, limit, n, v) == n
    ensures AtLeast(scores, n, v) >= limit > 0 ==> AtLeast(scores, Reach(scores, limit, n, v), v) == limit
    ensures limit == 0 ==> Reach(scores, limit, n, v) == 0
  {
    if n > 0 {
      ReachIs(scores, limit, n - 1, v);
    }
  }

  /** How one more item changes who survives. */
  lemma SurvivesNext(scores: seq<Score>, limit: nat, n: nat, o: nat)
    requires o < n < |scores|
    ensures AtLeast(scores, n, scores[o]) < limit ==>
      Survives(scores, limit, n, o) && Survives(scores, limit, n + 1, o)
    ensures AtLeast(scores, n, scores[o]) >= limit ==>
      (Survives(scores, limit, n + 1, o) <==>
        && o < Reach(scores, limit, n, scores[o])
        && Tied(scores, o, scores[o]) >= Late(scores, limit, n, scores[o]) + if scores[n] > scores[o] then 1 else 0)
  {
    ReachIs(scores, limit, n, scores[o]);
  }

  /** A new item comes in exactly when fewer than `limit` earlier ones score at least as much. */
  lemma SurvivesNew(scores: seq<Score>, limit: nat, n: nat)
    requires n < |scores|
    ensures Survives(scores, limit, n + 1, n) <==> AtLeast(scores, n, scores[n]) < limit
  {
  }

  /** Below the score of `limit` items nobody survives. */
  lemma NoneBelow(scores: seq<Score>, limit: nat, n: nat, o: nat)
    requires n <= |scores| && o < n && Above(scores, n, scores[o]) >= limit
    ensures !Survives(scores, limit, n, o)
  {
    var v := scores[o];
    var t := Reach(scores, limit, n, v);
    ReachIs(scores, limit, n, v);
    if o < t {
      TiedPast(scores, o, t);
    }
  }

  // ---------- the heap ----------

  /** The heap holds exactly the items that survive. */
  ghost predicate HoldsSurvivors(scores: seq<Score>, limit: nat, n: nat, heap: set<nat>)
    requires n <= |scores|
  {
    forall o: nat :: o < n ==> (o in heap <==> Survives(scores, limit, n, o))
  }

  /** A heap that holds all items scoring at least `v` has room for them. */
  lemma {:induction false} CountIn(scores: seq<Score>, n: nat, v: Score, heap: set<nat>)
    requires n <= |scores|
    requires forall o: nat :: o < n && scores[o] >= v ==> o in heap
    ensures AtLeast(scores, n, v) <= |heap|
  {
    if n > 0 {
      CountIn(scores, n - 1, v, if scores[n - 1] >= v then heap - {n - 1} else heap);
    }
  }

  lemma {:induction false} CountOut(scores: seq<Score>, n: nat, v: Score, heap: set<nat>)
    requires n <= |scores|
    requires forall p :: p in heap ==> p < n && scores[p] >= v
    ensures AtLeast(scores, n, v) >= |heap|
  {
    if n == 0 {
      assert heap == {};
    } else {
      CountOut(scores, n - 1, v, heap - {n - 1});
    }
  }

  /** While there is room everything is kept. */
  lemma RoomKeepsSurvivors(scores: seq<Score>, limit: nat, n: nat, heap: set<nat>)
    requires n < |scores| && Holds(scores, limit, n, heap) && |heap| < limit
    ensures HoldsSurvivors(scores, limit, n + 1, heap + {n})
  {
    forall o: nat | o < n + 1 ensures o in heap + {n} && Survives(scores, limit, n + 1, o) {
      AtMostAll(scores, n, scores[o]);
      if o < n {
        SurvivesNext(scores, limit, n, o);
      } else {
        SurvivesNew(scores, limit, n);
      }
    }
  }

  /** Nobody below the least score of a full heap survives, or would after one more item. */
  lemma NoneBelowLeast(scores: seq<Score>, limit: nat, n: nat, heap: set<nat>, least: nat, o: nat)
    requires o < n < |scores| && Holds(scores, limit, n, heap) && |heap| == limit && IsLeast(scores, heap, least)
    requires scores[o] < scores[least]
    ensures !Survives(scores, limit, n, o) && !Survives(scores, limit, n + 1, o)
  {
    CountOut(scores, n, scores[least], heap);
    AboveFalls(scores, n, scores[o], scores[least]);
    NoneBelow(scores, limit, n, o);
    NoneBelow(scores, limit, n + 1, o);
  }

  /** A full heap ignores an item that does not score above its least one. */
  lemma IgnoreKeepsSurvivors(scores: seq<Score>, limit: nat, n: nat, heap: set<nat>, least: nat)
    requires n < |scores| && Holds(scores, limit, n, heap) && |heap| == limit && IsLeast(scores, heap, least)
    requires HoldsSurvivors(scores, limit, n, heap) && scores[n] <= scores[least]
    ensures HoldsSurvivors(scores, limit, n + 1, heap)
  {
    forall o: nat | o < n + 1 ensures o in heap <==> Survives(scores, limit, n + 1, o) {
      if o == n {
        CountOut(scores, n, scores[n], heap);
        SurvivesNew(scores, limit, n);
      } else if scores[o] < scores[least] {
        NoneBelowLeast(scores, limit, n, heap, least, o);
      } else {
        SurvivesNext(scores, limit, n, o);
      }
    }
  }

  /** Above the least score of a full heap there are fewer items than it has room for. */
  lemma FewAboveLeast(scores: seq<Score>, limit: nat, n: nat, heap: set<nat>, least: nat, v: Score)
    requires n <= |scores| && Holds(scores, limit, n, heap) && |heap| == limit && IsLeast(scores, heap, least)
    requires v > scores[least]
    ensures AtLeast(scores, n, v) < limit
  {
    assert forall o: nat :: o < n && scores[o] >= v ==> o in heap - {least};
    CountIn(scores, n, v, heap - {least});
  }

  /** The tied item with `r` tied ones before it. */
  lemma {:induction false} FindTied(scores: seq<Score>, n: nat, v: Score, r: nat) returns (e: nat)
    requires n <= |scores| && r < Tied(scores, n, v)
    ensures e < n && scores[e] == v && Tied(scores, e, v) == r
  {
    if r < Tied(scores, n - 1, v) {
      e := FindTied(scores, n - 1, v, r);
    } else {
      e := n - 1;
    }
  }

  /** The least item is the earliest one that survives with its score. */
  lemma LeastIsNext(scores: seq<Score>, limit: nat, n: nat, heap: set<nat>, least: nat)
    requires n <= |scores| && Holds(scores, limit, n, heap) && IsLeast(scores, heap, least)
    requires HoldsSurvivors(scores, limit, n, heap)
    ensures Tied(scores, least, scores[least]) == Late(scores, limit, n, scores[least])
  {
    var v := scores[least];
    CountsGrow(scores, Reach(scores, limit, n, v), n, v);
    if Tied(scores, least, v) > Late(scores, limit, n, v) {
      var e := FindTied(scores, least, v, Late(scores, limit, n, v));
    }
  }

  /** Among the items tied with the least one, a higher score costs the least one only. */
  lemma TiedWithLeast(scores: seq<Score>, limit: nat, n: nat, heap: set<nat>, least: nat, o: nat)
    requires o < n < |scores| && Holds(scores, limit, n, heap) && |heap| == limit && IsLeast(scores, heap, least)
    requires HoldsSurvivors(scores, limit, n, heap) && scores[n] > scores[least] == scores[o]
    ensures Survives(scores, limit, n + 1, o) <==> o in heap && o != least
  {
    CountOut(scores, n, scores[least], heap);
    SurvivesNext(scores, limit, n, o);
    LeastIsNext(scores, limit, n, heap, least);
    if o in heap && o != least {
      TiedPast(scores, least, o);
    }
  }

  /** Who survives when item `n` scores above the least item of a full heap. */
  lemma SurvivesReplacement(scores: seq<Score>, limit: nat, n: nat, heap: set<nat>, least: nat, o: nat)
    requires o < n < |scores| && Holds(scores, limit, n, heap) && |heap| == limit && IsLeast(scores, heap, least)
    requires HoldsSurvivors(scores, limit, n, heap) && scores[n] > scores[least]
    ensures Survives(scores, limit, n + 1, o) <==> o in heap && o != least
  {
    if scores[o] < scores[least] {
      NoneBelowLeast(scores, limit, n, heap, least, o);
    } else if scores[o] > scores[least] {
      FewAboveLeast(scores, limit, n, heap, least, scores[o]);
      SurvivesNext(scores, limit, n, o);
    } else {
      TiedWithLeast(scores, limit, n, heap, least, o);
    }
  }

  /** A higher score replaces the least item, which is the next one to go. */
  lemma ReplaceKeepsSurvivors(scores: seq<Score>, limit: nat, n: nat, heap: set<nat>, least: nat)
    requires n < |scores| && Holds(scores, limit, n, heap) && |heap| == limit && IsLeast(scores, heap, least)
    requires HoldsSurvivors(scores, limit, n, heap) && scores[n] > scores[least]
    ensures HoldsSurvivors(scores, limit, n + 1, heap - {least} + {n})
  {
    forall o: nat | o < n + 1 ensures o in heap - {least} + {n} <==> Survives(scores, limit, n + 1, o) {
      if o == n {
        FewAboveLeast(scores, limit, n, heap, least, scores[n]);
        SurvivesNew(scores, limit, n);
      } else {
        SurvivesReplacement(scores, limit, n, heap, least, o);
      }
    }
  }

  // ---------- when the choice is that of a stable sort ----------

  /** In a stable sort from the highest score, `o` comes after all higher items and all earlier tied ones. */
  lemma {:induction false} AheadIs(scores: seq<Score>, n: nat, o: nat)
    requires n <= |scores| && o < |scores|
    ensures Ahead(scores, n, o) == Above(scores, n, scores[o]) + Tied(scores, Min(n, o), scores[o])
  {
    if n > 0 {
      AheadIs(scores, n - 1, o);
    }
  }

  /** The items kept are those a stable sort from the highest score puts first. */
  ghost predicate KeepsEarliest(scores: seq<Score>, limit: nat) {
    forall o: nat :: o < |scores| ==> (Survives(scores, limit, |scores|, o) <==> Ahead(scores, |scores|, o) < limit)
  }

  /** `v` is the score of the last item a sort would take. */
  predicate IsCut(scores: seq<Score>, limit: nat, v: Score) {
    Above(scores, |scores|, v) < limit <= AtLeast(scores, |scores|, v)
  }

  lemma SurvivesAsSorted(scores: seq<Score>, limit: nat, o: nat)
    requires o < |scores|
    requires IsCut(scores, limit, scores[o]) ==> Late(scores, limit, |scores|, scores[o]) == 0
    ensures Survives(scores, limit, |scores|, o) <==> Ahead(scores, |scores|, o) < limit
  {
    var n, v := |scores|, scores[o];
    var t := Reach(scores, limit, n, v);
    AheadIs(scores, n, o);
    ReachIs(scores, limit, n, v);
    TiedPast(scores, o, n);
    if Above(scores, n, v) >= limit {
      NoneBelow(scores, limit, n, o);
    } else if o < t {
      TiedPast(scores, o, t);
    } else {
      CountsGrow(scores, t, o, v);
    }
  }

  /**
   * The heap's choice is that of a stable sort if and only if nothing above the cut score comes after `limit`
   * items at or above it are there. Otherwise each such late item costs the earliest item at the cut.
   */
  lemma KeepsEarliestIff(scores: seq<Score>, limit: nat)
    ensures KeepsEarliest(scores, limit) <==>
      forall o: nat :: o < |scores| && IsCut(scores, limit, scores[o]) ==> Late(scores, limit, |scores|, scores[o]) == 0
  {
    var n := |scores|;
    forall o: nat | o < n && (IsCut(scores, limit, scores[o]) ==> Late(scores, limit, n, scores[o]) == 0)
      ensures Survives(scores, limit, n, o) <==> Ahead(scores, n, o) < limit
    {
      SurvivesAsSorted(scores, limit, o);
    }
    forall o: nat | o < n && IsCut(scores, limit, scores[o]) && Late(scores, limit, n, scores[o]) != 0
      ensures !KeepsEarliest(scores, limit)
    {
      var v := scores[o];
      CountsGrow(scores, Reach(scores, limit, n, v), n, v);
      var e := FindTied(scores, n, v, 0);
      AheadIs(scores, n, e);
      CountsGrow(scores, 0, e, v);
    }
  }

  /** Of two equal items the first is kept. */
  lemma TieIsIgnored(scores: seq<Score>)
    requires |scores| == 2 && scores[0] == scores[1]
    ensures Survives(scores, 1, 2, 0) && !Survives(scores, 1, 2, 1)
  {
    var v := scores[0];
    assert Tied(scores, 1, v) == 1 && Above(scores, 1, v) == 0;
    assert Reach(scores, 1, 1, v) == 1;
  }

  /** Two equal items and then a better one: of the two the second is kept. */
  lemma BetterCostsEarliest(scores: seq<Score>)
    requires |scores| == 3 && scores[0] == scores[1] < scores[2]
    ensures !Survives(scores, 2, 3, 0) && Survives(scores, 2, 3, 1) && Survives(scores, 2, 3, 2)
  {
    var v := scores[0];
    assert Tied(scores, 1, v) == 1 && Above(scores, 1, v) == 0;
    assert Tied(scores, 2, v) == 2 && Above(scores, 2, v) == 0;
    assert Reach(scores, 2, 2, v) == 2;
    assert Late(scores, 2, 3, v) == 1;
    SurvivesNew(scores, 2, 2);
    AboveFalls(scores, 2, v, scores[2]);
  }
}
