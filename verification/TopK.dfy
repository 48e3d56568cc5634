/** Keeping the best-scoring items of a stream in a bounded heap. */
module TopK {
  import opened Helpers
  import opened TopKChoice

  /** Every ordinal names an item. */
  predicate Within(scores: seq<Score>, ordinals: seq<nat>) {
    forall i :: 0 <= i < |ordinals| ==> ordinals[i] < |scores|
  }

  predicate InOrder(scores: seq<Score>, ordinals: seq<nat>)
    requires Within(scores, ordinals)
  {
    ordinals == [] ||
    ((forall o :: o in ordinals[1..] ==> Precedes(scores, ordinals[0], o)) && InOrder(scores, ordinals[1..]))
  }

  /** `ordinals` names a best possible choice of at most `limit` items, in output order. */
  ghost predicate IsTopK(scores: seq<Score>, limit: nat, ordinals: seq<nat>) {
    && Within(scores, ordinals)
    && |ordinals| == Min(limit, |scores|)
    && InOrder(scores, ordinals)
    && (|scores| <= limit ==> forall o: nat :: o < |scores| ==> o in ordinals)
    && forall e: nat, o :: e < |scores| && e !in ordinals && o in ordinals ==> scores[e] <= scores[o]
  }

  // ---------- the heap ----------

  method PeekLeast(scores: seq<Score>, heap: set<nat>) returns (least: nat)
    requires heap != {} && forall p :: p in heap ==> p < |scores|
    ensures IsLeast(scores, heap, least)
  {
    least :| least in heap;
    var left := heap - {least};
    while left != {}
      invariant left <= heap && least in heap
      invariant forall p :: p in heap && p !in left ==> AtMost(scores, least, p)
      decreases |left|
    {
      var p :| p in left;
      if !AtMost(scores, least, p) {
        least := p;
      }
      left := left - {p};
    }
  }

  /** A full heap takes a new item only for a strictly smaller least one. */
  lemma ReplaceLeast(scores: seq<Score>, limit: nat, n: nat, heap: set<nat>, least: nat)
    requires n < |scores| && Holds(scores, limit, n, heap) && |heap| == limit && IsLeast(scores, heap, least)
    ensures scores[n] > scores[least] ==> Holds(scores, limit, n + 1, heap - {least} + {n})
    ensures scores[n] <= scores[least] ==> Holds(scores, limit, n + 1, heap)
  {
    var without := heap - {least};
    assert |without| == |heap| - 1 && n !in without;
    assert |without + {n}| == |heap|;
  }

  method FillHeap(scores: seq<Score>, limit: nat) returns (heap: set<nat>)
    requires limit > 0
    ensures Holds(scores, limit, |scores|, heap)
    ensures HoldsSurvivors(scores, limit, |scores|, heap)
  {
    heap := {};
    for n := 0 to |scores|
      invariant Holds(scores, limit, n, heap) && HoldsSurvivors(scores, limit, n, heap)
    {
      heap := PushOrReplace(scores, limit, n, heap);
    }
  }

  lemma RoomHolds(scores: seq<Score>, limit: nat, n: nat, heap: set<nat>)
    requires n < |scores| && Holds(scores, limit, n, heap) && |heap| < limit
    ensures Holds(scores, limit, n + 1, heap + {n})
  {
    assert n !in heap;
  }

  /** Offers item `n` to the heap. */
  method PushOrReplace(scores: seq<Score>, limit: nat, n: nat, heap0: set<nat>) returns (heap: set<nat>)
    requires limit > 0 && n < |scores|
    requires Holds(scores, limit, n, heap0) && HoldsSurvivors(scores, limit, n, heap0)
    ensures Holds(scores, limit, n + 1, heap) && HoldsSurvivors(scores, limit, n + 1, heap)
  {
    heap := heap0;
    if |heap| < limit {
      RoomHolds(scores, limit, n, heap);
      RoomKeepsSurvivors(scores, limit, n, heap);
      heap := heap + {n};
    } else {
      var smallest := PeekLeast(scores, heap);
      ReplaceLeast(scores, limit, n, heap, smallest);
      if scores[n] > scores[smallest] {
        ReplaceKeepsSurvivors(scores, limit, n, heap, smallest);
        heap := heap - {smallest} + {n};
      } else {
        IgnoreKeepsSurvivors(scores, limit, n, heap, smallest);
      }
    }
  }

  // ---------- the final sort ----------

  lemma HeadTail<T>(s: seq<T>)
    requires s != []
    ensures multiset(s) == multiset{s[0]} + multiset(s[1..])
    ensures forall x :: x in s <==> x == s[0] || x in s[1..]
  {
    assert s == [s[0]] + s[1..];
  }

  /** Inserts one ordinal into an ordered list. */
  function InsertOrdered(scores: seq<Score>, ordinals: seq<nat>, o: nat): (r: seq<nat>)
    requires o < |scores| && Within(scores, ordinals)
    ensures Within(scores, r)
  {
    if ordinals == [] then [o]
    else if Precedes(scores, o, ordinals[0]) then [o] + ordinals
    else [ordinals[0]] + InsertOrdered(scores, ordinals[1..], o)
  }

  lemma OrderedCons(scores: seq<Score>, o: nat, rest: seq<nat>)
    requires o < |scores| && Within(scores, rest) && InOrder(scores, rest)
    requires forall p :: p in rest ==> Precedes(scores, o, p)
    ensures Within(scores, [o] + rest) && InOrder(scores, [o] + rest)
  {
    assert ([o] + rest)[1..] == rest;
  }

  lemma {:induction false} InsertOrderedBag(scores: seq<Score>, ordinals: seq<nat>, o: nat)
    requires o < |scores| && Within(scores, ordinals)
    ensures multiset(InsertOrdered(scores, ordinals, o)) == multiset(ordinals) + multiset{o}
    ensures forall p :: p in InsertOrdered(scores, ordinals, o) <==> p in ordinals || p == o
  {
    if ordinals != [] {
      HeadTail(ordinals);
      InsertOrderedBag(scores, ordinals[1..], o);
    }
  }

  lemma {:induction false} InsertOrderedOk(scores: seq<Score>, ordinals: seq<nat>, o: nat)
    requires o < |scores| && Within(scores, ordinals)
    requires o !in ordinals && InOrder(scores, ordinals)
    ensures InOrder(scores, InsertOrdered(scores, ordinals, o))
  {
    if ordinals != [] {
      HeadTail(ordinals);
      if Precedes(scores, o, ordinals[0]) {
        OrderedCons(scores, o, ordinals);
      } else {
        var rest := ordinals[1..];
        InsertOrderedOk(scores, rest, o);
        InsertOrderedBag(scores, rest, o);
        assert Precedes(scores, ordinals[0], o);
        OrderedCons(scores, ordinals[0], InsertOrdered(scores, rest, o));
      }
    }
  }

  method SortHeap(scores: seq<Score>, heap: set<nat>) returns (ordinals: seq<nat>)
    requires forall p :: p in heap ==> p < |scores|
    ensures forall o :: o in ordinals <==> o in heap
    ensures Within(scores, ordinals)
    ensures InOrder(scores, ordinals) && |ordinals| == |heap|
  {
    ordinals := [];
    var left := heap;
    while left != {}
      invariant left <= heap
      invariant forall o :: o in ordinals <==> o in heap && o !in left
      invariant Within(scores, ordinals) && InOrder(scores, ordinals) && |ordinals| + |left| == |heap|
      decreases |left|
    {
      var o :| o in left;
      InsertOrderedOk(scores, ordinals, o);
      InsertOrderedBag(scores, ordinals, o);
      assert |multiset(InsertOrdered(scores, ordinals, o))| == |ordinals| + 1;
      ordinals := InsertOrdered(scores, ordinals, o);
      left := left - {o};
    }
  }

  function Scores<T>(items: seq<(T, Score)>): (r: seq<Score>)
    ensures |r| == |items| && forall i :: 0 <= i < |items| ==> r[i] == items[i].1
  {
    if items == [] then [] else Scores(items[..|items| - 1]) + [items[|items| - 1].1]
  }

  /** `results` are the items with these ordinals, in that order. */
  ghost predicate Picks<T>(items: seq<(T, Score)>, ordinals: seq<nat>, results: seq<(T, Score)>) {
    && |results| == |ordinals|
    && forall i :: 0 <= i < |results| ==> ordinals[i] < |items| && results[i] == items[ordinals[i]]
  }

  /** `ordinals` names exactly the items that survive. */
  ghost predicate NamesSurvivors(scores: seq<Score>, limit: nat, ordinals: seq<nat>) {
    HoldsSurvivors(scores, limit, |scores|, AsSet(ordinals))
  }

  /** `results` are the surviving items, a best possible choice of at most `limit`, in output order. */
  ghost predicate IsBest<T>(items: seq<(T, Score)>, limit: nat, results: seq<(T, Score)>) {
    exists ordinals :: IsTopK(Scores(items), limit, ordinals) && NamesSurvivors(Scores(items), limit, ordinals)
      && Picks(items, ordinals, results)
  }

  lemma NobodySurvives(scores: seq<Score>)
    ensures IsTopK(scores, 0, []) && NamesSurvivors(scores, 0, [])
  {
    forall o: nat | o < |scores| ensures !Survives(scores, 0, |scores|, o) {
      ReachIs(scores, 0, |scores|, scores[o]);
    }
  }

  method PickAll<T>(items: seq<(T, Score)>, ordinals: seq<nat>) returns (results: seq<(T, Score)>)
    requires forall i :: 0 <= i < |ordinals| ==> ordinals[i] < |items|
    ensures Picks(items, ordinals, results)
  {
    results := [];
    for i := 0 to |ordinals|
      invariant |results| == i && forall k :: 0 <= k < i ==> results[k] == items[ordinals[k]]
    {
      results := results + [items[ordinals[i]]];
    }
  }

  /** Listing the final heap in order names the survivors. */
  lemma ListedIsTopK(scores: seq<Score>, limit: nat, heap: set<nat>, sorted: seq<nat>)
    requires Holds(scores, limit, |scores|, heap) && HoldsSurvivors(scores, limit, |scores|, heap)
    requires (forall o :: o in sorted <==> o in heap) && |sorted| == |heap|
    requires Within(scores, sorted) && InOrder(scores, sorted)
    ensures IsTopK(scores, limit, sorted) && NamesSurvivors(scores, limit, sorted)
  {
    assert AsSet(sorted) == heap;
  }

  method TopKScored<T>(items: seq<(T, Score)>, limit: nat) returns (results: seq<(T, Score)>)
    ensures IsBest(items, limit, results)
  {
    if limit == 0 {
      results := [];
      NobodySurvives(Scores(items));
      assert Picks(items, [], results);
      return;
    }
    var scores := Scores(items);
    var heap := FillHeap(scores, limit);
    var sorted := SortHeap(scores, heap);
    ListedIsTopK(scores, limit, heap, sorted);
    results := PickAll(items, sorted);
  }

  // ---------- the scores are those of a full sort ----------

  predicate Falling(s: seq<Score>) {
    s == [] || ((forall x :: x in s[1..] ==> x <= s[0]) && Falling(s[1..]))
  }

  function InsertFalling(s: seq<Score>, x: Score): seq<Score> {
    if s == [] then [x]
    else if x >= s[0] then [x] + s
    else [s[0]] + InsertFalling(s[1..], x)
  }

  /** All scores, highest first. */
  function SortFalling(s: seq<Score>): seq<Score> {
    if s == [] then [] else InsertFalling(SortFalling(s[1..]), s[0])
  }

  lemma {:induction false} InsertFallingOk(s: seq<Score>, x: Score)
    requires Falling(s)
    ensures var r := InsertFalling(s, x);
      && multiset(r) == multiset(s) + multiset{x}
      && (forall y :: y in r <==> y in s || y == x)
      && Falling(r)
  {
    if s != [] {
      HeadTail(s);
      if x >= s[0] {
        assert ([x] + s)[1..] == s;
      } else {
        InsertFallingOk(s[1..], x);
        var rest := InsertFalling(s[1..], x);
        assert ([s[0]] + rest)[1..] == rest;
      }
    }
  }

  lemma {:induction false} SortFallingOk(s: seq<Score>)
    ensures Falling(SortFalling(s)) && multiset(SortFalling(s)) == multiset(s)
    ensures forall x :: x in SortFalling(s) <==> x in s
  {
    if s != [] {
      HeadTail(s);
      SortFallingOk(s[1..]);
      InsertFallingOk(SortFalling(s[1..]), s[0]);
    }
  }

  lemma {:induction false} FallingUnique(a: seq<Score>, b: seq<Score>)
    requires Falling(a) && Falling(b) && multiset(a) == multiset(b)
    ensures a == b
  {
    if a == [] || b == [] {
      assert |multiset(a)| == |a| && |multiset(b)| == |b|;
    } else {
      HeadTail(a);
      HeadTail(b);
      assert a[0] in multiset(a) && b[0] in multiset(b);
      assert a[0] in b && b[0] in a;
      CancelOne(multiset(a[1..]), multiset(b[1..]), a[0]);
      FallingUnique(a[1..], b[1..]);
      assert a == [a[0]] + a[1..] && b == [b[0]] + b[1..];
    }
  }

  lemma FallingCons(x: Score, s: seq<Score>)
    requires Falling(s) && forall y :: y in s ==> y <= x
    ensures Falling([x] + s)
  {
    assert ([x] + s)[1..] == s;
  }

  lemma {:induction false} FallingConcat(a: seq<Score>, b: seq<Score>)
    requires Falling(a) && Falling(b) && forall x, y :: x in a && y in b ==> y <= x
    ensures Falling(a + b)
  {
    if a == [] {
      assert a + b == b;
    } else {
      HeadTail(a);
      FallingConcat(a[1..], b);
      forall y | y in a[1..] + b ensures y <= a[0] {
        assert a[0] in a && (y in a[1..] || y in b);
      }
      FallingCons(a[0], a[1..] + b);
      assert a + b == [a[0]] + (a[1..] + b);
    }
  }

  /** The scores of the named items, in that order. */
  function At(scores: seq<Score>, ordinals: seq<nat>): (r: seq<Score>)
    requires Within(scores, ordinals)
    ensures |r| == |ordinals|
  {
    if ordinals == [] then [] else [scores[ordinals[0]]] + At(scores, ordinals[1..])
  }

  lemma {:induction false} AtConcat(scores: seq<Score>, p: seq<nat>, q: seq<nat>)
    requires Within(scores, p) && Within(scores, q)
    ensures At(scores, p + q) == At(scores, p) + At(scores, q)
  {
    if p == [] {
      assert p + q == q;
    } else {
      assert (p + q)[1..] == p[1..] + q;
      AtConcat(scores, p[1..], q);
    }
  }

  lemma {:induction false} AtMembers(scores: seq<Score>, p: seq<nat>, x: Score) returns (o: nat)
    requires Within(scores, p) && x in At(scores, p)
    ensures o in p && o < |scores| && scores[o] == x
  {
    if x == scores[p[0]] {
      o := p[0];
    } else {
      HeadTail(At(scores, p));
      o := AtMembers(scores, p[1..], x);
    }
  }

  lemma BagWithout<T>(before: seq<T>, x: T, after: seq<T>)
    ensures multiset(before + ([x] + after)) == multiset{x} + multiset(before + after)
  {
    assert multiset([x] + after) == multiset{x} + multiset(after);
  }

  lemma AtCons(scores: seq<Score>, o: nat, after: seq<nat>)
    requires Within(scores, after) && o < |scores|
    ensures Within(scores, [o] + after) && At(scores, [o] + after) == [scores[o]] + At(scores, after)
  {
    assert ([o] + after)[1..] == after;
  }

  lemma WithinWithout(scores: seq<Score>, before: seq<nat>, o: nat, after: seq<nat>)
    requires Within(scores, before) && Within(scores, after) && o < |scores|
    ensures Within(scores, before + ([o] + after)) && Within(scores, before + after)
  {
  }

  /** The scores around one ordinal, with it and without it. */
  lemma AtAround(scores: seq<Score>, before: seq<nat>, o: nat, after: seq<nat>) returns (b: seq<Score>, a: seq<Score>)
    requires Within(scores, before) && Within(scores, after) && o < |scores|
    ensures Within(scores, before + ([o] + after)) && At(scores, before + ([o] + after)) == b + ([scores[o]] + a)
    ensures Within(scores, before + after) && At(scores, before + after) == b + a
  {
    WithinWithout(scores, before, o, after);
    AtCons(scores, o, after);
    AtConcat(scores, before, [o] + after);
    AtConcat(scores, before, after);
    b, a := At(scores, before), At(scores, after);
  }

  /** Taking one ordinal out takes its score out. */
  lemma AtWithout(scores: seq<Score>, before: seq<nat>, o: nat, after: seq<nat>)
    requires Within(scores, before) && Within(scores, after) && o < |scores|
    ensures Within(scores, before + ([o] + after)) && Within(scores, before + after)
    ensures multiset(before + ([o] + after)) == multiset{o} + multiset(before + after)
    ensures multiset(At(scores, before + ([o] + after))) == multiset{scores[o]} + multiset(At(scores, before + after))
  {
    var b, a := AtAround(scores, before, o, after);
    BagWithout(before, o, after);
    BagWithout(b, scores[o], a);
  }

  lemma SplitAt<T>(q: seq<T>, o: T) returns (before: seq<T>, after: seq<T>)
    requires o in q
    ensures q == before + ([o] + after)
  {
    var k :| 0 <= k < |q| && q[k] == o;
    before, after := q[..k], q[k + 1..];
  }

  lemma WithinParts(scores: seq<Score>, before: seq<nat>, o: nat, after: seq<nat>)
    requires Within(scores, before + ([o] + after))
    ensures Within(scores, before) && Within(scores, after) && o < |scores|
  {
    var q := before + ([o] + after);
    assert q[|before|] == o;
    assert forall i :: 0 <= i < |before| ==> before[i] == q[i];
    assert forall i :: 0 <= i < |after| ==> after[i] == q[|before| + 1 + i];
  }

  lemma CancelOne<T>(a: multiset<T>, b: multiset<T>, o: T)
    requires multiset{o} + a == multiset{o} + b
    ensures a == b
  {
    assert a == multiset{o} + a - multiset{o};
    assert b == multiset{o} + b - multiset{o};
  }

  /** Rearranging the ordinals rearranges the scores. */
  lemma {:induction false} AtPermuted(scores: seq<Score>, p: seq<nat>, q: seq<nat>)
    requires Within(scores, p) && Within(scores, q)
    requires multiset(p) == multiset(q)
    ensures multiset(At(scores, p)) == multiset(At(scores, q))
    decreases |p|
  {
    if p == [] {
      assert |multiset(q)| == |q|;
    } else {
      var o := p[0];
      assert o in multiset(p) && o in p && o in q;
      var b, a := SplitAt(p, o);
      var b', a' := SplitAt(q, o);
      WithinParts(scores, b, o, a);
      WithinParts(scores, b', o, a');
      AtWithout(scores, b, o, a);
      AtWithout(scores, b', o, a');
      CancelOne(multiset(b + a), multiset(b' + a'), o);
      AtPermuted(scores, b + a, b' + a');
    }
  }

  /** Ordinals below `n` that are not in `out`. */
  function Rest(n: nat, out: set<nat>): (r: seq<nat>)
    ensures forall i :: 0 <= i < |r| ==> r[i] < n
  {
    if n == 0 then [] else if n - 1 in out then Rest(n - 1, out) else Rest(n - 1, out) + [n - 1]
  }

  lemma {:induction false} AtAll(scores: seq<Score>, n: nat)
    requires n <= |scores|
    ensures At(scores, Rest(n, {})) == scores[..n]
  {
    if n > 0 {
      AtAll(scores, n - 1);
      AtConcat(scores, Rest(n - 1, {}), [n - 1]);
      AtOne(scores, n - 1);
      assert scores[..n] == scores[..n - 1] + [scores[n - 1]];
    }
  }

  lemma AtOne(scores: seq<Score>, o: nat)
    requires o < |scores|
    ensures At(scores, [o]) == [scores[o]]
  {
    assert [o][1..] == [];
  }

  lemma CountSnoc<T>(s: seq<T>, x: T, o: T)
    ensures multiset(s + [x])[o] == multiset(s)[o] + if x == o then 1 else 0
  {
    assert multiset(s + [x]) == multiset(s) + multiset{x};
  }

  lemma OnceMore(rest: seq<nat>, n: nat, out: set<nat>, o: nat)
    requires multiset(rest)[o] == if o < n && o !in out then 1 else 0
    ensures n in out ==> multiset(rest)[o] == if o < n + 1 && o !in out then 1 else 0
    ensures n !in out ==> multiset(rest + [n])[o] == if o < n + 1 && o !in out then 1 else 0
  {
    CountSnoc(rest, n, o);
  }

  lemma {:induction false} RestOnce(n: nat, out: set<nat>, o: nat)
    ensures multiset(Rest(n, out))[o] == if o < n && o !in out then 1 else 0
  {
    var rest := RestCounted(n, out, o);
  }

  lemma RestNext(n: nat, out: set<nat>, rest: seq<nat>)
    requires rest == Rest(n, out)
    ensures Rest(n + 1, out) == if n in out then rest else rest + [n]
  {
  }

  lemma {:induction false} RestCounted(n: nat, out: set<nat>, o: nat) returns (rest: seq<nat>)
    ensures rest == Rest(n, out)
    ensures multiset(rest)[o] == if o < n && o !in out then 1 else 0
  {
    if n == 0 {
      rest := [];
    } else {
      rest := RestCounted(n - 1, out, o);
      RestNext(n - 1, out, rest);
      OnceMore(rest, n - 1, out, o);
      if n - 1 !in out {
        rest := rest + [n - 1];
      }
    }
  }

  lemma {:induction false} OrderedOnce(scores: seq<Score>, ordinals: seq<nat>, o: nat)
    requires Within(scores, ordinals) && InOrder(scores, ordinals)
    ensures multiset(ordinals)[o] == if o in ordinals then 1 else 0
  {
    if ordinals != [] {
      HeadTail(ordinals);
      OrderedOnce(scores, ordinals[1..], o);
    }
  }

  lemma CountsTogether(scores: seq<Score>, ordinals: seq<nat>)
    requires Within(scores, ordinals) && InOrder(scores, ordinals)
    ensures multiset(ordinals + Rest(|scores|, AsSet(ordinals))) == multiset(Rest(|scores|, {}))
  {
    forall o: nat ensures multiset(ordinals + Rest(|scores|, AsSet(ordinals)))[o] == multiset(Rest(|scores|, {}))[o] {
      OrderedOnce(scores, ordinals, o);
      RestOnce(|scores|, AsSet(ordinals), o);
      RestOnce(|scores|, {}, o);
    }
  }

  /** The chosen and the left out together are all items. */
  lemma TogetherAll(scores: seq<Score>, ordinals: seq<nat>)
    requires Within(scores, ordinals) && InOrder(scores, ordinals)
    ensures multiset(At(scores, ordinals)) + multiset(At(scores, Rest(|scores|, AsSet(ordinals)))) == multiset(scores)
  {
    var n := |scores|;
    CountsTogether(scores, ordinals);
    AtPermuted(scores, ordinals + Rest(n, AsSet(ordinals)), Rest(n, {}));
    AtConcat(scores, ordinals, Rest(n, AsSet(ordinals)));
    AtAll(scores, n);
    assert scores[..n] == scores;
  }

  lemma {:induction false} OrderedFalls(scores: seq<Score>, ordinals: seq<nat>)
    requires Within(scores, ordinals) && InOrder(scores, ordinals)
    ensures Falling(At(scores, ordinals))
  {
    if ordinals != [] {
      OrderedFalls(scores, ordinals[1..]);
      forall x | x in At(scores, ordinals[1..]) ensures x <= scores[ordinals[0]] {
        var o := AtMembers(scores, ordinals[1..], x);
      }
      assert At(scores, ordinals)[1..] == At(scores, ordinals[1..]);
    }
  }

  /** The output's scores are the first `min(limit, n)` of all scores sorted from the highest. */
  lemma TopKIsSortAndTake(scores: seq<Score>, limit: nat, ordinals: seq<nat>)
    requires IsTopK(scores, limit, ordinals)
    ensures Min(limit, |scores|) <= |SortFalling(scores)|
    ensures At(scores, ordinals) == SortFalling(scores)[..Min(limit, |scores|)]
  {
    var rest := Rest(|scores|, AsSet(ordinals));
    TogetherAll(scores, ordinals);
    var top, low := At(scores, ordinals), SortFalling(At(scores, rest));
    OrderedFalls(scores, ordinals);
    SortFallingOk(At(scores, rest));
    SortFallingOk(scores);
    forall x, y | x in top && y in low ensures y <= x {
      var o := AtMembers(scores, ordinals, x);
      var e := AtMembers(scores, rest, y);
      RestOnce(|scores|, AsSet(ordinals), e);
      assert e in multiset(rest);
    }
    FallingConcat(top, low);
    FallingUnique(top + low, SortFalling(scores));
    assert (top + low)[..|top|] == top;
  }

  lemma {:induction false} AtIndex(scores: seq<Score>, ordinals: seq<nat>, i: nat)
    requires Within(scores, ordinals) && i < |ordinals|
    ensures At(scores, ordinals)[i] == scores[ordinals[i]]
  {
    if i > 0 {
      AtIndex(scores, ordinals[1..], i - 1);
    }
  }

  /** So sorting everything and taking the front gives the same scores. */
  lemma BestIsSortAndTake<T>(items: seq<(T, Score)>, limit: nat, results: seq<(T, Score)>)
    requires IsBest(items, limit, results)
    ensures |results| == Min(limit, |items|) <= |SortFalling(Scores(items))|
    ensures Scores(results) == SortFalling(Scores(items))[..|results|]
  {
    var ordinals :| IsTopK(Scores(items), limit, ordinals) && NamesSurvivors(Scores(items), limit, ordinals)
      && Picks(items, ordinals, results);
    TopKIsSortAndTake(Scores(items), limit, ordinals);
    forall i | 0 <= i < |results| ensures Scores(results)[i] == At(Scores(items), ordinals)[i] {
      AtIndex(Scores(items), ordinals, i);
    }
  }

  lemma HasMember<T>(s: seq<T>) returns (x: T)
    requires s != []
    ensures x in s
  {
    x := s[0];
  }

  lemma {:induction false} OrderedUnique(scores: seq<Score>, p: seq<nat>, q: seq<nat>)
    requires Within(scores, p) && Within(scores, q) && InOrder(scores, p) && InOrder(scores, q)
    requires forall o :: o in p <==> o in q
    ensures p == q
  {
    if p == [] {
      if q != [] {
        var o := HasMember(q);
      }
    } else {
      assert p[0] in p && q != [];
      HeadTail(p);
      HeadTail(q);
      assert p[0] in q && q[0] in p;
      OrderedUnique(scores, p[1..], q[1..]);
      assert p == [p[0]] + p[1..] && q == [q[0]] + q[1..];
    }
  }

  /** There is only one way to name the survivors in order. */
  lemma OrdinalsUnique(scores: seq<Score>, limit: nat, p: seq<nat>, q: seq<nat>)
    requires IsTopK(scores, limit, p) && NamesSurvivors(scores, limit, p)
    requires IsTopK(scores, limit, q) && NamesSurvivors(scores, limit, q)
    ensures p == q
  {
    forall o: nat ensures o in p <==> o in q {
      if o in p || o in q {
        assert o < |scores|;
        assert o in AsSet(p) <==> o in AsSet(q);
      }
    }
    OrderedUnique(scores, p, q);
  }

  /** There is only one such result, ties included. */
  lemma BestIsUnique<T>(items: seq<(T, Score)>, limit: nat, a: seq<(T, Score)>, b: seq<(T, Score)>)
    requires IsBest(items, limit, a) && IsBest(items, limit, b)
    ensures a == b
  {
    var scores := Scores(items);
    var p: seq<nat> :| IsTopK(scores, limit, p) && NamesSurvivors(scores, limit, p) && Picks(items, p, a);
    var q: seq<nat> :| IsTopK(scores, limit, q) && NamesSurvivors(scores, limit, q) && Picks(items, q, b);
    OrdinalsUnique(scores, limit, p, q);
  }

  // ---------- the search built on it ----------

  /** The candidates among the first `n` at or above the threshold, with their scores. */
  function Kept(scores: seq<Score>, threshold: Score, n: nat): seq<(nat, Score)>
    requires n <= |scores|
  {
    if n == 0 then []
    else Kept(scores, threshold, n - 1) + if scores[n - 1] >= threshold then [(n - 1, scores[n - 1])] else []
  }

  lemma {:induction false} KeptAre(scores: seq<Score>, threshold: Score, n: nat, c: nat, x: Score)
    requires n <= |scores|
    ensures (c, x) in Kept(scores, threshold, n) <==> c < n && x == scores[c] >= threshold
  {
    if n > 0 {
      KeptAre(scores, threshold, n - 1, c, x);
    }
  }

  /** Candidates are listed once each, by rising index. */
  lemma {:induction false} KeptRises(scores: seq<Score>, threshold: Score, n: nat)
    requires n <= |scores|
    ensures var kept := Kept(scores, threshold, n);
      && (forall i :: 0 <= i < |kept| ==> kept[i].0 < n && kept[i].1 == scores[kept[i].0] >= threshold)
      && (forall i, j :: 0 <= i < j < |kept| ==> kept[i].0 < kept[j].0)
      && |kept| == AtLeast(scores, n, threshold)
  {
    if n > 0 {
      KeptRises(scores, threshold, n - 1);
    }
  }

  lemma {:induction false} OrderedAt(scores: seq<Score>, ordinals: seq<nat>, i: nat, j: nat)
    requires Within(scores, ordinals) && InOrder(scores, ordinals) && i < j < |ordinals|
    ensures Precedes(scores, ordinals[i], ordinals[j])
  {
    if i == 0 {
      assert ordinals[j] == ordinals[1..][j - 1] && ordinals[j] in ordinals[1..];
    } else {
      OrderedAt(scores, ordinals[1..], i - 1, j - 1);
    }
  }

  /** Index `c` is among the results. */
  predicate Found(results: seq<(nat, Score)>, c: nat) { exists i :: 0 <= i < |results| && results[i].0 == c }

  /** A search result, stated on the scores alone. */
  ghost predicate IsSearch(scores: seq<Score>, threshold: Score, topK: nat, results: seq<(nat, Score)>) {
    && |results| == Min(topK, AtLeast(scores, |scores|, threshold))
    && (forall i :: 0 <= i < |results| ==>
          results[i].0 < |scores| && results[i].1 == scores[results[i].0] >= threshold)
    && (forall i, j :: 0 <= i < j < |results| ==>
          results[i].1 > results[j].1 || (results[i].1 == results[j].1 && results[i].0 < results[j].0))
    && (forall c: nat, i :: c < |scores| && scores[c] >= threshold && !Found(results, c) && 0 <= i < |results| ==>
          scores[c] <= results[i].1)
  }

  lemma SearchOrder(scores: seq<Score>, threshold: Score, ordinals: seq<nat>, results: seq<(nat, Score)>,
                    i: nat, j: nat)
    requires var kept := Kept(scores, threshold, |scores|);
      && Within(Scores(kept), ordinals) && InOrder(Scores(kept), ordinals) && Picks(kept, ordinals, results)
    requires i < j < |results|
    ensures results[i].1 > results[j].1 || (results[i].1 == results[j].1 && results[i].0 < results[j].0)
  {
    KeptRises(scores, threshold, |scores|);
    OrderedAt(Scores(Kept(scores, threshold, |scores|)), ordinals, i, j);
  }

  lemma PickedIsFound(kept: seq<(nat, Score)>, ordinals: seq<nat>, results: seq<(nat, Score)>, e: nat)
    requires Picks(kept, ordinals, results) && e in ordinals && e < |kept|
    ensures Found(results, kept[e].0)
  {
    var k :| 0 <= k < |ordinals| && ordinals[k] == e;
    assert results[k].0 == kept[e].0;
  }

  lemma SearchLeavesOut(scores: seq<Score>, threshold: Score, topK: nat, ordinals: seq<nat>,
                        results: seq<(nat, Score)>, c: nat, i: nat)
    requires var kept := Kept(scores, threshold, |scores|);
      IsTopK(Scores(kept), topK, ordinals) && Picks(kept, ordinals, results)
    requires c < |scores| && scores[c] >= threshold && !Found(results, c) && i < |results|
    ensures scores[c] <= results[i].1
  {
    var kept := Kept(scores, threshold, |scores|);
    KeptAre(scores, threshold, |scores|, c, scores[c]);
    var e: nat :| e < |kept| && kept[e] == (c, scores[c]);
    if e in ordinals {
      PickedIsFound(kept, ordinals, results, e);
    } else {
      assert ordinals[i] in ordinals;
    }
  }

  lemma BestIsSearch(scores: seq<Score>, threshold: Score, topK: nat, results: seq<(nat, Score)>)
    requires IsBest(Kept(scores, threshold, |scores|), topK, results)
    ensures IsSearch(scores, threshold, topK, results)
  {
    var kept := Kept(scores, threshold, |scores|);
    var ordinals: seq<nat> :| IsTopK(Scores(kept), topK, ordinals) && NamesSurvivors(Scores(kept), topK, ordinals)
      && Picks(kept, ordinals, results);
    KeptRises(scores, threshold, |scores|);
    forall i, j | 0 <= i < j < |results|
      ensures results[i].1 > results[j].1 || (results[i].1 == results[j].1 && results[i].0 < results[j].0)
    {
      SearchOrder(scores, threshold, ordinals, results, i, j);
    }
    forall c: nat, i | c < |scores| && scores[c] >= threshold && !Found(results, c) && 0 <= i < |results|
      ensures scores[c] <= results[i].1
    {
      SearchLeavesOut(scores, threshold, topK, ordinals, results, c, i);
    }
  }

  /** The best `topK` of the candidates at or above the threshold. */
  method FindSimilar(scores: seq<Score>, threshold: Score, topK: nat) returns (results: seq<(nat, Score)>)
    ensures IsBest(Kept(scores, threshold, |scores|), topK, results)
    ensures IsSearch(scores, threshold, topK, results)
  {
    var kept: seq<(nat, Score)> := [];
    for c := 0 to |scores|
      invariant kept == Kept(scores, threshold, c)
    {
      if scores[c] >= threshold {
        kept := kept + [(c, scores[c])];
      }
    }
    results := TopKScored(kept, topK);
    BestIsSearch(scores, threshold, topK, results);
  }
}
