/** Walking process trees: one walk remembers what it has seen, the other does not. */
module Processes {
  import opened Options
  import opened Helpers

  type Pid = nat

  /** `kids` lists the processes whose parent is `p`, each once. */
  ghost predicate AreKids(parents: map<Pid, Pid>, p: Pid, kids: seq<Pid>) {
    NoDuplicates(kids) && forall c :: c in kids <==> c in parents && parents[c] == p
  }

  /** Child lists of a parent table: every process appears once, under its parent. */
  ghost predicate ChildLists(parents: map<Pid, Pid>, children: map<Pid, seq<Pid>>) {
    forall p :: AreKids(parents, p, Kids(children, p))
  }

  function Kids(children: map<Pid, seq<Pid>>, p: Pid): seq<Pid> {
    if p in children then children[p] else []
  }

  ghost predicate NoDuplicates(s: seq<Pid>) {
    forall p :: multiset(s)[p] <= 1
  }

  /** The process `n` levels above `pid`. */
  function Up(parents: map<Pid, Pid>, pid: Pid, n: nat): Option<Pid>
    decreases n
  {
    if n == 0 then Some(pid) else if pid in parents then Up(parents, parents[pid], n - 1) else None
  }

  /** `pid` is a root or has one above it. */
  ghost predicate Descends(parents: map<Pid, Pid>, roots: set<Pid>, pid: Pid) {
    exists n: nat :: Up(parents, pid, n).Some? && Up(parents, pid, n).value in roots
  }

  lemma {:induction false} UpUp(parents: map<Pid, Pid>, pid: Pid, n: nat, m: nat)
    requires Up(parents, pid, n).Some?
    ensures Up(parents, pid, n + m) == Up(parents, Up(parents, pid, n).value, m)
    decreases n
  {
    if n > 0 {
      UpUp(parents, parents[pid], n - 1, m);
    }
  }

  lemma ChildDescends(parents: map<Pid, Pid>, roots: set<Pid>, c: Pid)
    requires c in parents && Descends(parents, roots, parents[c])
    ensures Descends(parents, roots, c)
  {
    var n: nat :| Up(parents, parents[c], n).Some? && Up(parents, parents[c], n).value in roots;
    assert Up(parents, c, n + 1) == Up(parents, parents[c], n);
  }

  /** Child lists of the part of the table outside `left`. */
  ghost predicate ChildListsWithout(parents: map<Pid, Pid>, left: set<Pid>, children: map<Pid, seq<Pid>>) {
    forall p :: AreKids(parents - left, p, Kids(children, p))
  }

  lemma AddChild(parents: map<Pid, Pid>, left: set<Pid>, children: map<Pid, seq<Pid>>, pid: Pid)
    requires pid in left && pid in parents && ChildListsWithout(parents, left, children)
    ensures ChildListsWithout(parents, left - {pid}, children[parents[pid] := Kids(children, parents[pid]) + [pid]])
  {
    var ppid := parents[pid];
    var more := children[ppid := Kids(children, ppid) + [pid]];
    forall p ensures AreKids(parents - (left - {pid}), p, Kids(more, p)) {
      assert AreKids(parents - left, p, Kids(children, p));
      if p == ppid {
        assert pid !in Kids(children, p);
        assert forall c :: c in Kids(more, p) <==> c in Kids(children, p) || c == pid;
      } else {
        assert Kids(more, p) == Kids(children, p);
      }
    }
  }

  /** Reads the process table, in any order, into child lists. */
  method BuildChildren(parents: map<Pid, Pid>) returns (children: map<Pid, seq<Pid>>)
    ensures ChildLists(parents, children)
  {
    children := map[];
    var left := parents.Keys;
    while left != {}
      invariant left <= parents.Keys && ChildListsWithout(parents, left, children)
      decreases |left|
    {
      var pid :| pid in left;
      var ppid := parents[pid];
      AddChild(parents, left, children, pid);
      children := children[ppid := Kids(children, ppid) + [pid]];
      left := left - {pid};
    }
    assert parents - {} == parents;
  }

  // ---------- the walk that remembers ----------

  lemma {:induction false} ClosedContains(parents: map<Pid, Pid>, roots: set<Pid>, seen: set<Pid>, pid: Pid, n: nat)
    requires roots <= seen && forall c :: c in parents && parents[c] in seen ==> c in seen
    requires Up(parents, pid, n).Some? && Up(parents, pid, n).value in roots
    ensures pid in seen
    decreases n
  {
    if n > 0 {
      ClosedContains(parents, roots, seen, parents[pid], n - 1);
    }
  }

  /** What is seen or waiting descends from the roots, the roots are there, and the seen have no stray children. */
  ghost predicate SeenInv(parents: map<Pid, Pid>, roots: set<Pid>, seen: set<Pid>, stack: seq<Pid>) {
    && (forall p :: p in seen || p in stack ==> Descends(parents, roots, p))
    && (forall r :: r in roots ==> r in seen || r in stack)
    && (forall c :: c in parents && parents[c] in seen ==> c in seen || c in stack)
  }

  lemma PopSeen(parents: map<Pid, Pid>, roots: set<Pid>, seen: set<Pid>, stack: seq<Pid>, pid: Pid)
    requires SeenInv(parents, roots, seen, stack + [pid]) && pid in seen
    ensures SeenInv(parents, roots, seen, stack)
  {
    assert forall p :: p in stack + [pid] <==> p in stack || p == pid;
  }

  lemma PopNew(parents: map<Pid, Pid>, roots: set<Pid>, seen: set<Pid>, stack: seq<Pid>, pid: Pid, kids: seq<Pid>)
    requires SeenInv(parents, roots, seen, stack + [pid])
    requires AreKids(parents, pid, kids)
    ensures SeenInv(parents, roots, seen + {pid}, stack + kids)
  {
    assert pid in stack + [pid];
    assert forall p :: p in stack + [pid] <==> p in stack || p == pid;
    forall c | c in kids ensures Descends(parents, roots, c) {
      ChildDescends(parents, roots, c);
    }
  }

  lemma StackEmpty(parents: map<Pid, Pid>, roots: set<Pid>, seen: set<Pid>)
    requires SeenInv(parents, roots, seen, [])
    ensures forall pid :: pid in seen <==> Descends(parents, roots, pid)
  {
    assert roots <= seen by {
      assert forall r :: r in roots ==> r in seen;
    }
    forall pid | Descends(parents, roots, pid) ensures pid in seen {
      var n: nat :| Up(parents, pid, n).Some? && Up(parents, pid, n).value in roots;
      ClosedContains(parents, roots, seen, pid, n);
    }
  }

  lemma RootsDescend(parents: map<Pid, Pid>, roots: set<Pid>, r: Pid)
    requires r in roots
    ensures Descends(parents, roots, r)
  {
    assert Up(parents, r, 0) == Some(r);
  }

  lemma StartSeeing(parents: map<Pid, Pid>, rootPids: seq<Pid>)
    ensures SeenInv(parents, AsSet(rootPids), {}, rootPids)
  {
    forall r | r in rootPids ensures Descends(parents, AsSet(rootPids), r) {
      RootsDescend(parents, AsSet(rootPids), r);
    }
  }

  /** Descendants that are not among the roots have an entry in the table. */
  lemma DescendantsAreListed(parents: map<Pid, Pid>, roots: set<Pid>, pid: Pid)
    requires Descends(parents, roots, pid)
    ensures pid in parents.Keys + roots
  {
    var n: nat :| Up(parents, pid, n).Some? && Up(parents, pid, n).value in roots;
  }

  /** How many processes are still unseen. */
  ghost function Left(universe: set<Pid>, seen: set<Pid>): nat { |universe - seen| }

  lemma SeeingShrinks(universe: set<Pid>, seen: set<Pid>, pid: Pid)
    requires pid in universe && pid !in seen
    ensures Left(universe, seen + {pid}) < Left(universe, seen)
  {
    assert universe - (seen + {pid}) == (universe - seen) - {pid};
  }

  /** One turn of the walk: the top of the stack is dropped if seen, and otherwise seen and replaced by its children. */
  lemma TakeTop(parents: map<Pid, Pid>, roots: set<Pid>, seen: set<Pid>, stack: seq<Pid>, kids: seq<Pid>)
    requires stack != [] && SeenInv(parents, roots, seen, stack)
    requires AreKids(parents, stack[|stack| - 1], kids)
    ensures stack[|stack| - 1] in seen ==> SeenInv(parents, roots, seen, stack[..|stack| - 1])
    ensures var pid := stack[|stack| - 1]; pid !in seen ==>
      && SeenInv(parents, roots, seen + {pid}, stack[..|stack| - 1] + kids)
      && Left(parents.Keys + roots, seen + {pid}) < Left(parents.Keys + roots, seen)
  {
    var pid, front := stack[|stack| - 1], stack[..|stack| - 1];
    assert stack == front + [pid] && pid in stack;
    if pid in seen {
      PopSeen(parents, roots, seen, front, pid);
    } else {
      PopNew(parents, roots, seen, front, pid, kids);
      DescendantsAreListed(parents, roots, pid);
      SeeingShrinks(parents.Keys + roots, seen, pid);
    }
  }

  /** Exactly the processes at or below the roots, for any parent table, cyclic ones included. */
  method CollectDescendants(parents: map<Pid, Pid>, rootPids: seq<Pid>) returns (seen: set<Pid>)
    ensures forall pid :: pid in seen <==> Descends(parents, AsSet(rootPids), pid)
  {
    var children := BuildChildren(parents);
    ghost var roots := AsSet(rootPids);
    seen := {};
    var stack := rootPids;
    StartSeeing(parents, rootPids);
    while stack != []
      invariant SeenInv(parents, roots, seen, stack)
      decreases Left(parents.Keys + roots, seen), |stack|
    {
      var pid := stack[|stack| - 1];
      var kids := Kids(children, pid);
      TakeTop(parents, roots, seen, stack, kids);
      stack := stack[..|stack| - 1];
      if pid !in seen {
        seen := seen + {pid};
        stack := stack + kids;
      }
    }
    StackEmpty(parents, roots, seen);
  }

  // ---------- the walk that does not ----------

  ghost predicate OnCycle(parents: map<Pid, Pid>, pid: Pid) {
    exists n: nat :: n > 0 && Up(parents, pid, n) == Some(pid)
  }

  /** How far below the root a process is. */
  ghost function Depth(parents: map<Pid, Pid>, root: Pid, pid: Pid): (n: nat)
    requires Descends(parents, {root}, pid)
    ensures Up(parents, pid, n) == Some(root)
  {
    var n: nat :| Up(parents, pid, n).Some? && Up(parents, pid, n).value in {root};
    n
  }

  /** Off a cycle, that distance is the only one. */
  lemma DepthUnique(parents: map<Pid, Pid>, root: Pid, pid: Pid, n: nat, m: nat)
    requires !OnCycle(parents, root)
    requires Up(parents, pid, n) == Some(root) && Up(parents, pid, m) == Some(root)
    ensures n == m
  {
    var near, far := if n < m then n else m, if n < m then m else n;
    UpUp(parents, pid, near, far - near);
  }

  lemma ChildDepth(parents: map<Pid, Pid>, root: Pid, c: Pid)
    requires !OnCycle(parents, root) && c in parents && Descends(parents, {root}, parents[c])
    ensures Descends(parents, {root}, c) && Depth(parents, root, c) == Depth(parents, root, parents[c]) + 1
  {
    ChildDescends(parents, {root}, c);
    var n := Depth(parents, root, parents[c]);
    assert Up(parents, c, n + 1) == Some(root);
    DepthUnique(parents, root, c, n + 1, Depth(parents, root, c));
  }

  /**
   * `visited` and `queue` list distinct descendants of the root; whoever is listed came in through a
   * visited parent, and the children of the visited are all listed.
   */
  ghost predicate WalkInv(parents: map<Pid, Pid>, root: Pid, visited: seq<Pid>, queue: seq<Pid>) {
    && NoDuplicates(visited + queue)
    && SeenInv(parents, {root}, AsSet(visited), queue)
    && (forall x :: (x in visited || x in queue) && x != root ==> x in parents && parents[x] in visited)
  }

  ghost predicate Rising(parents: map<Pid, Pid>, root: Pid, s: seq<Pid>)
    requires forall x :: x in s ==> Descends(parents, {root}, x)
  {
    forall i, j :: 0 <= i < j < |s| ==> Depth(parents, root, s[i]) <= Depth(parents, root, s[j])
  }

  /** Nearer processes come first, and the queue spans at most two levels. */
  ghost predicate NearestFirst(parents: map<Pid, Pid>, root: Pid, visited: seq<Pid>, queue: seq<Pid>)
    requires forall x :: x in visited + queue ==> Descends(parents, {root}, x)
  {
    && Rising(parents, root, visited + queue)
    && forall q :: q in queue ==> Depth(parents, root, q) <= Depth(parents, root, queue[0]) + 1
  }

  /** The next process has not been visited. */
  lemma HeadIsNew(visited: seq<Pid>, queue: seq<Pid>)
    requires NoDuplicates(visited + queue) && queue != []
    ensures queue[0] in queue && queue[0] !in visited
  {
    var q := queue[0];
    assert q in queue && multiset(queue)[q] > 0;
    assert multiset(visited + queue) == multiset(visited) + multiset(queue);
    assert multiset(visited + queue)[q] == multiset(visited)[q] + multiset(queue)[q] <= 1;
    assert multiset(visited)[q] == 0;
  }

  /** No child of the next process is listed already, unless the root lies on a cycle. */
  lemma KidIsNew(parents: map<Pid, Pid>, root: Pid, visited: seq<Pid>, queue: seq<Pid>, c: Pid)
    requires WalkInv(parents, root, visited, queue) && queue != [] && !OnCycle(parents, root)
    requires c in parents && parents[c] == queue[0]
    ensures c !in visited && c !in queue
  {
    HeadIsNew(visited, queue);
    assert Up(parents, c, Depth(parents, root, queue[0]) + 1) == Some(root);
  }

  lemma StepHasNoDuplicates(visited: seq<Pid>, queue: seq<Pid>, kids: seq<Pid>)
    requires NoDuplicates(visited + queue) && queue != [] && NoDuplicates(kids)
    requires forall c :: c in kids ==> c !in visited && c !in queue
    ensures visited + [queue[0]] + (queue[1..] + kids) == visited + queue + kids
    ensures NoDuplicates(visited + queue + kids)
  {
    assert queue == [queue[0]] + queue[1..];
    assert multiset(visited + queue + kids) == multiset(visited + queue) + multiset(kids);
    forall p ensures multiset(visited + queue + kids)[p] <= 1 {
      if p in multiset(kids) {
        assert p in kids;
        assert multiset(visited + queue) == multiset(visited) + multiset(queue);
      }
    }
  }

  lemma WalkStep(parents: map<Pid, Pid>, root: Pid, visited: seq<Pid>, queue: seq<Pid>, kids: seq<Pid>)
    requires WalkInv(parents, root, visited, queue) && queue != [] && !OnCycle(parents, root)
    requires AreKids(parents, queue[0], kids)
    ensures WalkInv(parents, root, visited + [queue[0]], queue[1..] + kids)
    ensures Left(parents.Keys + {root}, AsSet(visited + [queue[0]])) < Left(parents.Keys + {root}, AsSet(visited))
  {
    var pid, rest := queue[0], queue[1..];
    HeadIsNew(visited, queue);
    forall c | c in kids ensures c !in visited && c !in queue {
      KidIsNew(parents, root, visited, queue, c);
    }
    StepHasNoDuplicates(visited, queue, kids);
    assert AsSet(visited + [pid]) == AsSet(visited) + {pid};
    assert queue == [pid] + rest;
    assert SeenInv(parents, {root}, AsSet(visited), rest + [pid]);
    PopNew(parents, {root}, AsSet(visited), rest, pid, kids);
    DescendantsAreListed(parents, {root}, pid);
    SeeingShrinks(parents.Keys + {root}, AsSet(visited), pid);
  }

  /** Visiting the front of the queue and queueing its children keeps nearer processes first. */
  lemma NearestStep(parents: map<Pid, Pid>, root: Pid, visited: seq<Pid>, queue: seq<Pid>, kids: seq<Pid>)
    requires queue != [] && !OnCycle(parents, root)
    requires forall x :: x in visited + queue ==> Descends(parents, {root}, x)
    requires NearestFirst(parents, root, visited, queue)
    requires AreKids(parents, queue[0], kids)
    ensures forall x :: x in visited + [queue[0]] + (queue[1..] + kids) ==> Descends(parents, {root}, x)
    ensures NearestFirst(parents, root, visited + [queue[0]], queue[1..] + kids)
  {
    var pid, rest, listed := queue[0], queue[1..], visited + queue;
    assert queue == [pid] + rest && pid in queue && pid in listed;
    var all := visited + [pid] + (rest + kids);
    assert all == listed + kids;
    forall c | c in kids
      ensures Descends(parents, {root}, c) && Depth(parents, root, c) == Depth(parents, root, pid) + 1
    {
      ChildDepth(parents, root, c);
    }
    forall x | x in listed ensures Depth(parents, root, x) <= Depth(parents, root, pid) + 1 {
      var i :| 0 <= i < |listed| && listed[i] == x;
      assert listed[|visited|] == pid;
    }
    forall i, j | 0 <= i < j < |all| ensures Depth(parents, root, all[i]) <= Depth(parents, root, all[j]) {
      if j >= |listed| {
        assert all[j] in kids && (all[i] in listed || all[i] in kids);
      } else {
        assert all[i] == listed[i] && all[j] == listed[j];
      }
    }
    forall q | q in rest + kids ensures Depth(parents, root, q) <= Depth(parents, root, (rest + kids)[0]) + 1 {
      var k := |visited| + 1;
      assert all[k] == (rest + kids)[0] && all[|visited|] == pid;
      assert Depth(parents, root, all[|visited|]) <= Depth(parents, root, all[k]);
    }
  }

  lemma WalkStart(parents: map<Pid, Pid>, root: Pid)
    ensures WalkInv(parents, root, [], [root])
    ensures forall x :: x in [] + [root] ==> Descends(parents, {root}, x)
    ensures NearestFirst(parents, root, [], [root])
  {
    RootsDescend(parents, {root}, root);
  }

  /** What inspecting a process yields, for every process visited, in order. */
  function Found<T>(inspect: Pid -> Option<T>, visited: seq<Pid>): seq<T> {
    if visited == [] then []
    else
      var last := inspect(visited[|visited| - 1]);
      Found(inspect, visited[..|visited| - 1]) + if last.Some? then [last.value] else []
  }

  lemma FoundSnoc<T>(inspect: Pid -> Option<T>, visited: seq<Pid>, pid: Pid)
    ensures Found(inspect, visited + [pid]) ==
      Found(inspect, visited) + if inspect(pid).Some? then [inspect(pid).value] else []
  {
    assert (visited + [pid])[..|visited|] == visited;
  }

  /** One process yields what inspecting it yields, and lists of processes yield one after the other. */
  lemma {:induction false} FoundConcat<T>(inspect: Pid -> Option<T>, a: seq<Pid>, b: seq<Pid>)
    ensures Found(inspect, a + b) == Found(inspect, a) + Found(inspect, b)
  {
    if b == [] {
      assert a + b == a;
    } else {
      var front, last := b[..|b| - 1], b[|b| - 1];
      FoundConcat(inspect, a, front);
      FoundSnoc(inspect, a + front, last);
      assert a + b == a + front + [last];
    }
  }

  lemma FoundOne<T>(inspect: Pid -> Option<T>, pid: Pid)
    ensures Found(inspect, [pid]) == if inspect(pid).Some? then [inspect(pid).value] else []
  {
    FoundSnoc(inspect, [], pid);
    assert [] + [pid] == [pid];
  }

  /**
   * When the root is not on a cycle the walk ends, inspects each descendant exactly once, nearest first,
   * and collects what inspection yields in that order.
   */
  method InspectTree<T>(parents: map<Pid, Pid>, root: Pid, inspect: Pid -> Option<T>)
    returns (candidates: seq<T>, visited: seq<Pid>)
    requires !OnCycle(parents, root)
    ensures NoDuplicates(visited) && forall pid :: pid in visited <==> Descends(parents, {root}, pid)
    ensures Rising(parents, root, visited)
    ensures candidates == Found(inspect, visited)
  {
    var children := BuildChildren(parents);
    var queue := [root];
    candidates, visited := [], [];
    WalkStart(parents, root);
    while queue != []
      invariant WalkInv(parents, root, visited, queue)
      invariant forall x :: x in visited + queue ==> Descends(parents, {root}, x)
      invariant NearestFirst(parents, root, visited, queue)
      invariant candidates == Found(inspect, visited)
      decreases Left(parents.Keys + {root}, AsSet(visited))
    {
      var pid := queue[0];
      var kids := Kids(children, pid);
      WalkStep(parents, root, visited, queue, kids);
      NearestStep(parents, root, visited, queue, kids);
      FoundSnoc(inspect, visited, pid);
      if inspect(pid).Some? {
        candidates := candidates + [inspect(pid).value];
      }
      visited, queue := visited + [pid], queue[1..] + kids;
    }
    StackEmpty(parents, {root}, AsSet(visited));
    assert visited + [] == visited;
  }

  /** The queue of the walk after `n` turns of its loop. */
  function QueueAfter(children: map<Pid, seq<Pid>>, queue: seq<Pid>, n: nat): seq<Pid>
    decreases n
  {
    if n == 0 || queue == [] then queue else QueueAfter(children, queue[1..] + Kids(children, queue[0]), n - 1)
  }

  lemma QueueTurn(children: map<Pid, seq<Pid>>, queue: seq<Pid>, n: nat)
    requires queue != [] && n > 0
    ensures QueueAfter(children, queue, n) == QueueAfter(children, queue[1..] + Kids(children, queue[0]), n - 1)
  {
  }

  lemma {:induction false} WalkEnds(parents: map<Pid, Pid>, children: map<Pid, seq<Pid>>, root: Pid,
                                    visited: seq<Pid>, queue: seq<Pid>) returns (n: nat)
    requires ChildLists(parents, children) && !OnCycle(parents, root)
    requires WalkInv(parents, root, visited, queue)
    ensures QueueAfter(children, queue, n) == []
    decreases Left(parents.Keys + {root}, AsSet(visited))
  {
    if queue == [] {
      return 0;
    }
    var kids := Kids(children, queue[0]);
    var next := queue[1..] + kids;
    assert AreKids(parents, queue[0], kids);
    WalkStep(parents, root, visited, queue, kids);
    var m := WalkEnds(parents, children, root, visited + [queue[0]], next);
    n := m + 1;
    QueueTurn(children, queue, n);
  }

  /** Some ancestor of the root, or the root itself, is queued. */
  ghost predicate AncestorQueued(parents: map<Pid, Pid>, root: Pid, queue: seq<Pid>) {
    exists m: nat :: Up(parents, root, m).Some? && Up(parents, root, m).value in queue
  }

  lemma {:induction false} CycleNeverEnds(parents: map<Pid, Pid>, children: map<Pid, seq<Pid>>, root: Pid,
                                          queue: seq<Pid>, n: nat)
    requires ChildLists(parents, children) && OnCycle(parents, root)
    requires AncestorQueued(parents, root, queue)
    ensures QueueAfter(children, queue, n) != []
    decreases n
  {
    if n > 0 {
      var next := queue[1..] + Kids(children, queue[0]);
      var m: nat :| Up(parents, root, m).Some? && Up(parents, root, m).value in queue;
      var x := Up(parents, root, m).value;
      if x in queue[1..] {
        assert x in next;
      } else {
        assert x == queue[0];
        var cycle: nat :| cycle > 0 && Up(parents, root, cycle) == Some(root);
        var up := if m > 0 then m else cycle;
        UpDefined(parents, root, up - 1, up);
        var c := Up(parents, root, up - 1).value;
        UpUp(parents, root, up - 1, 1);
        assert Up(parents, c, 1) == Some(x);
        assert AreKids(parents, x, Kids(children, x));
        assert c in Kids(children, x) && c in next;
      }
      assert AncestorQueued(parents, root, next);
      CycleNeverEnds(parents, children, root, next, n - 1);
    }
  }

  lemma {:induction false} UpDefined(parents: map<Pid, Pid>, pid: Pid, n: nat, m: nat)
    requires n <= m && Up(parents, pid, m).Some?
    ensures Up(parents, pid, n).Some?
    decreases n
  {
    if n > 0 {
      UpDefined(parents, parents[pid], n - 1, m - 1);
    }
  }

  /** The walk without a memory ends if and only if its root is not on a cycle. */
  lemma WalkEndsIff(parents: map<Pid, Pid>, children: map<Pid, seq<Pid>>, root: Pid)
    requires ChildLists(parents, children)
    ensures (exists n: nat :: QueueAfter(children, [root], n) == []) <==> !OnCycle(parents, root)
  {
    if OnCycle(parents, root) {
      assert Up(parents, root, 0) == Some(root);
      forall n: nat ensures QueueAfter(children, [root], n) != [] {
        CycleNeverEnds(parents, children, root, [root], n);
      }
    } else {
      WalkStart(parents, root);
      var n := WalkEnds(parents, children, root, [], [root]);
    }
  }
}
