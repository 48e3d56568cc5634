/**
 * Embedding caches whose entries carry counter stamps: every use takes the next stamp, and when the
 * cache is full the entry with the smallest stamp goes.
 */
module LruCaches {
  import opened Options

  type Key = nat
  type Vector = seq<real>

  const STAMP_LIMIT: nat := 0x1_0000_0000_0000_0000

  datatype Entry = Entry(value: Option<Vector>, stamp: nat)

  datatype Cache = Cache(entries: map<Key, Entry>, counter: nat)

  /** A deterministic embedder, the key texts are cached under, and what is kept. */
  datatype Env = Env(embed: string -> Option<Vector>, key: string -> Key, capacity: nat, rememberFailures: bool)

  function Wrapped(counter: nat): nat { if counter + 1 == STAMP_LIMIT then 0 else counter + 1 }

  ghost predicate IsOldest(entries: map<Key, Entry>, k: Key) {
    k in entries && forall j :: j in entries ==> entries[k].stamp <= entries[j].stamp
  }

  function Stamped(c: Cache, k: Key, value: Option<Vector>): Cache {
    Cache(c.entries[k := Entry(value, c.counter)], Wrapped(c.counter))
  }

  /** A full cache first loses an entry with the smallest stamp. */
  ghost predicate Inserted(capacity: nat, c: Cache, k: Key, value: Option<Vector>, c': Cache) {
    if |c.entries| >= capacity && c.entries != map[]
    then exists o :: IsOldest(c.entries, o) && c' == Stamped(c.(entries := c.entries - {o}), k, value)
    else c' == Stamped(c, k, value)
  }

  datatype Op = Query(text: string) | Clear(restartCounter: bool)

  /** One operation: the answer it gives and the cache it leaves. */
  ghost predicate Step(env: Env, c: Cache, op: Op, answer: Option<Vector>, c': Cache) {
    match op
    case Query(text) =>
      var k := env.key(text);
      if k in c.entries then answer == c.entries[k].value && c' == Stamped(c, k, answer)
      else
        && answer == env.embed(text)
        && (if env.rememberFailures || answer.Some? then Inserted(env.capacity, c, k, answer, c') else c' == c)
    case Clear(restartCounter) => c' == Cache(map[], if restartCounter then 0 else c.counter)
  }

  // ---------- the cache itself ----------

  class LruCache {
    const env: Env
    var entries: map<Key, Entry>
    var counter: nat

    function View(): Cache
      reads this
    {
      Cache(entries, counter)
    }

    constructor (env: Env)
      ensures View() == Cache(map[], 0) && this.env == env
    {
      this.env := env;
      entries, counter := map[], 0;
    }

    method OldestKey() returns (oldest: Option<Key>)
      ensures oldest.Some? <==> entries != map[]
      ensures oldest.Some? ==> IsOldest(entries, oldest.value)
    {
      oldest := None;
      var left := entries.Keys;
      while left != {}
        invariant left <= entries.Keys
        invariant oldest.None? ==> left == entries.Keys
        invariant oldest.Some? ==> oldest.value in entries && forall j :: j in entries && j !in left ==>
                                                                entries[oldest.value].stamp <= entries[j].stamp
        decreases |left|
      {
        var k :| k in left;
        if oldest.None? || entries[k].stamp < entries[oldest.value].stamp {
          oldest := Some(k);
        }
        left := left - {k};
      }
    }

    method Insert(k: Key, value: Option<Vector>)
      modifies this
      ensures Inserted(env.capacity, old(View()), k, value, View())
    {
      if |entries| >= env.capacity {
        var oldest := OldestKey();
        if oldest.Some? {
          entries := entries - {oldest.value};
        }
      }
      var stamp := counter;
      counter := Wrapped(stamp);
      entries := entries[k := Entry(value, stamp)];
    }

    method Embed(text: string) returns (answer: Option<Vector>)
      modifies this
      ensures Step(env, old(View()), Query(text), answer, View())
    {
      var k := env.key(text);
      if k in entries {
        answer := entries[k].value;
        var stamp := counter;
        counter := Wrapped(stamp);
        entries := entries[k := Entry(answer, stamp)];
        return;
      }
      answer := env.embed(text);
      if env.rememberFailures || answer.Some? {
        Insert(k, answer);
      }
    }

    method Unload(restartCounter: bool)
      modifies this
      ensures Step(env, old(View()), Clear(restartCounter), None, View())
    {
      entries := map[];
      if restartCounter {
        counter := 0;
      }
    }
  }

  /** A miss costs an entry only when the cache is full, and then one with the smallest stamp; the others stay. */
  lemma InsertCosts(capacity: nat, c: Cache, k: Key, value: Option<Vector>, c': Cache) returns (gone: Option<Key>)
    requires Inserted(capacity, c, k, value, c') && k !in c.entries && capacity > 0
    ensures gone.Some? <==> |c.entries| >= capacity
    ensures gone.Some? ==> IsOldest(c.entries, gone.value)
    ensures c'.entries.Keys == c.entries.Keys - (if gone.Some? then {gone.value} else {}) + {k}
    ensures c'.entries[k] == Entry(value, c.counter)
    ensures forall j :: j in c'.entries && j != k ==> c'.entries[j] == c.entries[j]
  {
    gone := None;
    if |c.entries| >= capacity {
      var o :| IsOldest(c.entries, o) && c' == Stamped(c.(entries := c.entries - {o}), k, value);
      gone := Some(o);
    }
  }

  /** A failure is remembered by the cache that remembers failures, and leaves the other one as it was. */
  lemma FailureStep(env: Env, c: Cache, text: string, answer: Option<Vector>, c': Cache)
    requires Step(env, c, Query(text), answer, c') && env.key(text) !in c.entries && env.embed(text).None?
    ensures answer.None?
    ensures env.rememberFailures ==> env.key(text) in c'.entries && c'.entries[env.key(text)].value.None?
    ensures !env.rememberFailures ==> c' == c
  {
  }

  // ---------- a plain most-recent-first list ----------

  datatype Item = Item(key: Key, value: Option<Vector>)

  function Keys(items: seq<Item>): set<Key> {
    if items == [] then {} else {items[0].key} + Keys(items[1..])
  }

  function Without(items: seq<Item>, k: Key): seq<Item> {
    if items == [] then []
    else if items[0].key == k then Without(items[1..], k)
    else [items[0]] + Without(items[1..], k)
  }

  function Find(items: seq<Item>, k: Key): Option<Item> {
    if items == [] then None else if items[0].key == k then Some(items[0]) else Find(items[1..], k)
  }

  function ToFront(items: seq<Item>, item: Item): seq<Item> { [item] + Without(items, item.key) }

  function DropTail(items: seq<Item>): seq<Item>
    requires items != []
  {
    items[..|items| - 1]
  }

  function ListInsert(capacity: nat, items: seq<Item>, item: Item): seq<Item> {
    ToFront(if |items| >= capacity && items != [] then DropTail(items) else items, item)
  }

  function ListStep(env: Env, items: seq<Item>, op: Op): (seq<Item>, Option<Vector>) {
    match op
    case Query(text) =>
      var k := env.key(text);
      var found := Find(items, k);
      if found.Some? then (ToFront(items, found.value), found.value.value)
      else
        var answer := env.embed(text);
        var kept := env.rememberFailures || answer.Some?;
        (if kept then ListInsert(env.capacity, items, Item(k, answer)) else items, answer)
    case Clear(_) => ([], None)
  }

  // ---------- refinement ----------

  /** `items` lists cached entries with falling stamps, all below `bound`. */
  ghost predicate Ordered(entries: map<Key, Entry>, items: seq<Item>, bound: nat)
    decreases |items|
  {
    items != [] ==>
      && items[0].key in entries && entries[items[0].key].value == items[0].value
      && entries[items[0].key].stamp < bound
      && Ordered(entries, items[1..], entries[items[0].key].stamp)
  }

  /** The list holds exactly the cache's entries, most recently used first. */
  ghost predicate Refines(c: Cache, items: seq<Item>) {
    Ordered(c.entries, items, c.counter) && Keys(items) == c.entries.Keys
  }

  lemma {:induction false} OrderedStamps(entries: map<Key, Entry>, items: seq<Item>, bound: nat)
    requires Ordered(entries, items, bound)
    ensures forall k :: k in Keys(items) ==> k in entries && entries[k].stamp < bound
    decreases |items|
  {
    if items != [] {
      OrderedStamps(entries, items[1..], entries[items[0].key].stamp);
    }
  }

  lemma {:induction false} OrderedFrame(entries: map<Key, Entry>, entries': map<Key, Entry>, items: seq<Item>,
                                        bound: nat, bound': nat)
    requires Ordered(entries, items, bound) && bound <= bound'
    requires forall k :: k in Keys(items) ==> k in entries && k in entries' && entries'[k] == entries[k]
    ensures Ordered(entries', items, bound')
    decreases |items|
  {
    if items != [] {
      assert items[0].key in Keys(items);
      OrderedFrame(entries, entries', items[1..], entries[items[0].key].stamp, entries[items[0].key].stamp);
    }
  }

  lemma {:induction false} WithoutOrdered(entries: map<Key, Entry>, items: seq<Item>, bound: nat, k: Key)
    requires Ordered(entries, items, bound)
    ensures Ordered(entries, Without(items, k), bound)
    ensures Keys(Without(items, k)) == Keys(items) - {k}
    ensures |Without(items, k)| == |items| - if k in Keys(items) then 1 else 0
    decreases |items|
  {
    if items != [] {
      var first := items[0];
      var stamp := entries[first.key].stamp;
      OrderedStamps(entries, items[1..], stamp);
      WithoutOrdered(entries, items[1..], stamp, k);
      if first.key == k {
        OrderedFrame(entries, entries, Without(items[1..], k), stamp, bound);
      } else {
        assert Without(items, k)[1..] == Without(items[1..], k);
      }
    }
  }

  /** The tail of the list is the one entry with the smallest stamp. */
  lemma {:induction false} TailIsOldest(entries: map<Key, Entry>, items: seq<Item>, bound: nat)
    requires Ordered(entries, items, bound) && items != []
    ensures var last := items[|items| - 1].key;
      && last in entries
      && (forall k :: k in Keys(items) ==> k in entries && (entries[last].stamp < entries[k].stamp || k == last))
      && Keys(DropTail(items)) == Keys(items) - {last} && last in Keys(items)
      && Ordered(entries, DropTail(items), bound)
    decreases |items|
  {
    var stamp := entries[items[0].key].stamp;
    if |items| > 1 {
      TailIsOldest(entries, items[1..], stamp);
      OrderedStamps(entries, items[1..], stamp);
      assert DropTail(items)[1..] == DropTail(items[1..]);
    } else {
      assert items[1..] == [] && DropTail(items) == [];
    }
  }

  lemma {:induction false} FindInOrdered(entries: map<Key, Entry>, items: seq<Item>, bound: nat, k: Key)
    requires Ordered(entries, items, bound)
    ensures Find(items, k).Some? <==> k in Keys(items)
    ensures Find(items, k).Some? ==> k in entries && Find(items, k).value == Item(k, entries[k].value)
    decreases |items|
  {
    if items != [] {
      FindInOrdered(entries, items[1..], entries[items[0].key].stamp, k);
    }
  }

  /** Giving `k` the next stamp is moving it to the front. */
  lemma StampIsToFront(c: Cache, items: seq<Item>, k: Key, value: Option<Vector>)
    requires Refines(c, items) && c.counter + 1 < STAMP_LIMIT
    ensures Refines(Stamped(c, k, value), ToFront(items, Item(k, value)))
  {
    var c', rest := Stamped(c, k, value), Without(items, k);
    WithoutOrdered(c.entries, items, c.counter, k);
    OrderedFrameExcept(c.entries, c'.entries, rest, c.counter, k);
    assert ToFront(items, Item(k, value))[1..] == rest;
  }

  lemma OrderedFrameExcept(entries: map<Key, Entry>, entries': map<Key, Entry>, items: seq<Item>, bound: nat, k: Key)
    requires Ordered(entries, items, bound) && k !in Keys(items)
    requires forall j :: j in entries && j != k ==> j in entries' && entries'[j] == entries[j]
    ensures Ordered(entries', items, bound)
  {
    OrderedStamps(entries, items, bound);
    OrderedFrame(entries, entries', items, bound, bound);
  }

  /** Evicting any entry with the smallest stamp is dropping the tail. */
  lemma EvictIsDropTail(c: Cache, items: seq<Item>, o: Key)
    requires Refines(c, items) && IsOldest(c.entries, o)
    ensures items != [] && Refines(c.(entries := c.entries - {o}), DropTail(items))
  {
    assert o in Keys(items);
    TailIsOldest(c.entries, items, c.counter);
    assert items[|items| - 1].key == o;
    OrderedFrameExcept(c.entries, c.entries - {o}, DropTail(items), c.counter, o);
  }

  lemma SizeIsLength(c: Cache, items: seq<Item>)
    requires Refines(c, items)
    ensures |c.entries| == |items|
  {
    KeysCount(c.entries, items, c.counter);
    assert |c.entries| == |c.entries.Keys|;
  }

  lemma {:induction false} KeysCount(entries: map<Key, Entry>, items: seq<Item>, bound: nat)
    requires Ordered(entries, items, bound)
    ensures |Keys(items)| == |items|
    decreases |items|
  {
    if items != [] {
      OrderedStamps(entries, items[1..], entries[items[0].key].stamp);
      KeysCount(entries, items[1..], entries[items[0].key].stamp);
    }
  }

  lemma InsertRefines(capacity: nat, c: Cache, items: seq<Item>, k: Key, value: Option<Vector>, c': Cache)
    requires Refines(c, items) && Inserted(capacity, c, k, value, c') && c.counter + 1 < STAMP_LIMIT
    requires capacity >= 1
    ensures Refines(c', ListInsert(capacity, items, Item(k, value)))
    ensures |items| <= capacity ==> |ListInsert(capacity, items, Item(k, value))| <= capacity
  {
    SizeIsLength(c, items);
    if |items| >= capacity {
      var o :| IsOldest(c.entries, o) && c' == Stamped(c.(entries := c.entries - {o}), k, value);
      EvictIsDropTail(c, items, o);
      StampIsToFront(c.(entries := c.entries - {o}), DropTail(items), k, value);
      WithoutOrdered(c.entries - {o}, DropTail(items), c.counter, k);
    } else {
      StampIsToFront(c, items, k, value);
      WithoutOrdered(c.entries, items, c.counter, k);
    }
  }

  /** Each operation does to the cache what the list operation does to the list, with the same answer. */
  lemma StepRefines(env: Env, c: Cache, items: seq<Item>, op: Op, answer: Option<Vector>, c': Cache)
    requires env.capacity >= 1 && Refines(c, items) && |items| <= env.capacity
    requires c.counter + 1 < STAMP_LIMIT
    requires Step(env, c, op, answer, c') && (op.Clear? ==> answer == None)
    ensures ListStep(env, items, op).1 == answer
    ensures Refines(c', ListStep(env, items, op).0) && |ListStep(env, items, op).0| <= env.capacity
    ensures c'.counter <= c.counter + 1
  {
    if op.Query? {
      var k := env.key(op.text);
      FindInOrdered(c.entries, items, c.counter, k);
      if k in c.entries {
        StampIsToFront(c, items, k, answer);
        WithoutOrdered(c.entries, items, c.counter, k);
      } else if env.rememberFailures || answer.Some? {
        InsertRefines(env.capacity, c, items, k, answer, c');
      }
    }
  }

  /** A stamp keeps the cache in step with some list exactly until the counter wraps. */
  lemma StampRefinesIff(c: Cache, items: seq<Item>, k: Key, value: Option<Vector>)
    requires Refines(c, items) && c.counter < STAMP_LIMIT
    ensures (exists items' :: Refines(Stamped(c, k, value), items')) <==> c.counter + 1 < STAMP_LIMIT
  {
    if c.counter + 1 < STAMP_LIMIT {
      StampIsToFront(c, items, k, value);
    } else {
      var c' := Stamped(c, k, value);
      forall items' | Refines(c', items') ensures c'.entries[k].stamp < c'.counter {
        OrderedStamps(c'.entries, items', c'.counter);
      }
    }
  }

  // ---------- runs ----------

  ghost predicate StepAt(env: Env, states: seq<Cache>, ops: seq<Op>, answers: seq<Option<Vector>>, i: nat)
    requires |states| == |ops| + 1 && |answers| == |ops| && i < |ops|
  {
    Step(env, states[i], ops[i], answers[i], states[i + 1]) && (ops[i].Clear? ==> answers[i] == None)
  }

  /** A run: states, operations and answers step by step. */
  ghost predicate IsRun(env: Env, states: seq<Cache>, ops: seq<Op>, answers: seq<Option<Vector>>) {
    && |states| == |ops| + 1 && |answers| == |ops|
    && states[0] == Cache(map[], 0)
    && forall i :: 0 <= i < |ops| ==> StepAt(env, states, ops, answers, i)
  }

  /** The recency list after the first `n` operations. */
  function ListAfter(env: Env, ops: seq<Op>, n: nat): seq<Item>
    requires n <= |ops|
  {
    if n == 0 then [] else ListStep(env, ListAfter(env, ops, n - 1), ops[n - 1]).0
  }

  lemma {:induction false} StatesRefine(env: Env, states: seq<Cache>, ops: seq<Op>, answers: seq<Option<Vector>>,
                                        n: nat)
    requires env.capacity >= 1 && IsRun(env, states, ops, answers) && n <= |ops| < STAMP_LIMIT
    ensures Refines(states[n], ListAfter(env, ops, n)) && states[n].counter <= n
    ensures |ListAfter(env, ops, n)| <= env.capacity
  {
    if n > 0 {
      StatesRefine(env, states, ops, answers, n - 1);
      var items := ListAfter(env, ops, n - 1);
      assert StepAt(env, states, ops, answers, n - 1);
      StepRefines(env, states[n - 1], items, ops[n - 1], answers[n - 1], states[n]);
    }
  }

  /**
   * As long as the counter cannot have wrapped, every run is a run of the bounded recency list: the cache
   * holds the list's entries, never more than its capacity, and gives the list's answers.
   */
  lemma RunRefines(env: Env, states: seq<Cache>, ops: seq<Op>, answers: seq<Option<Vector>>, n: nat)
    requires env.capacity >= 1 && IsRun(env, states, ops, answers) && n < |ops| < STAMP_LIMIT
    ensures answers[n] == ListStep(env, ListAfter(env, ops, n), ops[n]).1
    ensures Refines(states[n + 1], ListAfter(env, ops, n + 1))
    ensures |states[n + 1].entries| == |ListAfter(env, ops, n + 1)| <= env.capacity
  {
    StatesRefine(env, states, ops, answers, n);
    assert StepAt(env, states, ops, answers, n);
    StepRefines(env, states[n], ListAfter(env, ops, n), ops[n], answers[n], states[n + 1]);
    SizeIsLength(states[n + 1], ListAfter(env, ops, n + 1));
  }

  // ---------- cached answers are right ----------

  /** Texts that share a key share an embedding. */
  ghost predicate KeyRespects(env: Env, texts: set<string>) {
    forall t, u :: t in texts && u in texts && env.key(t) == env.key(u) ==> env.embed(t) == env.embed(u)
  }

  ghost predicate Asks(ops: seq<Op>, texts: set<string>) {
    forall i :: 0 <= i < |ops| && ops[i].Query? ==> ops[i].text in texts
  }

  /** Every query of the run was answered as the embedder itself answers it. */
  ghost predicate AnswersRight(env: Env, ops: seq<Op>, answers: seq<Option<Vector>>)
    requires |answers| == |ops|
  {
    forall i :: 0 <= i < |ops| && ops[i].Query? ==> answers[i] == env.embed(ops[i].text)
  }

  ghost predicate Faithful(env: Env, texts: set<string>, c: Cache) {
    forall k :: k in c.entries ==> exists t :: t in texts && env.key(t) == k && c.entries[k].value == env.embed(t)
  }

  lemma StepFaithful(env: Env, texts: set<string>, c: Cache, op: Op, answer: Option<Vector>, c': Cache)
    requires KeyRespects(env, texts) && Faithful(env, texts, c) && (op.Query? ==> op.text in texts)
    requires Step(env, c, op, answer, c')
    ensures Faithful(env, texts, c') && (op.Query? ==> answer == env.embed(op.text))
  {
    if op.Query? {
      var k := env.key(op.text);
      if k in c.entries {
        var t :| t in texts && env.key(t) == k && c.entries[k].value == env.embed(t);
      }
      assert answer == env.embed(op.text);
      forall j | j in c'.entries
        ensures exists t :: t in texts && env.key(t) == j && c'.entries[j].value == env.embed(t)
      {
        if j in c.entries && c'.entries[j].value == c.entries[j].value {
        } else {
          assert j == k && c'.entries[j].value == answer;
        }
      }
    }
  }

  lemma {:induction false} RunFaithful(env: Env, texts: set<string>, states: seq<Cache>, ops: seq<Op>,
                                       answers: seq<Option<Vector>>, n: nat)
    requires KeyRespects(env, texts) && IsRun(env, states, ops, answers) && Asks(ops, texts) && n <= |ops|
    ensures Faithful(env, texts, states[n])
    ensures forall i :: 0 <= i < n && ops[i].Query? ==> answers[i] == env.embed(ops[i].text)
  {
    if n > 0 {
      RunFaithful(env, texts, states, ops, answers, n - 1);
      assert StepAt(env, states, ops, answers, n - 1);
      StepFaithful(env, texts, states[n - 1], ops[n - 1], answers[n - 1], states[n]);
    }
  }

  /** Two texts that are confused: asking for one and then the other gives a wrong answer. */
  lemma ConfusedTexts(env: Env, t: string, u: string)
    returns (states: seq<Cache>, ops: seq<Op>, answers: seq<Option<Vector>>)
    requires env.capacity >= 1 && env.key(t) == env.key(u) && env.embed(t) != env.embed(u) && env.embed(t).Some?
    ensures IsRun(env, states, ops, answers) && Asks(ops, {t, u}) && !AnswersRight(env, ops, answers)
  {
    var k, v := env.key(t), env.embed(t);
    var c0 := Cache(map[], 0);
    var c1 := Stamped(c0, k, v);
    var c2 := Stamped(c1, k, v);
    states, ops, answers := [c0, c1, c2], [Query(t), Query(u)], [v, v];
    assert StepAt(env, states, ops, answers, 0) && StepAt(env, states, ops, answers, 1);
    assert ops[1] == Query(u) && answers[1] != env.embed(u);
  }

  /** Caching is invisible in every run about `texts` if and only if the key does not confuse them. */
  lemma CachingInvisibleIff(env: Env, texts: set<string>)
    requires env.capacity >= 1
    ensures KeyRespects(env, texts) <==>
      forall states, ops, answers ::
        IsRun(env, states, ops, answers) && Asks(ops, texts) ==> AnswersRight(env, ops, answers)
  {
    if KeyRespects(env, texts) {
      forall states, ops, answers | IsRun(env, states, ops, answers) && Asks(ops, texts)
        ensures AnswersRight(env, ops, answers)
      {
        RunFaithful(env, texts, states, ops, answers, |ops|);
      }
    } else {
      var t, u :| t in texts && u in texts && env.key(t) == env.key(u) && env.embed(t) != env.embed(u);
      var states, ops, answers;
      if env.embed(t).Some? {
        states, ops, answers := ConfusedTexts(env, t, u);
      } else {
        states, ops, answers := ConfusedTexts(env, u, t);
      }
      assert Asks(ops, texts);
    }
  }
}
