/** The bounded in-process L1 map: time to live, least-recently-used eviction and
    the invalidation revision (core/local_cache.py). Clock readings are arguments. */
module LocalCache {
  import opened Wrappers

  type Key = string
  type Value = string

  datatype Item = Item(key: Key, deadline: real, value: Value)

  /** `items` is the ordered dict, least recently used first. */
  datatype Cache = Cache(items: seq<Item>, maxsize: nat, revision: nat)

  function Find(items: seq<Item>, k: Key): (r: Option<Item>)
    ensures r.Some? ==> r.value in items && r.value.key == k
    ensures r.None? <==> forall i :: 0 <= i < |items| ==> items[i].key != k
  {
    if items == [] then None else if items[0].key == k then Some(items[0]) else Find(items[1..], k)
  }

  function Without(items: seq<Item>, k: Key): (r: seq<Item>)
    ensures |r| <= |items|
    ensures forall x :: x in r <==> x in items && x.key != k
  {
    if items == [] then []
    else if items[0].key == k then Without(items[1..], k)
    else [items[0]] + Without(items[1..], k)
  }

  predicate UniqueKeys(items: seq<Item>) {
    forall i, j :: 0 <= i < j < |items| ==> items[i].key != items[j].key
  }

  predicate Wf(c: Cache) {
    UniqueKeys(c.items) && |c.items| <= c.maxsize && c.maxsize >= 1
  }

  /** The most recent `n` items. */
  function Newest(items: seq<Item>, n: nat): seq<Item> {
    if |items| <= n then items else items[|items| - n..]
  }

  // ---- The operations on values ----------------------------------------------

  /** `l1_get`: a hit moves to the end, an expired item goes away. */
  function Get(c: Cache, k: Key, now: real): (Cache, Option<Value>) {
    var found := Find(c.items, k);
    if found.None? then (c, None)
    else if found.value.deadline <= now then (c.(items := Without(c.items, k)), None)
    else (c.(items := Without(c.items, k) + [found.value]), Some(found.value.value))
  }

  function Delete(c: Cache, k: Key): Cache {
    c.(items := Without(c.items, k), revision := c.revision + 1)
  }

  /** `l1_set` */
  function Set(c: Cache, k: Key, v: Option<Value>, ttl: real, now: real): Cache {
    if ttl <= 0.0 || v.None? then Delete(c, k)
    else c.(items := Newest(Without(c.items, k) + [Item(k, now + ttl, v.value)], c.maxsize))
  }

  /** `l1_set_if_unchanged`: the clock is read once by the lookup and once by the write. */
  function SetIfUnchanged(c: Cache, k: Key, v: Option<Value>, ttl: real, revision: nat, now: real, later: real): (Cache, bool) {
    if ttl <= 0.0 || v.None? || revision != c.revision then (c, false)
    else
      var (looked, hit) := Get(c, k, now);
      if hit.Some? then (looked, false) else (Set(looked, k, v, ttl, later), true)
  }

  function Clear(c: Cache): Cache {
    c.(items := [], revision := c.revision + 1)
  }

  // ---- The module state -----------------------------------------------------------

  class L1 {
    var items: seq<Item>
    var maxsize: nat
    var revision: nat

    function State(): Cache
      reads this
    {
      Cache(items, maxsize, revision)
    }

    constructor (configured: int)
      ensures State() == Cache([], if configured < 1 then 1 else configured, 0) && Wf(State())
    {
      items, maxsize, revision := [], if configured < 1 then 1 else configured, 0;
    }

    method L1Get(k: Key, now: real) returns (v: Option<Value>)
      modifies this
      ensures (State(), v) == Get(old(State()), k, now)
    {
      var item := Find(items, k);
      if item.None? {
        return None;
      }
      if item.value.deadline <= now {
        items := Without(items, k);
        return None;
      }
      items := Without(items, k) + [item.value];
      v := Some(item.value.value);
    }

    /** `l1_multi_get`: all keys are judged at one clock reading, so every answer is
        the one a single get would have given before the call. */
    method L1MultiGet(keys: seq<Key>, now: real) returns (vs: seq<Option<Value>>)
      requires Wf(State())
      modifies this
      ensures |vs| == |keys|
      ensures forall i :: 0 <= i < |keys| ==> vs[i] == Get(old(State()), keys[i], now).1
      ensures State() == GetAll(old(State()), keys, now)
      ensures Wf(State())
    {
      vs := [];
      var i := 0;
      assert keys[0..] == keys;
      while i < |keys|
        invariant 0 <= i <= |keys| && |vs| == i
        invariant Wf(State())
        invariant SameAnswers(old(State()), State(), now)
        invariant forall j :: 0 <= j < i ==> vs[j] == Get(old(State()), keys[j], now).1
        invariant GetAll(State(), keys[i..], now) == GetAll(old(State()), keys, now)
      {
        GetKeepsAnswers(State(), keys[i], now);
        GetKeepsWf(State(), keys[i], now);
        assert keys[i..][0] == keys[i] && keys[i..][1..] == keys[i + 1..];
        var v := L1Get(keys[i], now);
        vs := vs + [v];
        i := i + 1;
      }
    }

    method L1Delete(k: Key)
      modifies this
      ensures State() == Delete(old(State()), k)
    {
      revision := revision + 1;
      items := Without(items, k);
    }

    method L1Set(k: Key, v: Option<Value>, ttl: real, now: real)
      requires Wf(State())
      modifies this
      ensures State() == Set(old(State()), k, v, ttl, now)
    {
      if ttl <= 0.0 || v.None? {
        L1Delete(k);
        return;
      }
      items := Without(items, k) + [Item(k, now + ttl, v.value)];
      ghost var all := items;
      while |items| > maxsize
        invariant maxsize == old(maxsize) && revision == old(revision)
        invariant |items| <= |all| && items == all[|all| - |items|..]
        invariant |items| >= maxsize || items == all
        decreases |items|
      {
        items := items[1..];
      }
    }

    method L1SetIfUnchanged(k: Key, v: Option<Value>, ttl: real, seen: nat, now: real, later: real) returns (stored: bool)
      requires Wf(State())
      modifies this
      ensures (State(), stored) == SetIfUnchanged(old(State()), k, v, ttl, seen, now, later)
    {
      if ttl <= 0.0 || v.None? || seen != revision {
        return false;
      }
      GetKeepsWf(State(), k, now);
      var existing := L1Get(k, now);
      if existing.Some? {
        return false;
      }
      L1Set(k, v, ttl, later);
      stored := true;
    }

    method L1Clear()
      modifies this
      ensures State() == Clear(old(State()))
    {
      revision := revision + 1;
      items := [];
    }
  }

  function GetAll(c: Cache, keys: seq<Key>, now: real): Cache
    decreases |keys|
  {
    if keys == [] then c else GetAll(Get(c, keys[0], now).0, keys[1..], now)
  }

  // ---- Lists of items ---------------------------------------------------------------

  lemma {:induction false} WithoutUnique(items: seq<Item>, k: Key)
    requires UniqueKeys(items)
    ensures UniqueKeys(Without(items, k))
    ensures |Without(items, k)| == |items| - (if Find(items, k).Some? then 1 else 0)
  {
    if items != [] {
      WithoutUnique(items[1..], k);
      var rest := Without(items[1..], k);
      if items[0].key == k {
        WithoutAbsent(items[1..], k);
      } else {
        forall j | 0 <= j < |rest| ensures rest[j].key != items[0].key {
          assert rest[j] in items[1..];
        }
      }
    }
  }

  lemma {:induction false} WithoutAbsent(items: seq<Item>, k: Key)
    requires forall i :: 0 <= i < |items| ==> items[i].key != k
    ensures Without(items, k) == items && Find(items, k).None?
  {
    if items != [] { WithoutAbsent(items[1..], k); }
  }

  lemma {:induction false} WithoutConcat(a: seq<Item>, b: seq<Item>, k: Key)
    ensures Without(a + b, k) == Without(a, k) + Without(b, k)
  {
    if a == [] {
      assert a + b == b;
    } else {
      assert (a + b)[1..] == a[1..] + b;
      WithoutConcat(a[1..], b, k);
    }
  }

  lemma {:induction false} FindWithout(items: seq<Item>, k: Key, other: Key)
    ensures Find(Without(items, k), other) == if other == k then None else Find(items, other)
  {
    if items != [] { FindWithout(items[1..], k, other); }
  }

  lemma {:induction false} FindConcat(a: seq<Item>, b: seq<Item>, k: Key)
    ensures Find(a + b, k) == if Find(a, k).Some? then Find(a, k) else Find(b, k)
  {
    if a == [] {
      assert a + b == b;
    } else {
      assert (a + b)[1..] == a[1..] + b;
      FindConcat(a[1..], b, k);
    }
  }

  lemma AppendUnique(items: seq<Item>, x: Item)
    requires UniqueKeys(items)
    ensures UniqueKeys(Without(items, x.key) + [x])
  {
    WithoutUnique(items, x.key);
    var rest := Without(items, x.key);
    forall j | 0 <= j < |rest| ensures rest[j].key != x.key {
      assert rest[j] in rest;
    }
  }

  lemma GetKeepsWf(c: Cache, k: Key, now: real)
    requires Wf(c)
    ensures Wf(Get(c, k, now).0)
  {
    WithoutUnique(c.items, k);
    if Find(c.items, k).Some? {
      AppendUnique(c.items, Find(c.items, k).value);
    }
  }

  /** Every lookup at this instant would answer the same. */
  ghost predicate SameAnswers(c: Cache, d: Cache, now: real) {
    forall k :: Get(c, k, now).1 == Get(d, k, now).1
  }

  lemma GetKeepsAnswers(c: Cache, k: Key, now: real)
    requires Wf(c)
    ensures SameAnswers(c, Get(c, k, now).0, now)
  {
    var d := Get(c, k, now).0;
    forall other ensures Get(c, other, now).1 == Get(d, other, now).1 {
      FindWithout(c.items, k, other);
      if Find(c.items, k).Some? {
        FindConcat(Without(c.items, k), [Find(c.items, k).value], other);
      }
    }
  }

  // ---- Whole histories ------------------------------------------------------------------

  datatype Op =
    | OpGet(key: Key, now: real)
    | OpSet(key: Key, value: Option<Value>, ttl: real, now: real)
    | OpSetIfUnchanged(key: Key, value: Option<Value>, ttl: real, revision: nat, now: real, later: real)
    | OpDelete(key: Key)
    | OpClear

  function Run(c: Cache, op: Op): Cache {
    match op
    case OpGet(k, now) => Get(c, k, now).0
    case OpSet(k, v, ttl, now) => Set(c, k, v, ttl, now)
    case OpSetIfUnchanged(k, v, ttl, r, now, later) => SetIfUnchanged(c, k, v, ttl, r, now, later).0
    case OpDelete(k) => Delete(c, k)
    case OpClear => Clear(c)
  }

  function RunAll(c: Cache, ops: seq<Op>): Cache {
    if ops == [] then c else Run(RunAll(c, ops[..|ops| - 1]), ops[|ops| - 1])
  }

  /** The same history on a map that never evicts: every key that was set and not
      removed since, the most recently touched (set or hit) last. `c` is the real
      cache before the operation; it decides whether a get hits. */
  function Touched(all: seq<Item>, c: Cache, op: Op): seq<Item> {
    match op
    case OpGet(k, now) => TouchedByGet(all, c, k, now)
    case OpSet(k, v, ttl, now) => TouchedBySet(all, k, v, ttl, now)
    case OpSetIfUnchanged(k, v, ttl, r, now, later) =>
      if ttl <= 0.0 || v.None? || r != c.revision then all
      else if Get(c, k, now).1.Some? then TouchedByGet(all, c, k, now)
      else TouchedBySet(TouchedByGet(all, c, k, now), k, v, ttl, later)
    case OpDelete(k) => Without(all, k)
    case OpClear => []
  }

  function TouchedByGet(all: seq<Item>, c: Cache, k: Key, now: real): seq<Item> {
    var found := Find(c.items, k);
    if found.None? then all
    else if found.value.deadline <= now then Without(all, k)
    else Without(all, k) + [found.value]
  }

  function TouchedBySet(all: seq<Item>, k: Key, v: Option<Value>, ttl: real, now: real): seq<Item> {
    if ttl <= 0.0 || v.None? then Without(all, k) else Without(all, k) + [Item(k, now + ttl, v.value)]
  }

  function TouchedAll(c: Cache, ops: seq<Op>): seq<Item> {
    if ops == [] then c.items
    else
      var before := ops[..|ops| - 1];
      Touched(TouchedAll(c, before), RunAll(c, before), ops[|ops| - 1])
  }

  ghost predicate IsSuffix(b: seq<Item>, all: seq<Item>) {
    exists a :: all == a + b
  }

  /** The cache is the recent end of the full history. */
  ghost predicate Refines(c: Cache, all: seq<Item>) {
    Wf(c) && UniqueKeys(all) && IsSuffix(c.items, all)
  }

  /** Removing a key from both keeps the suffix, and so does moving it to the end. */
  lemma WithoutKeepsSuffix(b: seq<Item>, all: seq<Item>, k: Key, moved: Item)
    requires IsSuffix(b, all)
    ensures IsSuffix(Without(b, k), Without(all, k))
    ensures IsSuffix(Without(b, k) + [moved], Without(all, k) + [moved])
  {
    var a :| all == a + b;
    WithoutConcat(a, b, k);
    assert Without(all, k) + [moved] == Without(a, k) + (Without(b, k) + [moved]);
  }

  lemma GetRefines(c: Cache, all: seq<Item>, k: Key, now: real)
    requires Refines(c, all)
    ensures Refines(Get(c, k, now).0, TouchedByGet(all, c, k, now))
  {
    GetKeepsWf(c, k, now);
    var found := Find(c.items, k);
    if found.Some? {
      WithoutUnique(all, k);
      AppendUnique(all, found.value);
      WithoutKeepsSuffix(c.items, all, k, found.value);
    }
  }

  lemma DeleteRefines(c: Cache, all: seq<Item>, k: Key)
    requires Refines(c, all)
    ensures Refines(Delete(c, k), Without(all, k))
  {
    var a :| all == a + c.items;
    WithoutConcat(a, c.items, k);
    WithoutUnique(all, k);
    WithoutUnique(c.items, k);
  }

  lemma NewestIsSuffix(prefix: seq<Item>, kept: seq<Item>, n: nat)
    ensures IsSuffix(Newest(kept, n), prefix + kept)
  {
    var newest := Newest(kept, n);
    var dropped := kept[..|kept| - |newest|];
    assert prefix + kept == (prefix + dropped) + newest;
  }

  lemma NewestUnique(items: seq<Item>, n: nat)
    requires UniqueKeys(items)
    ensures UniqueKeys(Newest(items, n))
  {
  }

  lemma AppendRefines(items: seq<Item>, all: seq<Item>, n: nat, x: Item)
    requires UniqueKeys(items) && UniqueKeys(all) && IsSuffix(items, all)
    ensures UniqueKeys(Without(all, x.key) + [x])
    ensures UniqueKeys(Newest(Without(items, x.key) + [x], n))
    ensures IsSuffix(Newest(Without(items, x.key) + [x], n), Without(all, x.key) + [x])
  {
    AppendUnique(all, x);
    AppendUnique(items, x);
    NewestUnique(Without(items, x.key) + [x], n);
    AppendKeepsSuffix(items, all, n, x);
  }

  lemma AppendKeepsSuffix(items: seq<Item>, all: seq<Item>, n: nat, x: Item)
    requires IsSuffix(items, all)
    ensures IsSuffix(Newest(Without(items, x.key) + [x], n), Without(all, x.key) + [x])
  {
    var a :| all == a + items;
    WithoutConcat(a, items, x.key);
    var kept := Without(items, x.key) + [x];
    assert Without(all, x.key) + [x] == Without(a, x.key) + kept;
    NewestIsSuffix(Without(a, x.key), kept, n);
  }

  lemma SetRefines(c: Cache, all: seq<Item>, k: Key, v: Option<Value>, ttl: real, now: real)
    requires Refines(c, all)
    ensures Refines(Set(c, k, v, ttl, now), TouchedBySet(all, k, v, ttl, now))
  {
    if ttl <= 0.0 || v.None? {
      DeleteRefines(c, all, k);
    } else {
      AppendRefines(c.items, all, c.maxsize, Item(k, now + ttl, v.value));
    }
  }

  /** Refinement over whole histories: after every operation sequence the map holds
      at most `maxsize` keys, and they are the most recently touched ones among all
      keys set and not removed. */
  lemma {:induction false} HistoryRefines(c: Cache, ops: seq<Op>)
    requires Wf(c)
    ensures Refines(RunAll(c, ops), TouchedAll(c, ops))
    decreases |ops|
  {
    if ops == [] {
      assert c.items == [] + c.items;
    } else {
      var before := ops[..|ops| - 1];
      HistoryRefines(c, before);
      var d, all := RunAll(c, before), TouchedAll(c, before);
      match ops[|ops| - 1] {
        case OpGet(k, now) => GetRefines(d, all, k, now);
        case OpSet(k, v, ttl, now) => SetRefines(d, all, k, v, ttl, now);
        case OpSetIfUnchanged(k, v, ttl, r, now, later) =>
          GetRefines(d, all, k, now);
          SetRefines(Get(d, k, now).0, TouchedByGet(all, d, k, now), k, v, ttl, later);
        case OpDelete(k) => DeleteRefines(d, all, k);
        case OpClear => assert all[..0] == all[..0] + [];
      }
    }
  }

  /** What an operation asks to become of k. */
  datatype Effect = Keeps | Removes | Sets(item: Item)

  function EffectOn(d: Cache, op: Op, k: Key): Effect {
    match op
    case OpGet(_, _) => Keeps
    case OpSet(j, v, ttl, now) =>
      if j != k then Keeps else if ttl <= 0.0 || v.None? then Removes else Sets(Item(k, now + ttl, v.value))
    case OpSetIfUnchanged(j, v, ttl, r, now, later) =>
      if j == k && v.Some? && SetIfUnchanged(d, j, v, ttl, r, now, later).1 then Sets(Item(k, later + ttl, v.value))
      else Keeps
    case OpDelete(j) => if j == k then Removes else Keeps
    case OpClear => Removes
  }

  /** What the last operation that set k set it to, if nothing removed it since. */
  function LastSet(c: Cache, ops: seq<Op>, k: Key): Option<Item>
    decreases |ops|
  {
    if ops == [] then Find(c.items, k)
    else
      var before := ops[..|ops| - 1];
      match EffectOn(RunAll(c, before), ops[|ops| - 1], k)
      case Keeps => LastSet(c, before, k)
      case Removes => None
      case Sets(item) => Some(item)
  }

  lemma {:induction false} FindNewest(items: seq<Item>, n: nat, k: Key)
    requires UniqueKeys(items)
    ensures Find(Newest(items, n), k).Some? ==> Find(Newest(items, n), k) == Find(items, k)
  {
    if |items| > n {
      var cut := |items| - n;
      FindConcat(items[..cut], items[cut..], k);
      assert items == items[..cut] + items[cut..];
    }
  }

  lemma GetFinds(c: Cache, k: Key, now: real, other: Key)
    requires Wf(c)
    ensures Find(Get(c, k, now).0.items, other).Some? ==> Find(Get(c, k, now).0.items, other) == Find(c.items, other)
  {
    FindWithout(c.items, k, other);
    if Find(c.items, k).Some? {
      FindConcat(Without(c.items, k), [Find(c.items, k).value], other);
    }
  }

  lemma SetFinds(c: Cache, k: Key, v: Value, ttl: real, now: real, other: Key)
    requires Wf(c) && ttl > 0.0
    ensures var d := Set(c, k, Some(v), ttl, now);
      Find(d.items, other).Some? ==>
        Find(d.items, other) == if other == k then Some(Item(k, now + ttl, v)) else Find(c.items, other)
  {
    var x := Item(k, now + ttl, v);
    AppendUnique(c.items, x);
    FindNewest(Without(c.items, k) + [x], c.maxsize, other);
    FindWithout(c.items, k, other);
    FindConcat(Without(c.items, k), [x], other);
  }

  ghost predicate FindsByEffect(d: Cache, e: Effect, after: Cache, k: Key) {
    Find(after.items, k).Some? ==>
      && !e.Removes?
      && (e.Sets? ==> Find(after.items, k) == Some(e.item))
      && (e.Keeps? ==> Find(after.items, k) == Find(d.items, k))
  }

  lemma SetFindsByEffect(d: Cache, j: Key, v: Option<Value>, ttl: real, now: real, k: Key)
    requires Wf(d)
    ensures FindsByEffect(d, EffectOn(d, OpSet(j, v, ttl, now), k), Set(d, j, v, ttl, now), k)
  {
    if ttl <= 0.0 || v.None? { FindWithout(d.items, j, k); } else { SetFinds(d, j, v.value, ttl, now, k); }
  }

  lemma SetIfUnchangedFindsByEffect(d: Cache, j: Key, v: Option<Value>, ttl: real, r: nat, now: real, later: real, k: Key)
    requires Wf(d)
    ensures FindsByEffect(d, EffectOn(d, OpSetIfUnchanged(j, v, ttl, r, now, later), k),
                          SetIfUnchanged(d, j, v, ttl, r, now, later).0, k)
  {
    var (after, stored) := SetIfUnchanged(d, j, v, ttl, r, now, later);
    if stored {
      GetKeepsWf(d, j, now);
      StoredFinds(d, Get(d, j, now).0, after, j, v.value, ttl, now, later, k);
    } else {
      GetFinds(d, j, now, k);
      assert after == d || after == Get(d, j, now).0;
    }
  }

  lemma StoredFinds(d: Cache, g: Cache, after: Cache, j: Key, v: Value, ttl: real, now: real, later: real, k: Key)
    requires Wf(d) && Wf(g) && ttl > 0.0
    requires g == Get(d, j, now).0 && after == Set(g, j, Some(v), ttl, later)
    ensures Find(after.items, k).Some? ==>
      Find(after.items, k) == if j == k then Some(Item(k, later + ttl, v)) else Find(d.items, k)
  {
    SetFinds(g, j, v, ttl, later, k);
    GetFinds(d, j, now, k);
  }

  /** One operation finds what was found before, or what it has just set. */
  lemma OpFinds(d: Cache, op: Op, k: Key)
    requires Wf(d)
    ensures FindsByEffect(d, EffectOn(d, op, k), Run(d, op), k)
  {
    match op {
      case OpGet(j, now) => GetFinds(d, j, now, k);
      case OpSet(j, v, ttl, now) => SetFindsByEffect(d, j, v, ttl, now, k);
      case OpSetIfUnchanged(j, v, ttl, r, now, later) => SetIfUnchangedFindsByEffect(d, j, v, ttl, r, now, later, k);
      case OpDelete(j) => FindWithout(d.items, j, k);
      case OpClear =>
    }
  }

  /** What is found is what was last set. */
  lemma {:induction false} FoundIsLastSet(c: Cache, ops: seq<Op>, k: Key)
    requires Wf(c)
    ensures Find(RunAll(c, ops).items, k).Some? ==> Find(RunAll(c, ops).items, k) == LastSet(c, ops, k)
    decreases |ops|
  {
    if ops != [] && Find(RunAll(c, ops).items, k).Some? {
      var before := ops[..|ops| - 1];
      FoundIsLastSet(c, before, k);
      HistoryRefines(c, before);
      OpFinds(RunAll(c, before), ops[|ops| - 1], k);
    }
  }

  /** A hit after any history returns the value last set, and only before its deadline. */
  lemma HitIsLastSetAndAlive(c: Cache, ops: seq<Op>, k: Key, now: real)
    requires Wf(c) && Get(RunAll(c, ops), k, now).1.Some?
    ensures LastSet(c, ops, k).Some?
    ensures Get(RunAll(c, ops), k, now).1 == Some(LastSet(c, ops, k).value.value)
    ensures now < LastSet(c, ops, k).value.deadline
  {
    FoundIsLastSet(c, ops, k);
  }

  /** The key just set is there, whatever had to be evicted for it. */
  lemma KeyJustSetStays(c: Cache, k: Key, v: Value, ttl: real, now: real)
    requires Wf(c) && ttl > 0.0
    ensures Get(Set(c, k, Some(v), ttl, now), k, now).1 == Some(v)
  {
    var x := Item(k, now + ttl, v);
    var kept := Without(c.items, k) + [x];
    var d := Set(c, k, Some(v), ttl, now);
    SetFinds(c, k, v, ttl, now, k);
    assert d.items[|d.items| - 1] == x;
  }

  // ---- No early eviction -----------------------------------------------------------------

  /** The items after that of k: those touched later. */
  function After(items: seq<Item>, k: Key): (r: seq<Item>)
    ensures |r| <= |items|
    ensures forall x :: x in r ==> x in items
  {
    if items == [] then [] else if items[0].key == k then items[1..] else After(items[1..], k)
  }

  /** x is stored, and only keys in `touched` were touched after it. */
  ghost predicate Near(items: seq<Item>, x: Item, touched: set<Key>) {
    Find(items, x.key) == Some(x) && forall y :: y in After(items, x.key) ==> y.key in touched
  }

  lemma {:induction false} AfterUnique(items: seq<Item>, k: Key)
    requires UniqueKeys(items)
    ensures UniqueKeys(After(items, k))
  {
    if items != [] { AfterUnique(items[1..], k); }
  }

  lemma {:induction false} AtMostAsMany(items: seq<Item>, keys: set<Key>)
    requires UniqueKeys(items) && forall y :: y in items ==> y.key in keys
    ensures |items| <= |keys|
    decreases |items|
  {
    if items != [] {
      forall y | y in items[1..] ensures y.key in keys - {items[0].key} {
        var j :| 0 <= j < |items[1..]| && items[1..][j] == y;
        assert items[j + 1] == y;
      }
      AtMostAsMany(items[1..], keys - {items[0].key});
    }
  }

  lemma {:induction false} SuffixKeeps(items: seq<Item>, k: Key, cut: nat)
    requires Find(items, k).Some? && cut <= |items| && |After(items, k)| < |items| - cut
    ensures Find(items[cut..], k) == Find(items, k) && After(items[cut..], k) == After(items, k)
    decreases |items|
  {
    if cut == 0 {
      assert items[0..] == items;
    } else {
      SuffixKeeps(items[1..], k, cut - 1);
      assert items[1..][cut - 1..] == items[cut..];
    }
  }

  lemma FewAfter(items: seq<Item>, x: Item, touched: set<Key>)
    requires UniqueKeys(items) && Near(items, x, touched)
    ensures |After(items, x.key)| <= |touched|
  {
    AfterUnique(items, x.key);
    AtMostAsMany(After(items, x.key), touched);
  }

  lemma NearSuffix(items: seq<Item>, x: Item, touched: set<Key>, cut: nat)
    requires Near(items, x, touched) && cut <= |items| && |After(items, x.key)| < |items| - cut
    ensures Near(items[cut..], x, touched)
  {
    SuffixKeeps(items, x.key, cut);
  }

  lemma NewestKeeps(items: seq<Item>, x: Item, touched: set<Key>, n: nat)
    requires Near(items, x, touched) && |After(items, x.key)| < n
    ensures Near(Newest(items, n), x, touched)
  {
    if |items| <= n {
      assert Newest(items, n) == items;
    } else {
      var cut := |items| - n;
      assert Newest(items, n) == items[cut..];
      NearSuffix(items, x, touched, cut);
    }
  }

  /** With at most n - 1 items touched after it, x is among the newest n. */
  lemma NewestKeepsNear(items: seq<Item>, x: Item, touched: set<Key>, n: nat)
    requires UniqueKeys(items) && Near(items, x, touched) && |touched| < n
    ensures Near(Newest(items, n), x, touched)
  {
    FewAfter(items, x, touched);
    NewestKeeps(items, x, touched, n);
  }

  lemma {:induction false} AfterWithout(items: seq<Item>, j: Key, k: Key)
    requires j != k
    ensures forall y :: y in After(Without(items, j), k) ==> y in After(items, k)
  {
    if items != [] { AfterWithout(items[1..], j, k); }
  }

  lemma {:induction false} AfterAppend(items: seq<Item>, y: Item, k: Key)
    requires Find(items, k).Some?
    ensures After(items + [y], k) == After(items, k) + [y]
  {
    assert (items + [y])[1..] == items[1..] + [y];
    if items[0].key != k { AfterAppend(items[1..], y, k); }
  }

  lemma OtherMovesUp(items: seq<Item>, x: Item, touched: set<Key>, y: Item)
    requires Near(items, x, touched) && y.key != x.key && y.key in touched
    ensures Near(Without(items, y.key) + [y], x, touched)
  {
    FindWithout(items, y.key, x.key);
    AfterWithout(items, y.key, x.key);
    FindConcat(Without(items, y.key), [y], x.key);
    AfterAppend(Without(items, y.key), y, x.key);
  }

  lemma OtherGoes(items: seq<Item>, x: Item, touched: set<Key>, j: Key)
    requires Near(items, x, touched) && j != x.key
    ensures Near(Without(items, j), x, touched)
  {
    FindWithout(items, j, x.key);
    AfterWithout(items, j, x.key);
  }

  lemma {:induction false} MovedIsLast(items: seq<Item>, x: Item, touched: set<Key>)
    requires forall i :: 0 <= i < |items| ==> items[i].key != x.key
    ensures Near(items + [x], x, touched)
  {
    if items == [] {
      assert items + [x] == [x];
    } else {
      assert (items + [x])[1..] == items[1..] + [x];
      MovedIsLast(items[1..], x, touched);
    }
  }

  /** The operation leaves x to be found: it does not set or remove x's key, clear the
      map, or look the key up after its deadline. */
  predicate Spares(op: Op, x: Item) {
    match op
    case OpGet(j, now) => j == x.key ==> now < x.deadline
    case OpSet(j, _, _, _) => j != x.key
    case OpSetIfUnchanged(j, _, _, _, now, _) => j == x.key ==> now < x.deadline
    case OpDelete(j) => j != x.key
    case OpClear => false
  }

  function KeysTouched(op: Op): set<Key> {
    match op
    case OpGet(j, _) => {j}
    case OpSet(j, _, _, _) => {j}
    case OpSetIfUnchanged(j, _, _, _, _, _) => {j}
    case OpDelete(_) => {}
    case OpClear => {}
  }

  function OthersTouched(ops: seq<Op>, k: Key): set<Key> {
    if ops == [] then {} else OthersTouched(ops[..|ops| - 1], k) + (KeysTouched(ops[|ops| - 1]) - {k})
  }

  lemma GetKeepsNear(d: Cache, x: Item, touched: set<Key>, j: Key, now: real)
    requires Wf(d) && Near(d.items, x, touched)
    requires if j == x.key then now < x.deadline else j in touched
    ensures Near(Get(d, j, now).0.items, x, touched)
  {
    var found := Find(d.items, j);
    if j == x.key {
      WithoutKeys(d.items, j);
      MovedIsLast(Without(d.items, j), x, touched);
    } else if found.Some? {
      OtherGoes(d.items, x, touched, j);
      OtherMovesUp(d.items, x, touched, found.value);
    }
  }

  lemma WithoutKeys(items: seq<Item>, k: Key)
    ensures forall i :: 0 <= i < |Without(items, k)| ==> Without(items, k)[i].key != k
  {
    forall i | 0 <= i < |Without(items, k)| ensures Without(items, k)[i].key != k {
      assert Without(items, k)[i] in Without(items, k);
    }
  }

  lemma SetKeepsNear(d: Cache, x: Item, touched: set<Key>, j: Key, v: Option<Value>, ttl: real, now: real)
    requires Wf(d) && Near(d.items, x, touched) && j != x.key && j in touched && |touched| < d.maxsize
    ensures Near(Set(d, j, v, ttl, now).items, x, touched)
  {
    OtherGoes(d.items, x, touched, j);
    if ttl > 0.0 && v.Some? {
      var y := Item(j, now + ttl, v.value);
      AppendUnique(d.items, y);
      OtherMovesUp(d.items, x, touched, y);
      NewestKeepsNear(Without(d.items, j) + [y], x, touched, d.maxsize);
    }
  }

  lemma OpKeepsNear(d: Cache, op: Op, x: Item, touched: set<Key>)
    requires Wf(d) && Near(d.items, x, touched) && Spares(op, x)
    requires KeysTouched(op) - {x.key} <= touched && |touched| < d.maxsize
    ensures Near(Run(d, op).items, x, touched)
  {
    match op
    case OpGet(j, now) => GetKeepsNear(d, x, touched, j, now);
    case OpSet(j, v, ttl, now) => SetKeepsNear(d, x, touched, j, v, ttl, now);
    case OpSetIfUnchanged(j, v, ttl, r, now, later) =>
      GetKeepsNear(d, x, touched, j, now);
      GetKeepsWf(d, j, now);
      if j != x.key {
        SetKeepsNear(Get(d, j, now).0, x, touched, j, v, ttl, later);
      }
    case OpDelete(j) => OtherGoes(d.items, x, touched, j);
  }

  lemma NearMore(items: seq<Item>, x: Item, touched: set<Key>, more: set<Key>)
    requires Near(items, x, touched) && touched <= more
    ensures Near(items, x, more)
  {
  }

  lemma SmallerPart(a: set<Key>, b: set<Key>)
    requires a <= b
    ensures |a| <= |b|
  {
    assert b == a + (b - a);
    assert |a + (b - a)| == |a| + |b - a|;
  }

  lemma {:induction false} StaysNear(c: Cache, ops: seq<Op>, x: Item)
    requires Wf(c) && Near(c.items, x, {}) && |OthersTouched(ops, x.key)| < c.maxsize
    requires forall i :: 0 <= i < |ops| ==> Spares(ops[i], x)
    ensures Near(RunAll(c, ops).items, x, OthersTouched(ops, x.key))
    ensures RunAll(c, ops).maxsize == c.maxsize
    decreases |ops|
  {
    if ops != [] {
      var before, op := ops[..|ops| - 1], ops[|ops| - 1];
      var touched := OthersTouched(ops, x.key);
      SmallerPart(OthersTouched(before, x.key), touched);
      StaysNear(c, before, x);
      HistoryRefines(c, before);
      NearMore(RunAll(c, before).items, x, OthersTouched(before, x.key), touched);
      OpKeepsNear(RunAll(c, before), op, x, touched);
    }
  }

  /** No early eviction: a key just set is a hit until its deadline, with its value, as
      long as it is not set or removed again and fewer than `maxsize` other keys were
      touched since. */
  lemma RecentKeyIsAHit(c: Cache, k: Key, v: Value, ttl: real, at: real, ops: seq<Op>, now: real)
    requires Wf(c) && ttl > 0.0 && now < at + ttl
    requires forall i :: 0 <= i < |ops| ==> Spares(ops[i], Item(k, at + ttl, v))
    requires |OthersTouched(ops, k)| < c.maxsize
    ensures Get(RunAll(Set(c, k, Some(v), ttl, at), ops), k, now).1 == Some(v)
  {
    var x := Item(k, at + ttl, v);
    var d := Set(c, k, Some(v), ttl, at);
    AppendUnique(c.items, x);
    NewestUnique(Without(c.items, k) + [x], c.maxsize);
    WithoutKeys(c.items, k);
    MovedIsLast(Without(c.items, k), x, {});
    NewestKeepsNear(Without(c.items, k) + [x], x, {}, c.maxsize);
    StaysNear(d, ops, x);
  }

  /** A fill that started before an invalidation is refused. */
  lemma StaleRevisionIsRefused(c: Cache, k: Key, gone: Key, v: Option<Value>, ttl: real, now: real, later: real, ops: seq<Op>)
    requires Wf(c)
    ensures var after := RunAll(Delete(c, gone), ops);
      SetIfUnchanged(after, k, v, ttl, c.revision, now, later) == (after, false)
  {
    RevisionOnlyGrows(Delete(c, gone), ops);
  }

  lemma {:induction false} RevisionOnlyGrows(c: Cache, ops: seq<Op>)
    ensures RunAll(c, ops).revision >= c.revision
    decreases |ops|
  {
    if ops != [] { RevisionOnlyGrows(c, ops[..|ops| - 1]); }
  }
}
