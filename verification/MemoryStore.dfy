/** The in-process stand-in for Redis: an insertion-ordered dictionary with lazy
    expiry, a sweep of expired entries when it is full, and, when it is full of live
    entries, eviction of the oldest-inserted tenth. */
module MemoryStore {
  import opened Store

  const MAX_KEYS: nat := 100_000

  /** The dictionary: its entries and the order in which its keys were inserted. */
  datatype Mem = Mem(data: Plain, order: seq<Key>)

  ghost predicate Distinct(s: seq<Key>) {
    forall i, j :: 0 <= i < j < |s| ==> s[i] != s[j]
  }

  ghost predicate WellFormed(mem: Mem) {
    && Distinct(mem.order)
    && (forall k :: k in mem.data <==> k in mem.order)
  }

  // ---------------------------------------------------------------- specification

  /** The keys of `s` that are in `keep`, in order. */
  function Filter(s: seq<Key>, keep: set<Key>): seq<Key> {
    if s == [] then []
    else if s[|s| - 1] in keep then Filter(s[..|s| - 1], keep) + [s[|s| - 1]]
    else Filter(s[..|s| - 1], keep)
  }

  function Restrict(mem: Mem, keep: set<Key>): Mem {
    Mem(map k | k in mem.data && k in keep :: mem.data[k], Filter(mem.order, keep))
  }

  function Erase(mem: Mem, key: Key): Mem {
    Restrict(mem, mem.data.Keys - {key})
  }

  /** Reading a key removes its entry when the deadline has passed. */
  function Look(mem: Mem, key: Key, now: real): Mem {
    if key in mem.data && !Alive(mem.data[key], now)
    then Erase(mem, key) else mem
  }

  /** The dictionary without its `n` oldest-inserted keys. */
  function DropOldest(mem: Mem, n: nat): Mem
    requires n <= |mem.order|
  {
    Mem(map k | k in mem.data && k !in mem.order[..n] :: mem.data[k], mem.order[n..])
  }

  function Swept(mem: Mem, now: real): Mem {
    Restrict(mem, LiveKeys(mem.data, now))
  }

  function Prune(mem: Mem, now: real): Mem {
    if |mem.order| < MAX_KEYS then mem
    else if |Swept(mem, now).order| < MAX_KEYS then Swept(mem, now)
    else DropOldest(Swept(mem, now), MAX_KEYS / 10)
  }

  function Put(mem: Mem, key: Key, item: Item, now: real): Mem {
    var p := Prune(mem, now);
    Mem(p.data[key := item], if key in p.data then p.order else p.order + [key])
  }

  /** The deadline of a stored value: the old one when it is kept and the key is present. */
  function Stamp(mem: Mem, key: Key, ttl: Option<int>, keepTtl: bool, now: real): Option<real> {
    if keepTtl && key in mem.data then mem.data[key].expires else Deadline(ttl, now)
  }

  function PutValue(mem: Mem, key: Key, value: Value, ttl: Option<int>, keepTtl: bool, at: Readings): Mem {
    Put(mem, key, Item(value, Stamp(mem, key, ttl, keepTtl, at.stamp)), at.sweep)
  }

  /** The counting itself, once an expired entry is out of the way. */
  function AddLive(m: Mem, key: Key, delta: int, at: Readings): (Mem, Reply) {
    var n := if key in m.data then AsInt(m.data[key].value) else Some(0);
    if n.None? then (m, Raised)
    else (PutValue(m, key, Num(n.value + delta), None, true, at), Count(n.value + delta))
  }

  function MemAdd(mem: Mem, key: Key, delta: int, at: Readings): (Mem, Reply) {
    AddLive(Look(mem, key, at.look), key, delta, at)
  }

  function MemStep(mem: Mem, c: Command, at: Readings): (Mem, Reply) {
    match c
    case Get(k) =>
      var m := Look(mem, k, at.look);
      (m, if k in m.data then Found(m.data[k].value) else Absent)
    case Set(k, v, nx, ttl) =>
      var m := if nx then Look(mem, k, at.look) else mem;
      if nx && k in m.data then (m, Flag(false))
      else (PutValue(m, k, v, ttl, false, at), Flag(true))
    case Incr(k) => MemAdd(mem, k, 1, at)
    case Decr(k) => MemAdd(mem, k, -1, at)
    case Expire(k, seconds) =>
      var m := Look(mem, k, at.look);
      if k !in m.data then (m, Flag(false))
      else (m.(data := m.data[k := Item(m.data[k].value, Some(at.stamp + seconds as real))]), Flag(true))
    case Delete(k) => (Erase(mem, k), Empty)
  }

  // ---------------------------------------------------------------- well-formedness and size

  lemma {:induction false} FilterMembers(s: seq<Key>, keep: set<Key>)
    ensures forall k :: k in Filter(s, keep) <==> k in s && k in keep
    ensures |Filter(s, keep)| <= |s|
  {
    if s != [] {
      var front, last := s[..|s| - 1], s[|s| - 1];
      FilterMembers(front, keep);
      assert s == front + [last];
    }
  }

  lemma {:induction false} FilterDistinct(s: seq<Key>, keep: set<Key>)
    requires Distinct(s)
    ensures Distinct(Filter(s, keep))
  {
    if s != [] {
      var front, last := s[..|s| - 1], s[|s| - 1];
      FilterDistinct(front, keep);
      FilterMembers(front, keep);
      assert last !in front;
    }
  }

  lemma {:induction false} FilterAll(s: seq<Key>, keep: set<Key>)
    requires forall k :: k in s ==> k in keep
    ensures Filter(s, keep) == s
  {
    if s != [] {
      FilterAll(s[..|s| - 1], keep);
    }
  }

  lemma {:induction false} FilterTwice(s: seq<Key>, a: set<Key>, b: set<Key>)
    ensures Filter(Filter(s, a), b) == Filter(s, a * b)
  {
    if s != [] {
      var front, last := s[..|s| - 1], s[|s| - 1];
      FilterTwice(front, a, b);
      if last in a {
        assert (Filter(front, a) + [last])[..|Filter(front, a)|] == Filter(front, a);
      }
    }
  }

  /** Only the kept keys that occur in the sequence matter. */
  lemma {:induction false} FilterSame(s: seq<Key>, a: set<Key>, b: set<Key>)
    requires forall k :: k in s ==> (k in a <==> k in b)
    ensures Filter(s, a) == Filter(s, b)
  {
    if s != [] {
      FilterSame(s[..|s| - 1], a, b);
    }
  }

  lemma RestrictWellFormed(mem: Mem, keep: set<Key>)
    requires WellFormed(mem)
    ensures WellFormed(Restrict(mem, keep)) && |Restrict(mem, keep).order| <= |mem.order|
  {
    FilterMembers(mem.order, keep);
    FilterDistinct(mem.order, keep);
  }

  /** Erasing one more key from a restriction restricts it further. */
  lemma RestrictErase(mem: Mem, keep: set<Key>, key: Key)
    requires WellFormed(mem)
    ensures Erase(Restrict(mem, keep), key) == Restrict(mem, keep - {key})
  {
    var r := Restrict(mem, keep);
    FilterTwice(mem.order, keep, r.data.Keys - {key});
    FilterSame(mem.order, keep * (r.data.Keys - {key}), keep - {key});
    assert Erase(r, key).data == Restrict(mem, keep - {key}).data;
  }

  lemma DropOldestWellFormed(mem: Mem, n: nat)
    requires WellFormed(mem) && n <= |mem.order|
    ensures WellFormed(DropOldest(mem, n))
  {
    assert mem.order == mem.order[..n] + mem.order[n..];
  }

  /** Erasing the oldest key of what is left drops one more of the oldest. */
  lemma EraseOldest(mem: Mem, n: nat)
    requires WellFormed(mem) && n < |mem.order|
    ensures Erase(DropOldest(mem, n), mem.order[n]) == DropOldest(mem, n + 1)
  {
    var d, key := DropOldest(mem, n), mem.order[n];
    var keep := d.data.Keys - {key};
    EraseOldestOrder(mem, n);
    assert Erase(d, key).order == mem.order[n + 1..];
    forall k ensures k in Erase(d, key).data <==> k in DropOldest(mem, n + 1).data {
      assert mem.order[..n + 1] == mem.order[..n] + [key];
    }
    assert Erase(d, key).data == DropOldest(mem, n + 1).data;
  }

  lemma EraseOldestOrder(mem: Mem, n: nat)
    requires WellFormed(mem) && n < |mem.order|
    ensures Erase(DropOldest(mem, n), mem.order[n]).order == mem.order[n + 1..]
  {
    var d, key := DropOldest(mem, n), mem.order[n];
    DropOldestWellFormed(mem, n);
    var keep := d.data.Keys - {key};
    FilterHead(d.order, keep);
    assert d.order[1..] == mem.order[n + 1..];
    forall k | k in d.order[1..] ensures k in keep {
      assert k in d.order;
    }
    FilterAll(d.order[1..], keep);
  }

  lemma {:induction false} FilterHead(s: seq<Key>, keep: set<Key>)
    requires s != []
    ensures Filter(s, keep) == (if s[0] in keep then [s[0]] else []) + Filter(s[1..], keep)
  {
    if |s| > 1 {
      var front := s[..|s| - 1];
      FilterHead(front, keep);
      assert front[1..] == s[1..][..|s| - 2];
    }
  }

  lemma PruneWellFormed(mem: Mem, now: real)
    requires WellFormed(mem)
    ensures WellFormed(Prune(mem, now)) && |Prune(mem, now).order| <= |mem.order|
    ensures |mem.order| <= MAX_KEYS ==> |Prune(mem, now).order| < MAX_KEYS
  {
    RestrictWellFormed(mem, LiveKeys(mem.data, now));
    if |mem.order| >= MAX_KEYS && |Swept(mem, now).order| >= MAX_KEYS {
      DropOldestWellFormed(Swept(mem, now), MAX_KEYS / 10);
    }
  }

  ghost function Except(keys: set<Key>, gone: seq<Key>): set<Key> {
    set k | k in keys && k !in gone
  }

  lemma ExceptStep(keys: set<Key>, gone: seq<Key>, i: nat)
    requires i < |gone|
    ensures Except(keys, gone[..i + 1]) == Except(keys, gone[..i]) - {gone[i]}
  {
    assert gone[..i + 1] == gone[..i] + [gone[i]];
  }

  lemma RestrictAll(mem: Mem)
    requires WellFormed(mem)
    ensures Restrict(mem, mem.data.Keys) == mem
  {
    FilterAll(mem.order, mem.data.Keys);
    assert Restrict(mem, mem.data.Keys).data == mem.data;
  }

  /** Without the expired keys the live ones are left. */
  lemma ExceptExpired(mem: Mem, live: set<Key>)
    requires WellFormed(mem) && live <= mem.data.Keys
    ensures Except(mem.data.Keys, Filter(mem.order, mem.data.Keys - live)) == live
  {
    FilterMembers(mem.order, mem.data.Keys - live);
  }

  // ---------------------------------------------------------------- the class

  class MemoryStore {
    var dict: Mem

    ghost predicate Valid()
      reads this
    {
      WellFormed(dict)
    }

    constructor ()
      ensures Valid() && dict == Mem(map[], [])
    {
      dict := Mem(map[], []);
    }

    /** Removes one key from the dictionary. */
    method Remove(key: Key)
      requires Valid()
      modifies this
      ensures Valid() && dict == Erase(old(dict), key)
    {
      RestrictWellFormed(dict, dict.data.Keys - {key});
      dict := Erase(dict, key);
    }

    method Live(key: Key, now: real) returns (value: Option<Value>)
      requires Valid()
      modifies this
      ensures Valid() && dict == Look(old(dict), key, now)
      ensures value == if key in dict.data then Some(dict.data[key].value) else None
    {
      if key !in dict.data { return None; }
      if !Alive(dict.data[key], now) {
        Remove(key);
        return None;
      }
      return Some(dict.data[key].value);
    }

    method PruneFull(now: real)
      requires Valid()
      modifies this
      ensures Valid() && dict == Prune(old(dict), now)
    {
      if |dict.order| < MAX_KEYS { return; }
      SweepExpired(now);
      if |dict.order| >= MAX_KEYS {
        EvictOldest(MAX_KEYS / 10);
      }
    }

    method SweepExpired(now: real)
      requires Valid()
      modifies this
      ensures Valid() && dict == Swept(old(dict), now)
    {
      ghost var before := dict;
      var live := LiveKeys(dict.data, now);
      var expired := Filter(dict.order, dict.data.Keys - live);
      RestrictAll(dict);
      ExceptExpired(dict, live);
      ghost var keep := dict.data.Keys;
      var i := 0;
      while i < |expired|
        invariant 0 <= i <= |expired|
        invariant Valid() && dict == Restrict(before, keep)
        invariant keep == Except(before.data.Keys, expired[..i])
      {
        Remove(expired[i]);
        RestrictErase(before, keep, expired[i]);
        ExceptStep(before.data.Keys, expired, i);
        keep := keep - {expired[i]};
        i := i + 1;
      }
      assert expired[..i] == expired;
      assert keep == live;
    }

    method EvictOldest(n: nat)
      requires Valid() && n <= |dict.order|
      modifies this
      ensures Valid() && dict == DropOldest(old(dict), n)
    {
      ghost var before := dict;
      var oldest := dict.order[..n];
      assert DropOldest(before, 0).data == before.data;
      var i := 0;
      while i < n
        invariant 0 <= i <= n
        invariant Valid() && dict == DropOldest(before, i)
      {
        Remove(oldest[i]);
        EraseOldest(before, i);
        i := i + 1;
      }
    }

    method PutItem(key: Key, value: Value, ttl: Option<int>, keepTtl: bool, at: Readings)
      requires Valid()
      modifies this
      ensures Valid() && dict == PutValue(old(dict), key, value, ttl, keepTtl, at)
    {
      var expires := if keepTtl && key in dict.data then dict.data[key].expires else Deadline(ttl, at.stamp);
      PruneFull(at.sweep);
      var order := if key in dict.data then dict.order else dict.order + [key];
      dict := Mem(dict.data[key := Item(value, expires)], order);
    }

    method Add(key: Key, delta: int, at: Readings) returns (r: Reply)
      requires Valid()
      modifies this
      ensures Valid() && (dict, r) == MemAdd(old(dict), key, delta, at)
    {
      var found := Live(key, at.look);
      r := AddTo(key, found, delta, at);
    }

    method AddTo(key: Key, found: Option<Value>, delta: int, at: Readings) returns (r: Reply)
      requires Valid() && found == if key in dict.data then Some(dict.data[key].value) else None
      modifies this
      ensures Valid() && (dict, r) == AddLive(old(dict), key, delta, at)
    {
      var n := if found.None? then Some(0) else AsInt(found.value);
      if n.None? { return Raised; }
      PutItem(key, Num(n.value + delta), None, true, at);
      return Count(n.value + delta);
    }

    method Incr(key: Key, at: Readings) returns (r: Reply)
      requires Valid()
      modifies this
      ensures Valid() && (dict, r) == MemStep(old(dict), Command.Incr(key), at)
    {
      r := Add(key, 1, at);
    }

    method Decr(key: Key, at: Readings) returns (r: Reply)
      requires Valid()
      modifies this
      ensures Valid() && (dict, r) == MemStep(old(dict), Command.Decr(key), at)
    {
      r := Add(key, -1, at);
    }

    method Expire(key: Key, seconds: int, at: Readings) returns (r: Reply)
      requires Valid()
      modifies this
      ensures Valid() && (dict, r) == MemStep(old(dict), Command.Expire(key, seconds), at)
    {
      var found := Live(key, at.look);
      if found.None? { return Flag(false); }
      dict := dict.(data := dict.data[key := Item(dict.data[key].value, Some(at.stamp + seconds as real))]);
      return Flag(true);
    }

    method Get(key: Key, at: Readings) returns (r: Reply)
      requires Valid()
      modifies this
      ensures Valid() && (dict, r) == MemStep(old(dict), Command.Get(key), at)
    {
      var found := Live(key, at.look);
      return if found.None? then Absent else Found(found.value);
    }

    method Set(key: Key, value: Value, nx: bool, ttl: Option<int>, at: Readings) returns (r: Reply)
      requires Valid()
      modifies this
      ensures Valid() && (dict, r) == MemStep(old(dict), Command.Set(key, value, nx, ttl), at)
    {
      if nx {
        var found := Live(key, at.look);
        if found.Some? { return Flag(false); }
      }
      PutItem(key, value, ttl, false, at);
      return Flag(true);
    }

    method Delete(key: Key, at: Readings) returns (r: Reply)
      requires Valid()
      modifies this
      ensures Valid() && (dict, r) == MemStep(old(dict), Command.Delete(key), at)
    {
      Remove(key);
      return Empty;
    }
  }
}
