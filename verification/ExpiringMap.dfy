/** The in-process store refines the plain expiring map, and it stays bounded. */
module ExpiringMap {
  import opened Store
  import opened MemoryStore

  datatype Issued = Issued(cmd: Command, at: Readings)

  /** Both hold the same live entries, now and at any later time. */
  ghost predicate Agree(data: Plain, plain: Plain, now: real) {
    && (forall k :: k in data && Alive(data[k], now) ==> k in plain && plain[k] == data[k])
    && (forall k :: k in plain && Alive(plain[k], now) ==> k in data && data[k] == plain[k])
  }

  /** Clock readings never go back, within a command or from one to the next. */
  predicate InOrder(from: real, run: seq<Issued>)
    decreases |run|
  {
    run == [] ||
    (from <= run[0].at.look <= run[0].at.stamp <= run[0].at.sweep && InOrder(run[0].at.sweep, run[1..]))
  }

  function PlainRun(m: Plain, run: seq<Issued>): (r: (Plain, seq<Reply>))
    decreases |run|
  {
    if run == [] then (m, [])
    else
      var (m1, reply) := PlainStep(m, run[0].cmd, run[0].at);
      var (m2, rest) := PlainRun(m1, run[1..]);
      (m2, [reply] + rest)
  }

  function MemRun(m: Mem, run: seq<Issued>): (r: (Mem, seq<Reply>))
    decreases |run|
  {
    if run == [] then (m, [])
    else
      var (m1, reply) := MemStep(m, run[0].cmd, run[0].at);
      var (m2, rest) := MemRun(m1, run[1..]);
      (m2, [reply] + rest)
  }

  /** Before every command of the run the plain map has fewer than MAX_KEYS live keys. */
  ghost predicate Roomy(m: Plain, run: seq<Issued>)
    decreases |run|
  {
    run == [] ||
    (|LiveKeys(m, run[0].at.sweep)| < MAX_KEYS && Roomy(PlainStep(m, run[0].cmd, run[0].at).0, run[1..]))
  }

  // ---------------------------------------------------------------- refinement

  lemma AgreeLater(data: Plain, plain: Plain, now: real, later: real)
    requires Agree(data, plain, now) && now <= later
    ensures Agree(data, plain, later)
  {
  }

  lemma LookAgrees(mem: Mem, plain: Plain, key: Key, now: real)
    requires WellFormed(mem) && Agree(mem.data, plain, now)
    ensures WellFormed(Look(mem, key, now)) && Agree(Look(mem, key, now).data, plain, now)
    ensures key in Look(mem, key, now).data <==> Live(plain, key, now)
    ensures Live(plain, key, now) ==> Look(mem, key, now).data[key] == plain[key]
  {
    RestrictWellFormed(mem, mem.data.Keys - {key});
  }

  /** A dictionary has as many keys as its insertion order is long. */
  lemma {:induction false} DistinctSize(s: seq<Key>)
    requires Distinct(s)
    ensures |set k | k in s| == |s|
  {
    if s != [] {
      var front, last := s[..|s| - 1], s[|s| - 1];
      DistinctSize(front);
      assert s == front + [last] && last !in front;
      assert (set k | k in s) == (set k | k in front) + {last};
    }
  }

  lemma SweptSize(mem: Mem, now: real)
    requires WellFormed(mem)
    ensures Swept(mem, now).data.Keys == LiveKeys(mem.data, now)
    ensures |Swept(mem, now).order| == |LiveKeys(mem.data, now)|
  {
    var r := Swept(mem, now);
    RestrictWellFormed(mem, LiveKeys(mem.data, now));
    DistinctSize(r.order);
    assert (set k | k in r.order) == r.data.Keys;
    assert r.data.Keys == LiveKeys(mem.data, now);
  }

  /** With room for every live entry a prune drops only expired ones. */
  lemma PruneAgrees(mem: Mem, plain: Plain, now: real)
    requires WellFormed(mem) && Agree(mem.data, plain, now)
    requires |LiveKeys(plain, now)| < MAX_KEYS
    ensures WellFormed(Prune(mem, now)) && Agree(Prune(mem, now).data, plain, now)
    ensures forall k :: k in Prune(mem, now).data ==> k in mem.data && Prune(mem, now).data[k] == mem.data[k]
  {
    PruneWellFormed(mem, now);
    SweptSize(mem, now);
    assert LiveKeys(mem.data, now) == LiveKeys(plain, now);
  }

  lemma PutAgrees(mem: Mem, plain: Plain, key: Key, item: Item, now: real)
    requires WellFormed(mem) && Agree(mem.data, plain, now)
    requires |LiveKeys(plain, now)| < MAX_KEYS
    ensures WellFormed(Put(mem, key, item, now))
    ensures Agree(Put(mem, key, item, now).data, plain[key := item], now)
  {
    PruneAgrees(mem, plain, now);
    PutWellFormed(mem, key, item, now);
    AgreeUpdated(Prune(mem, now).data, plain, key, item, now);
  }

  lemma AgreeUpdated(data: Plain, plain: Plain, key: Key, item: Item, now: real)
    requires Agree(data, plain, now)
    ensures Agree(data[key := item], plain[key := item], now)
  {
  }

  lemma PutWellFormed(mem: Mem, key: Key, item: Item, now: real)
    requires WellFormed(mem)
    ensures WellFormed(Put(mem, key, item, now))
    ensures |mem.order| <= MAX_KEYS ==> |Put(mem, key, item, now).order| <= MAX_KEYS
  {
    PruneWellFormed(mem, now);
  }

  lemma StepAgrees(mem: Mem, plain: Plain, c: Command, at: Readings)
    requires WellFormed(mem) && Agree(mem.data, plain, at.look)
    requires at.look <= at.stamp <= at.sweep && |LiveKeys(plain, at.sweep)| < MAX_KEYS
    ensures MemStep(mem, c, at).1 == PlainStep(plain, c, at).1
    ensures WellFormed(MemStep(mem, c, at).0)
    ensures Agree(MemStep(mem, c, at).0.data, PlainStep(plain, c, at).0, at.sweep)
  {
    LookAgrees(mem, plain, c.key, at.look);
    var m := Look(mem, c.key, at.look);
    AgreeLater(m.data, plain, at.look, at.sweep);
    AgreeLater(mem.data, plain, at.look, at.sweep);
    match c {
      case Get(k) =>
      case Set(k, v, nx, ttl) =>
        PutAgrees(if nx then m else mem, plain, k, Item(v, Stamp(mem, k, ttl, false, at.stamp)), at.sweep);
      case Incr(k) => AddAgrees(mem, plain, k, 1, at);
      case Decr(k) => AddAgrees(mem, plain, k, -1, at);
      case Expire(k, seconds) =>
      case Delete(k) => RestrictWellFormed(mem, mem.data.Keys - {k});
    }
  }

  lemma AddAgrees(mem: Mem, plain: Plain, key: Key, delta: int, at: Readings)
    requires WellFormed(mem) && Agree(mem.data, plain, at.look)
    requires at.look <= at.stamp <= at.sweep && |LiveKeys(plain, at.sweep)| < MAX_KEYS
    ensures Matches(MemAdd(mem, key, delta, at), PlainAdd(plain, key, delta, at.look), at.sweep)
  {
    LookAgrees(mem, plain, key, at.look);
    AddLiveAgrees(Look(mem, key, at.look), plain, key, delta, at);
  }

  lemma AddLiveAgrees(m: Mem, plain: Plain, key: Key, delta: int, at: Readings)
    requires WellFormed(m) && Agree(m.data, plain, at.look)
    requires at.look <= at.stamp <= at.sweep && |LiveKeys(plain, at.sweep)| < MAX_KEYS
    requires (key in m.data <==> Live(plain, key, at.look)) && (key in m.data ==> m.data[key] == plain[key])
    ensures Matches(AddLive(m, key, delta, at), PlainAdd(plain, key, delta, at.look), at.sweep)
  {
    AgreeLater(m.data, plain, at.look, at.sweep);
    var n := if key in m.data then AsInt(m.data[key].value) else Some(0);
    if n.Some? { AddCounts(m, plain, key, delta, at, n.value); } else { AddRaises(m, plain, key, delta, at); }
  }

  lemma AddRaises(m: Mem, plain: Plain, key: Key, delta: int, at: Readings)
    requires WellFormed(m) && Agree(m.data, plain, at.sweep)
    requires key in m.data && AsInt(m.data[key].value).None? && Live(plain, key, at.look) && m.data[key] == plain[key]
    ensures Matches(AddLive(m, key, delta, at), PlainAdd(plain, key, delta, at.look), at.sweep)
  {
    assert AddLive(m, key, delta, at) == (m, Raised);
    assert PlainAdd(plain, key, delta, at.look) == (plain, Raised);
  }

  lemma AddCounts(m: Mem, plain: Plain, key: Key, delta: int, at: Readings, n: int)
    requires WellFormed(m) && Agree(m.data, plain, at.sweep) && |LiveKeys(plain, at.sweep)| < MAX_KEYS
    requires (key in m.data <==> Live(plain, key, at.look)) && (key in m.data ==> m.data[key] == plain[key])
    requires (if key in m.data then AsInt(m.data[key].value) else Some(0)) == Some(n)
    ensures Matches(AddLive(m, key, delta, at), PlainAdd(plain, key, delta, at.look), at.sweep)
  {
    AddLiveIsPut(m, key, delta, at, n);
    PlainAddIsUpdate(m, plain, key, delta, at.look, n);
    PutMatches(m, plain, key, CountItem(m, key, n + delta), at.sweep, Count(n + delta));
  }

  /** The same reply, and the same live entries afterwards. */
  ghost predicate Matches(mem: (Mem, Reply), plain: (Plain, Reply), now: real) {
    mem.1 == plain.1 && WellFormed(mem.0) && Agree(mem.0.data, plain.0, now)
  }

  lemma PutMatches(m: Mem, plain: Plain, key: Key, item: Item, now: real, r: Reply)
    requires WellFormed(m) && Agree(m.data, plain, now) && |LiveKeys(plain, now)| < MAX_KEYS
    ensures Matches((Put(m, key, item, now), r), (plain[key := item], r), now)
  {
    PutAgrees(m, plain, key, item, now);
  }

  /** The entry that holds the new count: it keeps the deadline there was. */
  function CountItem(m: Mem, key: Key, n: int): Item {
    Item(Num(n), if key in m.data then m.data[key].expires else None)
  }

  lemma AddLiveIsPut(m: Mem, key: Key, delta: int, at: Readings, n: int)
    requires (if key in m.data then AsInt(m.data[key].value) else Some(0)) == Some(n)
    ensures AddLive(m, key, delta, at) == (Put(m, key, CountItem(m, key, n + delta), at.sweep), Count(n + delta))
  {
  }

  lemma PlainAddIsUpdate(m: Mem, plain: Plain, key: Key, delta: int, now: real, n: int)
    requires (key in m.data <==> Live(plain, key, now)) && (key in m.data ==> m.data[key] == plain[key])
    requires (if key in m.data then AsInt(m.data[key].value) else Some(0)) == Some(n)
    ensures PlainAdd(plain, key, delta, now) == (plain[key := CountItem(m, key, n + delta)], Count(n + delta))
  {
  }

  /** Every run of commands gets the same replies from both, as long as the clock does
      not go back and there is room for the live keys. */
  lemma {:induction false} Refinement(mem: Mem, plain: Plain, from: real, run: seq<Issued>)
    requires WellFormed(mem) && Agree(mem.data, plain, from)
    requires InOrder(from, run) && Roomy(plain, run)
    ensures MemRun(mem, run).1 == PlainRun(plain, run).1
    decreases |run|
  {
    if run != [] {
      var c, at := run[0].cmd, run[0].at;
      AgreeLater(mem.data, plain, from, at.look);
      StepAgrees(mem, plain, c, at);
      Refinement(MemStep(mem, c, at).0, PlainStep(plain, c, at).0, at.sweep, run[1..]);
    }
  }

  lemma {:induction false} SubsetSize(a: set<Key>, b: set<Key>)
    requires a <= b
    ensures |a| <= |b|
    decreases a
  {
    if a != {} {
      var x :| x in a;
      SubsetSize(a - {x}, b - {x});
    }
  }

  /** The room condition is exact: a prune keeps every live entry if and only if fewer
      than MAX_KEYS entries are live. */
  lemma PruneExact(mem: Mem, now: real)
    requires WellFormed(mem)
    ensures (forall k :: Live(mem.data, k, now) ==> Live(Prune(mem, now).data, k, now))
            <==> |LiveKeys(mem.data, now)| < MAX_KEYS
  {
    SweptSize(mem, now);
    if |LiveKeys(mem.data, now)| < MAX_KEYS {
      PruneAgrees(mem, mem.data, now);
    } else {
      RestrictWellFormed(mem, LiveKeys(mem.data, now));
      var s := Swept(mem, now);
      var oldest := s.order[0];
      assert oldest in s.order && oldest in s.data;
      assert oldest == s.order[..MAX_KEYS / 10][0];
      RestrictWellFormed(mem, mem.data.Keys);
      SizeIsOrder(mem);
      SizeIsOrder(s);
      SubsetSize(LiveKeys(mem.data, now), mem.data.Keys);
      assert Prune(mem, now) == DropOldest(s, MAX_KEYS / 10);
      assert Live(mem.data, oldest, now) && !Live(Prune(mem, now).data, oldest, now);
    }
  }

  /** How many entries a prune leaves: all below 100,000; then the live ones; and of 100,000 or
      more live ones all but 10,000. */
  lemma PruneSize(mem: Mem, now: real)
    requires WellFormed(mem)
    ensures |Prune(mem, now).data| == if |mem.data| < 100_000 then |mem.data|
                                      else if |LiveKeys(mem.data, now)| < 100_000 then |LiveKeys(mem.data, now)|
                                      else |LiveKeys(mem.data, now)| - 10_000
  {
    PruneLength(mem, now);
    PruneWellFormed(mem, now);
    SizeIsOrder(mem);
    SizeIsOrder(Prune(mem, now));
  }

  lemma PruneLength(mem: Mem, now: real)
    requires WellFormed(mem)
    ensures |Prune(mem, now).order| == if |mem.order| < 100_000 then |mem.order|
                                       else if |LiveKeys(mem.data, now)| < 100_000 then |LiveKeys(mem.data, now)|
                                       else |LiveKeys(mem.data, now)| - 10_000
  {
    SweptSize(mem, now);
  }

  // ---------------------------------------------------------------- bounded size

  lemma StepBounded(mem: Mem, c: Command, at: Readings)
    requires WellFormed(mem) && |mem.order| <= MAX_KEYS
    ensures WellFormed(MemStep(mem, c, at).0) && |MemStep(mem, c, at).0.order| <= MAX_KEYS
  {
    RestrictWellFormed(mem, mem.data.Keys - {c.key});
    var m := Look(mem, c.key, at.look);
    match c {
      case Get(k) =>
      case Set(k, v, nx, ttl) =>
        PutWellFormed(if nx then m else mem, k, Item(v, Stamp(mem, k, ttl, false, at.stamp)), at.sweep);
      case Incr(k) => AddBounded(mem, k, 1, at);
      case Decr(k) => AddBounded(mem, k, -1, at);
      case Expire(k, seconds) =>
      case Delete(k) =>
    }
  }

  lemma AddBounded(mem: Mem, key: Key, delta: int, at: Readings)
    requires WellFormed(mem) && |mem.order| <= MAX_KEYS
    ensures WellFormed(MemAdd(mem, key, delta, at).0) && |MemAdd(mem, key, delta, at).0.order| <= MAX_KEYS
  {
    RestrictWellFormed(mem, mem.data.Keys - {key});
    var m := Look(mem, key, at.look);
    var n := if key in m.data then AsInt(m.data[key].value) else Some(0);
    if n.Some? {
      PutWellFormed(m, key, Item(Num(n.value + delta), Stamp(m, key, None, true, at.stamp)), at.sweep);
    }
  }

  /** Whatever is issued, at whatever times, the dictionary never exceeds MAX_KEYS entries. */
  lemma {:induction false} Bounded(mem: Mem, run: seq<Issued>)
    requires WellFormed(mem) && |mem.data| <= MAX_KEYS
    ensures WellFormed(MemRun(mem, run).0) && |MemRun(mem, run).0.data| <= MAX_KEYS == 100_000
    decreases |run|
  {
    SizeIsOrder(mem);
    if run != [] {
      StepBounded(mem, run[0].cmd, run[0].at);
      SizeIsOrder(MemStep(mem, run[0].cmd, run[0].at).0);
      Bounded(MemStep(mem, run[0].cmd, run[0].at).0, run[1..]);
    }
  }

  lemma SizeIsOrder(mem: Mem)
    requires WellFormed(mem)
    ensures |mem.data| == |mem.order|
  {
    DistinctSize(mem.order);
    assert (set k | k in mem.order) == mem.data.Keys;
  }

  // ---------------------------------------------------------------- eviction order

  function IndexOf(s: seq<Key>, key: Key): (i: nat)
    requires key in s
    ensures i < |s| && s[i] == key
  {
    if s[|s| - 1] == key then |s| - 1 else
      assert s == s[..|s| - 1] + [s[|s| - 1]];
      IndexOf(s[..|s| - 1], key)
  }

  /** Filtering keeps the relative order. */
  lemma {:induction false} FilterOrder(s: seq<Key>, keep: set<Key>, i: nat, j: nat)
    requires Distinct(s) && i < j < |Filter(s, keep)|
    ensures Filter(s, keep)[i] in s && Filter(s, keep)[j] in s
    ensures IndexOf(s, Filter(s, keep)[i]) < IndexOf(s, Filter(s, keep)[j])
  {
    var f := Filter(s, keep);
    FilterMembers(s, keep);
    var front, last := s[..|s| - 1], s[|s| - 1];
    assert s == front + [last];
    if last in keep && j == |f| - 1 {
      FilterMembers(front, keep);
      assert f[i] == Filter(front, keep)[i];
    } else {
      FilterOrder(front, keep, i, j);
    }
  }

  /** A forced prune evicts a prefix of insertion order: no entry that survives was
      inserted before a live entry that was dropped. It happens only when MAX_KEYS or
      more entries are live. */
  lemma EvictionOrder(mem: Mem, now: real, dropped: Key, kept: Key)
    requires WellFormed(mem)
    requires Live(mem.data, dropped, now) && dropped !in Prune(mem, now).data
    requires kept in Prune(mem, now).data
    ensures |LiveKeys(mem.data, now)| >= MAX_KEYS
    ensures kept in mem.order && dropped in mem.order
    ensures IndexOf(mem.order, dropped) < IndexOf(mem.order, kept)
  {
    var live := LiveKeys(mem.data, now);
    var s := Swept(mem, now);
    SweptSize(mem, now);
    RestrictWellFormed(mem, live);
    FilterMembers(mem.order, live);
    var n := MAX_KEYS / 10;
    assert dropped in s.order && kept in s.order;
    DropOldestWellFormed(s, n);
    var i :| 0 <= i < |s.order| && s.order[i] == dropped;
    var j :| 0 <= j < |s.order| && s.order[j] == kept;
    assert i < n <= j;
    FilterOrder(mem.order, live, i, j);
  }
}
