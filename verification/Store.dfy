/** The shared key-value state of the public API: its keys, the values kept under
    them, the commands the gateway issues, and what each command means on a plain
    map whose entries carry a deadline. The plain map forgets nothing by itself:
    an entry past its deadline simply reads as absent. */
module Store {

  datatype Option<+T> = None | Some(value: T)

  datatype Resource = LiteratureAnswer | LiteratureSearch | TokensInput | TokensOutput

  /** One constructor per family of key names, so distinct families never collide. */
  datatype Key =
    | BucketKey(subject: string)
    | SlotKey(subject: string)
    | QuotaKey(org: string, resource: Resource)
    | LimitKey(org: string)
    | IdemKey(subject: string, idem: string)

  /** A stored text, described by how it is read back: as an integer, as a token
      bucket, or as an idempotency record. `Blank` is the empty text. */
  datatype Value =
    | Num(n: int)
    | Blank
    | Tokens(tokens: real, last: real)
    | Running(fingerprint: int)
    | Finished(fingerprint: int, status: int, body: string)

  datatype Item = Item(value: Value, expires: Option<real>)

  type Plain = map<Key, Item>

  datatype Command =
    | Get(key: Key)
    | Set(key: Key, value: Value, nx: bool, ttl: Option<int>)
    | Incr(key: Key)
    | Decr(key: Key)
    | Expire(key: Key, seconds: int)
    | Delete(key: Key)

  datatype Reply =
    | Absent
    | Found(value: Value)
    | Count(n: int)
    | Flag(ok: bool)
    | Empty
    | Raised

  /** One command may read the clock up to three times: to look the key up, to
      stamp a deadline, and to sweep expired entries. */
  datatype Readings = Readings(look: real, stamp: real, sweep: real)

  function At(now: real): Readings {
    Readings(now, now, now)
  }

  predicate Alive(item: Item, now: real) {
    item.expires.None? || item.expires.value > now
  }

  predicate Live(m: Plain, key: Key, now: real) {
    key in m && Alive(m[key], now)
  }

  /** A missing or zero time-to-live sets no deadline. */
  function Deadline(ttl: Option<int>, now: real): Option<real> {
    if ttl.None? || ttl.value == 0 then None else Some(now + ttl.value as real)
  }

  /** The integer a value reads as; the empty text counts as zero. */
  function AsInt(v: Value): Option<int> {
    match v
    case Num(n) => Some(n)
    case Blank => Some(0)
    case _ => None
  }

  /** INCR and DECR: a live entry keeps its deadline, an absent one starts at zero
      without a deadline, and a text that is not a number raises. */
  function PlainAdd(m: Plain, key: Key, delta: int, now: real): (Plain, Reply) {
    var n := if Live(m, key, now) then AsInt(m[key].value) else Some(0);
    if n.None? then (m, Raised)
    else (m[key := Item(Num(n.value + delta), if Live(m, key, now) then m[key].expires else None)],
        Count(n.value + delta))
  }

  function PlainStep(m: Plain, c: Command, at: Readings): (Plain, Reply) {
    match c
    case Get(k) =>
      (m, if Live(m, k, at.look) then Found(m[k].value) else Absent)
    case Set(k, v, nx, ttl) =>
      if nx && Live(m, k, at.look) then (m, Flag(false))
      else (m[k := Item(v, Deadline(ttl, at.stamp))], Flag(true))
    case Incr(k) => PlainAdd(m, k, 1, at.look)
    case Decr(k) => PlainAdd(m, k, -1, at.look)
    case Expire(k, seconds) =>
      if !Live(m, k, at.look) then (m, Flag(false))
      else (m[k := Item(m[k].value, Some(at.stamp + seconds as real))], Flag(true))
    case Delete(k) => (m - {k}, Empty)
  }

  function LiveKeys(m: Plain, now: real): set<Key> {
    set k | k in m && Alive(m[k], now)
  }

  // ---------------------------------------------------------------- the laws of the commands

  /** What has been set is read back until its time to live is over, and without one for good. */
  lemma SetThenGet(m: Plain, key: Key, value: Value, ttl: Option<int>, t: real, u: real)
    ensures PlainStep(PlainStep(m, Set(key, value, false, ttl), At(t)).0, Get(key), At(u)).1
            == if ttl.None? || ttl.value == 0 || u < t + ttl.value as real then Found(value) else Absent
  {
  }

  /** A second SET NX is refused exactly while what the first has set is still to be read. */
  lemma SetOnce(m: Plain, key: Key, first: Value, second: Value, ttl: int, t: real, u: real)
    requires ttl > 0
    ensures PlainStep(PlainStep(m, Set(key, first, false, Some(ttl)), At(t)).0, Set(key, second, true, None), At(u)).1
            == Flag(u >= t + ttl as real)
  {
  }

  /** An entry that is read at `t` is, after EXPIRE, read until the new deadline. */
  lemma ExpireThenGet(m: Plain, key: Key, seconds: int, t: real, u: real)
    ensures var before, after := PlainStep(m, Get(key), At(t)).1, PlainStep(m, Expire(key, seconds), At(t));
            && after.1 == Flag(before.Found?)
            && (before.Found? ==>
                  PlainStep(after.0, Get(key), At(u)).1 == if u < t + seconds as real then before else Absent)
  {
  }

  /** INCR and DECR count from what is read, an absent entry or an empty text as zero, and reply
      what is read afterwards; a text that is no number raises and stays. */
  lemma CountThenGet(m: Plain, key: Key, up: bool, t: real)
    ensures var before, step := PlainStep(m, Get(key), At(t)).1, if up then 1 else -1;
            var (after, r) := PlainStep(m, if up then Incr(key) else Decr(key), At(t));
            match before
            case Found(Num(n)) => r == Count(n + step) && PlainStep(after, Get(key), At(t)).1 == Found(Num(n + step))
            case Found(Blank) => r == Count(step) && PlainStep(after, Get(key), At(t)).1 == Found(Num(step))
            case Found(_) => r == Raised && after == m
            case _ => r == Count(step) && forall u :: PlainStep(after, Get(key), At(u)).1 == Found(Num(step))
  {
  }

  lemma DeleteThenGet(m: Plain, key: Key, t: real, u: real)
    ensures PlainStep(PlainStep(m, Delete(key), At(t)).0, Get(key), At(u)).1 == Absent
  {
  }
}
