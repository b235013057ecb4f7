/** The store operations of the /v1 API and the handler that drives them, statement by
    statement. Each command may fail, and before each command other requests may have changed
    the store in any way. The handler is checked against the program of `Lifecycle`: the ghost
    field `proc` is the request's program state, and a command may be issued only when it is
    the one the program asks for. */
module V1Store {
  import opened Store
  import opened Lifecycle
  import opened System
  import opened UsageOutbox
  import Usage
  import Slots
  import Quota
  import TokenBucket
  import RateLimiter

  datatype Claimed = New | Replay(status: int, body: string) | Running | Reused

  /** The bucket a read returned; no text is a missing bucket. */
  function BucketIn(r: Reply): Option<TokenBucket.Bucket> {
    if r.Found? && r.value.Tokens? then Some(TokenBucket.Bucket(r.value.tokens, r.value.last)) else None
  }

  /** One rate-limit call: the record is read at `look` and written at `stamp`, where the
      write may fail as `f` says. */
  ghost predicate RateStep(before: Plain, after: Plain, key: Key, limit: int, wall: real, look: real, stamp: real,
        f: Fault, v: TokenBucket.Verdict)
    requires limit > 0
  {
    var b := if Live(before, key, look) then BucketIn(Found(before[key].value)) else None;
    var left := TokenBucket.Spend(b, limit, wall);
    && v == (if f == NoFault then TokenBucket.Judge(b, limit, wall) else TokenBucket.Verdict(true, limit, 0))
    && after == (if f == Skipped then before
                 else before[key := Item(Tokens(left.tokens, wall), Some(stamp + TokenBucket.RECORD_TTL))])
  }

  /** Nothing but a bucket is stored under the key. */
  predicate Readable(m: Plain, key: Key) {
    key in m ==> m[key].value.Tokens?
  }

  predicate Shaped(item: Item) {
    item.value.Tokens? && item.expires.Some?
  }

  /** Under the bucket keys there are only records that the rate limiter has written. */
  ghost predicate AllShaped(m: Plain) {
    forall subject :: BucketKey(subject) in m ==> Shaped(m[BucketKey(subject)])
  }

  function BucketOf(item: Item): TokenBucket.Stored
    requires Shaped(item)
  {
    TokenBucket.Stored(TokenBucket.Bucket(item.value.tokens, item.value.last), item.expires.value)
  }

  /** How the failure of the writing command shows in the call. */
  function OutageOf(f: Fault): TokenBucket.Outage {
    match f
    case NoFault => TokenBucket.NoOutage
    case Skipped => TokenBucket.SetSkipped
    case Applied => TokenBucket.SetApplied
  }

  /** The bucket record the store keeps under a key. */
  function StoredIn(m: Plain, key: Key): Option<TokenBucket.Stored> {
    if key in m && Shaped(m[key]) then Some(BucketOf(m[key])) else None
  }

  /** The buckets of all subjects. */
  function BucketsOf(m: Plain): RateLimiter.Buckets {
    map k | k in m && k.BucketKey? && Shaped(m[k]) :: k.subject := BucketOf(m[k])
  }

  /** A rate-limit call is a call of the stored token bucket. */
  lemma RateStepIsHit(before: Plain, after: Plain, key: Key, limit: int, wall: real, look: real, stamp: real,
        f: Fault, v: TokenBucket.Verdict)
    requires limit > 0 && RateStep(before, after, key, limit, wall, look, stamp, f, v)
    requires key in before ==> Shaped(before[key])
    ensures (StoredIn(after, key), v)
            == TokenBucket.HitStored(StoredIn(before, key), TokenBucket.Call(limit, wall, look, stamp, OutageOf(f)))
  {
  }

  lemma RecordOf(m: Plain, subject: string)
    ensures RateLimiter.Record(BucketsOf(m), subject) == StoredIn(m, BucketKey(subject))
  {
    if StoredIn(m, BucketKey(subject)).Some? {
      assert subject in BucketsOf(m);
    }
  }

  /** The command touches the subject's bucket only. */
  ghost predicate OthersKept(before: Plain, after: Plain, key: Key) {
    forall k :: k != key ==> (k in after <==> k in before) && (k in after ==> after[k] == before[k])
  }

  /** The command touches no key of another family. */
  ghost predicate SlotsOnly(before: Plain, after: Plain) {
    forall k: Key :: !k.SlotKey? ==> (k in after <==> k in before) && (k in after ==> after[k] == before[k])
  }

  /** What happens to one record happens to the map of all of them. */
  lemma HitMirrored(before: Plain, after: Plain, subject: string, call: TokenBucket.Call, v: TokenBucket.Verdict)
    requires OthersKept(before, after, BucketKey(subject))
    requires (StoredIn(after, BucketKey(subject)), v)
             == TokenBucket.HitStored(StoredIn(before, BucketKey(subject)), call)
    ensures (BucketsOf(after), v) == RateLimiter.HitSubject(BucketsOf(before), subject, call)
  {
    var m, hit := BucketsOf(after), RateLimiter.HitSubject(BucketsOf(before), subject, call).0;
    RecordOf(before, subject);
    forall t: string ensures RateLimiter.Record(m, t) == RateLimiter.Record(hit, t) {
      RecordOf(before, t);
      RecordOf(after, t);
      RateLimiter.HitSubjectRecord(BucketsOf(before), subject, call, t);
    }
    SameRecords(m, hit);
  }

  /** One rate-limit call on the store is one on the map of all buckets. */
  lemma RateStepMirrored(before: Plain, after: Plain, subject: string, limit: int, wall: real, look: real,
        stamp: real, f: Fault, v: TokenBucket.Verdict)
    requires AllShaped(before) && limit > 0
             && RateStep(before, after, BucketKey(subject), limit, wall, look, stamp, f, v)
    ensures AllShaped(after)
    ensures (BucketsOf(after), v)
            == RateLimiter.HitSubject(BucketsOf(before), subject,
                TokenBucket.Call(limit, wall, look, stamp, OutageOf(f)))
  {
    RateStepIsHit(before, after, BucketKey(subject), limit, wall, look, stamp, f, v);
    HitMirrored(before, after, subject, TokenBucket.Call(limit, wall, look, stamp, OutageOf(f)), v);
  }

  /** A call that never reaches the record leaves all of them. */
  lemma IdleMirrored(m: Plain, subject: string, call: TokenBucket.Call, v: TokenBucket.Verdict)
    requires (call.limit <= 0 && v == TokenBucket.Verdict(false, 0, 60))
          || (call.limit > 0 && call.outage == TokenBucket.GetFails && v == TokenBucket.Verdict(true, call.limit, 0))
    ensures (BucketsOf(m), v) == RateLimiter.HitSubject(BucketsOf(m), subject, call)
  {
    HitMirrored(m, m, subject, call, v);
  }

  lemma SameRecords(m: RateLimiter.Buckets, n: RateLimiter.Buckets)
    requires forall t: string :: RateLimiter.Record(m, t) == RateLimiter.Record(n, t)
    ensures m == n
  {
    forall t: string ensures t in m <==> t in n {
      assert RateLimiter.Record(m, t) == RateLimiter.Record(n, t);
    }
    forall t: string | t in m ensures m[t] == n[t] {
      assert RateLimiter.Record(m, t) == RateLimiter.Record(n, t);
    }
  }

  /** What a record found at `u` under a taken key means for a request with this fingerprint. */
  function Told(m: Plain, key: Key, fingerprint: int, u: real): Claimed {
    if !Live(m, key, u) then Claimed.Running
    else match m[key].value
         case Finished(fp, status, body) => if fp == fingerprint then Replay(status, body) else Reused
         case Running(fp) => if fp == fingerprint then Claimed.Running else Reused
         case _ => Claimed.Running
  }

  predicate IsNumber(m: Plain, key: Key) {
    key in m ==> m[key].value.Num?
  }

  /** INCR and EXPIRE of a counter, one after the other. */
  lemma CountAndExpire(m: Plain, key: Key, t: real, u: real, f1: Fault, f2: Fault)
    ensures var (mid, r) := System.Perform(m, Incr(key), f1, t);
            var (after, e) := System.Perform(mid, Expire(key, 300), f2, u);
            && OthersKept(m, after, key)
            && (r.Count? ==> r.n == Slots.Level(m, key, t) + 1)
            && (r.Count? && f1 == f2 == NoFault && u == t ==>
                  key in after && after[key] == Item(Num(r.n), Some(t + 300.0)))
  {
  }

  /** DECR of a quota, and INCR when that leaves it below zero. */
  lemma TakeAndReturn(m: Plain, key: Key, t: real, u: real, f1: Fault, f2: Fault)
    ensures var (mid, r) := System.Perform(m, Decr(key), f1, t);
            var taken := !r.Count? || r.n >= 0;
            var after := if taken then mid else System.Perform(mid, Incr(key), f2, u).0;
            && OthersKept(m, after, key)
            && (Quota.Metered(m, key) && !taken ==> m[key].value.n <= 0)
            && (Quota.Metered(m, key) && f1 == NoFault && f2 == NoFault && m[key].value.n >= 0 ==>
                  && Quota.Metered(after, key) && (taken <==> m[key].value.n > 0)
                  && after[key].value.n == m[key].value.n - (if taken then 1 else 0))
  {
  }

  class V1Store {
    const cfg: Config
    const outbox: Outbox
    const stream: UsageStream
    var redis: Plain
    var clock: real
    ghost var proc: Proc
    ghost var failures: nat
    ghost var others: nat
    ghost var incremented: set<Key>
    ghost var ledger: Usage.Ledger

    ghost predicate Valid()
      reads this, outbox, stream
    {
      && outbox.Valid()
      && ledger == Usage.Ledger(stream.log, Payloads(outbox.rows), false, ledger.emitted, ledger.doubts)
    }

    /** Time has passed: commands may have failed, other requests may have come in before one,
        and counters may have been incremented. */
    twostate predicate Later()
      reads this
    {
      old(failures) <= failures && old(others) <= others && old(incremented) <= incremented
    }

    /** No command has failed and no other request has come in before one. */
    twostate predicate Calm()
      reads this
    {
      old(failures) == failures && old(others) == others
    }

    constructor (cfg: Config, redis: Plain)
      ensures Valid() && this.cfg == cfg && this.redis == redis && ledger == Usage.IDLE
      ensures fresh(outbox) && fresh(stream)
    {
      this.cfg, this.redis, clock, failures, others := cfg, redis, 0.0, 0, 0;
      outbox := new Outbox();
      stream := new UsageStream();
      proc := Spawn(Request("", "", LiteratureAnswer, None, 0, false, false, false, "", ""));
      ledger := Usage.IDLE;
      incremented := {};
    }

    // -------------------------------------------------------------- commands

    /** One command at some later time, on the store as other requests have left it by then;
        it may raise with or without effect. */
    method Perform(c: Command) returns (r: Reply, ghost fault: Fault, ghost found: Plain)
      modifies this`redis, this`clock, this`failures, this`others, this`incremented
      ensures (redis, r) == System.Perform(found, c, fault, clock)
      ensures clock >= old(clock)
      ensures failures == old(failures) + (if fault == NoFault then 0 else 1)
      ensures others >= old(others) && (others == old(others) ==> found == old(redis))
      ensures incremented == old(incremented) + if c.Incr? then {c.key} else {}
    {
      incremented := incremented + if c.Incr? then {c.key} else {};
      var wait: real :| wait >= 0.0;
      clock := clock + wait;
      if * {
        others := others + 1;
        redis := *;
      }
      found := redis;
      fault := NoFault;
      var after, reply := PlainStep(redis, c, At(clock)).0, PlainStep(redis, c, At(clock)).1;
      if * {
        failures := failures + 1;
        if * { fault := Applied; redis := after; } else { fault := Skipped; }
        return Raised, fault, found;
      }
      redis, r := after, reply;
    }

    /** The command the request's program asks for. */
    method Issue(c: Command) returns (r: Reply, ghost fault: Fault, ghost found: Plain)
      requires Ask(cfg, proc) == Some(c)
      modifies this`redis, this`clock, this`failures, this`others, this`incremented, this`proc
      ensures (redis, r) == System.Perform(found, c, fault, clock)
      ensures clock >= old(clock)
      ensures failures == old(failures) + (if fault == NoFault then 0 else 1)
      ensures others >= old(others) && (others == old(others) ==> found == old(redis))
      ensures incremented == old(incremented) + if c.Incr? then {c.key} else {}
      ensures proc == Resume(cfg, old(proc), r, fault != Skipped, clock)
    {
      r, fault, found := Perform(c);
      proc := Resume(cfg, proc, r, fault != Skipped, clock);
    }

    /** An answer from outside the store. */
    ghost method Heard(input: Input)
      requires Expects(proc, input)
      modifies this`proc
      ensures proc == Hear(old(proc), input)
    {
      proc := Hear(proc, input);
    }

    // -------------------------------------------------------------- rate limit

    /** The call is a call of the subject's token bucket, with the outage that befell it; a
        failing store, or a text that is no bucket, admits the call. */
    method HitRateLimit(subject: string, limit: int, wall: real)
          returns (v: TokenBucket.Verdict, ghost call: TokenBucket.Call)
      modifies this`redis, this`clock, this`failures, this`others, this`incremented
      ensures Later()
      ensures call.limit == limit && call.wall == wall
              && (failures == old(failures) ==> call.outage == TokenBucket.NoOutage)
      ensures others == old(others) ==> OthersKept(old(redis), redis, BucketKey(subject))
      ensures limit <= 0 ==> v == TokenBucket.Verdict(false, 0, 60) && redis == old(redis)
      ensures limit > 0 && Calm() && Readable(old(redis), BucketKey(subject)) ==>
        BucketKey(subject) in redis && redis[BucketKey(subject)].expires == Some(clock + 120.0)
      ensures limit > 0 && failures != old(failures) ==> v == TokenBucket.Verdict(true, limit, 0)
      ensures limit > 0 && others == old(others) && !Readable(old(redis), BucketKey(subject))
              && old(redis)[BucketKey(subject)].expires.None? ==>
        v == TokenBucket.Verdict(true, limit, 0)
      ensures others == old(others) && AllShaped(old(redis)) ==>
        AllShaped(redis) && (BucketsOf(redis), v) == RateLimiter.HitSubject(BucketsOf(old(redis)), subject, call)
    {
      ghost var was := redis;
      var key := BucketKey(subject);
      call := TokenBucket.Call(limit, wall, clock, clock, TokenBucket.NoOutage);
      v := TokenBucket.Verdict(false, 0, 60);
      if limit <= 0 {
        IdleMirrored(redis, subject, call, v);
        return;
      }
      v := TokenBucket.Verdict(true, limit, 0);
      var got, f1, m1 := Perform(Get(key));
      call := TokenBucket.Call(limit, wall, clock, clock, TokenBucket.GetFails);
      if got.Raised? {
        IdleMirrored(redis, subject, call, v);
        return;
      }
      if got.Found? && !got.value.Tokens? {
        call := call.(outage := TokenBucket.NoOutage);
        return;
      }
      var left, verdict := Draw(BucketIn(got), limit, wall);
      var put, f2, m2 := Perform(Set(key, Tokens(left, wall), false, Some(120)));
      call := TokenBucket.Call(limit, wall, call.look, clock, OutageOf(f2));
      v := if put.Raised? then v else verdict;
      if others == old(others) && AllShaped(was) {
        RateStepMirrored(was, redis, subject, limit, wall, call.look, call.stamp, f2, v);
      }
    }

    /** Refills the bucket and takes a token if there is one. */
    static method Draw(b: Option<TokenBucket.Bucket>, limit: int, now: real)
          returns (tokens: real, v: TokenBucket.Verdict)
      requires limit > 0
      ensures tokens == TokenBucket.Spend(b, limit, now).tokens && v == TokenBucket.Judge(b, limit, now)
    {
      var rate, last := TokenBucket.Rate(limit), now;
      tokens := limit as real;
      if b.Some? { tokens, last := b.value.tokens, b.value.last; }
      FullStart(limit, now);
      tokens := TokenBucket.Min(limit as real, tokens + TokenBucket.Pos(now - last) * rate);
      assert tokens == TokenBucket.Level(b, limit, now);
      var allowed := tokens >= 1.0;
      if allowed { tokens := tokens - 1.0; }
      var wait := TokenBucket.Ceil((1.0 - tokens) / rate);
      var reset := if tokens >= 1.0 then 0 else if wait < 1 then 1 else wait;
      v := TokenBucket.Verdict(allowed, TokenBucket.Truncate(tokens), reset);
    }

    static lemma FullStart(limit: int, now: real)
      requires limit > 0
      ensures TokenBucket.Min(limit as real, limit as real + TokenBucket.Pos(now - now) * TokenBucket.Rate(limit))
              == limit as real
    {
    }

    /** The organization's own limit, when billing has set one and it can be read. */
    method RateLimitForOrg(org: string) returns (limit: Option<int>)
      modifies this`redis, this`clock, this`failures, this`others, this`incremented
      ensures Later()
      ensures others == old(others) ==> redis == old(redis)
      ensures limit.Some? ==> LimitKey(org) in redis && redis[LimitKey(org)].value == Num(limit.value)
      ensures LimitKey(org) !in redis ==> limit.None?
      ensures Calm() && LimitKey(org) in redis && redis[LimitKey(org)].expires.None?
              && redis[LimitKey(org)].value.Num? ==>
        limit == Some(redis[LimitKey(org)].value.n)
    {
      var got, f, m := Perform(Get(LimitKey(org)));
      if got.Found? && got.value.Num? { return Some(got.value.n); }
      return None;
    }

    // -------------------------------------------------------------- concurrency slots

    predicate AtAcquire(p: Proc, subject: string) {
      (p.pc.KeyIncr? && KeySlot(p.req) == SlotKey(subject)) || (p.pc.OrgIncr? && OrgSlot(p.req) == SlotKey(subject))
    }

    /** `Issue`, keeping the local invariant. */
    method Step(c: Command) returns (r: Reply, ghost fault: Fault, ghost found: Plain)
      requires Ask(cfg, proc) == Some(c) && Fits(cfg, proc)
      modifies this`redis, this`clock, this`failures, this`others, this`incremented, this`proc
      ensures (redis, r) == System.Perform(found, c, fault, clock)
      ensures clock >= old(clock)
      ensures failures == old(failures) + (if fault == NoFault then 0 else 1)
      ensures others >= old(others) && (others == old(others) ==> found == old(redis))
      ensures incremented == old(incremented) + if c.Incr? then {c.key} else {}
      ensures proc == Resume(cfg, old(proc), r, fault != Skipped, clock)
      ensures Fits(cfg, proc) && proc.req == old(proc).req
    {
      ghost var before := proc;
      r, fault, found := Issue(c);
      ResumeFits(cfg, before, r, fault != Skipped, clock);
    }

    /** Counts the slot and reports whether the new count is within the limit; a denied slot is
        given back at once. Calmly, the slot is granted exactly when the live count leaves room
        for it; whatever fails, it is denied only when the count leaves none. */
    method AcquireConcurrencySlot(subject: string) returns (granted: bool, ghost t: real)
      requires AtAcquire(proc, subject) && Fits(cfg, proc)
      modifies this`redis, this`clock, this`failures, this`others, this`incremented, this`proc
      ensures Later() && SlotKey(subject) in incremented
      ensures Fits(cfg, proc) && proc.req == old(proc).req
      ensures old(proc).pc.KeyIncr? ==> proc.pc == if granted then OrgIncr else ToSettle(proc.req, Busy, [])
      ensures old(proc).pc.OrgIncr? ==> proc.pc == if granted then ToWork(proc.req) else KeyBack
      ensures others == old(others) ==> OthersKept(old(redis), redis, SlotKey(subject))
      ensures others == old(others) && !granted ==> Slots.Level(old(redis), SlotKey(subject), t) >= cfg.slotLimit
      ensures Calm() && IsNumber(old(redis), SlotKey(subject)) ==>
        (granted <==> Slots.Level(old(redis), SlotKey(subject), t) < cfg.slotLimit)
      ensures Calm() && IsNumber(old(redis), SlotKey(subject)) && granted && clock == t ==>
        SlotKey(subject) in redis
        && redis[SlotKey(subject)] == Item(Num(Slots.Level(old(redis), SlotKey(subject), t) + 1), Some(t + 300.0))
    {
      var count;
      count, t := CountSlot(subject);
      if count.None? { return true, t; }
      if count.value > cfg.slotLimit {
        var d, f, m := Step(Decr(SlotKey(subject)));
        return false, t;
      }
      return true, t;
    }

    /** INCR and EXPIRE; no count when either fails. */
    method CountSlot(subject: string) returns (count: Option<int>, ghost t: real)
      requires AtAcquire(proc, subject) && Fits(cfg, proc)
      modifies this`redis, this`clock, this`failures, this`others, this`incremented, this`proc
      ensures Later() && SlotKey(subject) in incremented
      ensures Fits(cfg, proc) && proc.req == old(proc).req
      ensures proc.pc == AfterCount(old(proc), count)
      ensures others == old(others) ==> OthersKept(old(redis), redis, SlotKey(subject))
      ensures others == old(others) && count.Some? ==> count.value == Slots.Level(old(redis), SlotKey(subject), t) + 1
      ensures Calm() && IsNumber(old(redis), SlotKey(subject)) ==> count.Some?
      ensures Calm() && count.Some? && clock == t ==>
        SlotKey(subject) in redis && redis[SlotKey(subject)] == Item(Num(count.value), Some(t + 300.0))
    {
      var key := SlotKey(subject);
      ghost var before, f1, f2, m1, m2 := redis, NoFault, NoFault, redis, redis;
      count, f1, m1 := Increment(key);
      t := clock;
      if count.None? { return; }
      ghost var n := count.value;
      var refreshed;
      refreshed, f2, m2 := Refresh(key, n);
      if others == old(others) { CountAndExpire(before, key, t, clock, f1, f2); }
      if !refreshed { count := None; }
    }

    /** INCR of the counter; no count when it raises. */
    method Increment(key: Key) returns (count: Option<int>, ghost fault: Fault, ghost found: Plain)
      requires Fits(cfg, proc)
               && ((proc.pc.KeyIncr? && KeySlot(proc.req) == key) || (proc.pc.OrgIncr? && OrgSlot(proc.req) == key))
      modifies this`redis, this`clock, this`failures, this`others, this`incremented, this`proc
      ensures Later() && key in incremented && Fits(cfg, proc) && proc.req == old(proc).req
      ensures redis == System.Perform(found, Incr(key), fault, clock).0
      ensures var r := System.Perform(found, Incr(key), fault, clock).1; count == if r.Count? then Some(r.n) else None
      ensures failures == old(failures) <==> fault == NoFault
      ensures others == old(others) ==> found == old(redis)
      ensures old(proc).pc.KeyIncr? ==> proc.pc == if count.Some? then KeyExpire(count.value) else OrgIncr
      ensures old(proc).pc.OrgIncr? ==> proc.pc == if count.Some? then OrgExpire(count.value) else ToWork(proc.req)
    {
      var r;
      r, fault, found := Step(Incr(key));
      count := if r.Count? then Some(r.n) else None;
    }

    /** EXPIRE of the counter that has just been incremented to `n`. */
    method Refresh(key: Key, ghost n: int) returns (refreshed: bool, ghost fault: Fault, ghost found: Plain)
      requires Fits(cfg, proc)
      requires || (proc.pc == KeyExpire(n) && KeySlot(proc.req) == key)
               || (proc.pc == OrgExpire(n) && OrgSlot(proc.req) == key)
      modifies this`redis, this`clock, this`failures, this`others, this`incremented, this`proc
      ensures Later() && Fits(cfg, proc) && proc.req == old(proc).req
      ensures redis == System.Perform(found, Expire(key, 300), fault, clock).0 && refreshed == (fault == NoFault)
      ensures failures == old(failures) <==> fault == NoFault
      ensures others == old(others) ==> found == old(redis)
      ensures old(proc).pc.KeyExpire? ==> proc.pc == if refreshed && n > cfg.slotLimit then KeyUndo else OrgIncr
      ensures old(proc).pc.OrgExpire? ==>
              proc.pc == if refreshed && n > cfg.slotLimit then OrgUndo else ToWork(proc.req)
    {
      var e;
      e, fault, found := Step(Expire(key, 300));
      refreshed := !e.Raised?;
    }

    /** Denied exactly with a count above the limit. */
    function AfterCount(p: Proc, count: Option<int>): Pc
      requires p.pc.KeyIncr? || p.pc.OrgIncr?
    {
      var denied := count.Some? && count.value > cfg.slotLimit;
      if p.pc.KeyIncr? then (if denied then KeyUndo else OrgIncr) else (if denied then OrgUndo else ToWork(p.req))
    }

    predicate AtRelease(p: Proc) {
      p.pc.KeyBack? || p.pc.FreeKey? || p.pc.FreeOrg?
    }

    function AfterRelease(p: Proc): Pc
      requires AtRelease(p)
    {
      match p.pc
      case FreeKey(out) => FreeOrg(out)
      case FreeOrg(out) => Done(out)
      case _ => ToSettle(p.req, Busy, [])
    }

    method ReleaseConcurrencySlot(subject: string)
      requires AtRelease(proc) && Ask(cfg, proc) == Some(Decr(SlotKey(subject))) && Fits(cfg, proc)
      modifies this`redis, this`clock, this`failures, this`others, this`incremented, this`proc
      ensures Later()
      ensures Fits(cfg, proc) && proc.req == old(proc).req && proc.pc == AfterRelease(old(proc))
      ensures Calm() && IsNumber(old(redis), SlotKey(subject)) ==>
        Slots.Level(redis, SlotKey(subject), clock) == Slots.Level(old(redis), SlotKey(subject), clock) - 1
      ensures others == old(others) ==> OthersKept(old(redis), redis, SlotKey(subject))
    {
      var r, f, m := Step(Decr(SlotKey(subject)));
    }

    /** Both the key's and the organization's slot, or neither. Calmly, both are granted exactly
        when both counts, each as it is found, leave room. */
    method AcquireConcurrencySlots(org: string, subject: string) returns (granted: bool, ghost t: real, ghost u: real)
      requires proc.pc.KeyIncr? && proc.req.org == org && proc.req.subject == subject && Fits(cfg, proc)
      modifies this`redis, this`clock, this`failures, this`others, this`incremented, this`proc
      ensures Later() && (granted ==> {SlotKey(subject), SlotKey("org:" + org)} <= incremented)
      ensures Fits(cfg, proc) && proc.req == old(proc).req
      ensures proc.pc == if granted then ToWork(proc.req) else ToSettle(proc.req, Busy, [])
      ensures others == old(others) ==> SlotsOnly(old(redis), redis)
      ensures Calm() && TidySlots(old(redis), org, subject) ==>
        (granted <==> Slots.Level(old(redis), SlotKey(subject), t) < cfg.slotLimit
                      && Slots.Level(old(redis), SlotKey("org:" + org), u) < cfg.slotLimit)
    {
      granted, t := AcquireConcurrencySlot(subject);
      u := t;
      if !granted { return; }
      granted, u := AcquireConcurrencySlot("org:" + org);
      if !granted { ReleaseConcurrencySlot(subject); }
    }

    /** Both counters hold numbers, and they are two. */
    predicate TidySlots(m: Plain, org: string, subject: string) {
      && subject != "org:" + org
      && IsNumber(m, SlotKey(subject)) && IsNumber(m, SlotKey("org:" + org))
    }

    method ReleaseConcurrencySlots(org: string, subject: string)
      requires proc.pc.FreeKey? && proc.req.org == org && proc.req.subject == subject && Fits(cfg, proc)
      modifies this`redis, this`clock, this`failures, this`others, this`incremented, this`proc
      ensures Later()
      ensures Fits(cfg, proc) && proc.req == old(proc).req && proc.pc == Done(old(proc).pc.out)
      ensures others == old(others) ==> SlotsOnly(old(redis), redis)
    {
      ReleaseConcurrencySlot(subject);
      ReleaseConcurrencySlot("org:" + org);
    }

    // -------------------------------------------------------------- quota

    /** Reserves one unit. Undisturbed and without failures, a metered counter grants exactly
        when a unit is left, drops by one exactly when it grants, and never ends below zero;
        without a counter the call is granted and none is created. */
    method ReserveQuota(org: string, resource: Resource) returns (reserved: bool)
      requires proc.pc.QuotaGet? && Lifecycle.Quota(proc.req) == QuotaKey(org, resource) && Fits(cfg, proc)
      modifies this`redis, this`clock, this`failures, this`others, this`incremented, this`proc
      ensures Later()
      ensures Fits(cfg, proc) && proc.req == old(proc).req
      ensures proc.pc == if reserved then Upstream else ToSettle(proc.req, OverQuota, [])
      ensures var key := QuotaKey(org, resource);
        && (others == old(others) ==> OthersKept(old(redis), redis, key))
        && (others == old(others) && key !in old(redis) ==> reserved && key !in redis)
        && (others == old(others) && Quota.Metered(old(redis), key) && !reserved ==> old(redis)[key].value.n <= 0)
        && (Calm() && Quota.Metered(old(redis), key) && old(redis)[key].value.n >= 0 ==>
              && Quota.Metered(redis, key)
              && (reserved <==> old(redis)[key].value.n > 0)
              && redis[key].value.n == old(redis)[key].value.n - (if reserved then 1 else 0))
    {
      var key := QuotaKey(org, resource);
      var got, f1, m1 := Step(Get(key));
      if !got.Found? { return true; }
      reserved := TakeUnit(key);
    }

    /** DECR, and the compensating INCR when there was no unit left. */
    method TakeUnit(key: Key) returns (taken: bool)
      requires proc.pc.QuotaDecr? && Lifecycle.Quota(proc.req) == key && Fits(cfg, proc)
      modifies this`redis, this`clock, this`failures, this`others, this`incremented, this`proc
      ensures Later()
      ensures Fits(cfg, proc) && proc.req == old(proc).req
      ensures proc.pc == if taken then Upstream else ToSettle(proc.req, OverQuota, [])
      ensures others == old(others) ==> OthersKept(old(redis), redis, key)
      ensures others == old(others) && Quota.Metered(old(redis), key) && !taken ==> old(redis)[key].value.n <= 0
      ensures Calm() && Quota.Metered(old(redis), key) && old(redis)[key].value.n >= 0 ==>
                && Quota.Metered(redis, key)
                && (taken <==> old(redis)[key].value.n > 0)
                && redis[key].value.n == old(redis)[key].value.n - (if taken then 1 else 0)
    {
      ghost var before := redis;
      var left, f1, m1 := Decrement(key);
      ghost var t := clock;
      taken := left.None? || left.value >= 0;
      ghost var f2, m2 := NoFault, redis;
      if !taken { f2, m2 := Compensate(key); }
      if others == old(others) { TakeAndReturn(before, key, t, clock, f1, f2); }
    }

    /** The compensating INCR. */
    method Compensate(key: Key) returns (ghost fault: Fault, ghost found: Plain)
      requires proc.pc.QuotaUndo? && Lifecycle.Quota(proc.req) == key && Fits(cfg, proc)
      modifies this`redis, this`clock, this`failures, this`others, this`incremented, this`proc
      ensures Later() && Fits(cfg, proc) && proc.req == old(proc).req && proc.pc == ToSettle(proc.req, OverQuota, [])
      ensures redis == System.Perform(found, Incr(key), fault, clock).0
      ensures failures == old(failures) <==> fault == NoFault
      ensures others == old(others) ==> found == old(redis)
    {
      var r;
      r, fault, found := Step(Incr(key));
    }

    /** DECR of the quota; nothing when it raises. */
    method Decrement(key: Key) returns (left: Option<int>, ghost fault: Fault, ghost found: Plain)
      requires proc.pc.QuotaDecr? && Lifecycle.Quota(proc.req) == key && Fits(cfg, proc)
      modifies this`redis, this`clock, this`failures, this`others, this`incremented, this`proc
      ensures Later() && Fits(cfg, proc) && proc.req == old(proc).req
      ensures redis == System.Perform(found, Decr(key), fault, clock).0
      ensures var r := System.Perform(found, Decr(key), fault, clock).1; left == if r.Count? then Some(r.n) else None
      ensures failures == old(failures) <==> fault == NoFault
      ensures others == old(others) ==> found == old(redis)
      ensures proc.pc == if left.Some? && left.value < 0 then QuotaUndo else Upstream
    {
      var r;
      r, fault, found := Step(Decr(key));
      left := if r.Count? then Some(r.n) else None;
    }

    /** Refunds one unit; never creates the counter. */
    method ReleaseQuota(org: string, resource: Resource)
      requires proc.pc.RefundGet? && Lifecycle.Quota(proc.req) == QuotaKey(org, resource) && Fits(cfg, proc)
      modifies this`redis, this`clock, this`failures, this`others, this`incremented, this`proc
      ensures Later()
      ensures Fits(cfg, proc) && proc.req == old(proc).req && proc.pc == ToSettle(proc.req, old(proc).pc.out, [])
      ensures var key := QuotaKey(org, resource);
        && (others == old(others) ==> OthersKept(old(redis), redis, key))
        && (others == old(others) && key !in old(redis) ==> key !in redis)
        && (Calm() && Quota.Metered(old(redis), key) ==>
              Quota.Metered(redis, key) && redis[key].value.n == old(redis)[key].value.n + 1)
    {
      var key := QuotaKey(org, resource);
      var got, f1, m1 := Step(Get(key));
      if got.Found? {
        var r, f2, m2 := Step(Incr(key));
      }
    }

    // -------------------------------------------------------------- idempotency

    predicate Sends(req: Request, subject: string, idem: string, fingerprint: int) {
      req.subject == subject && req.idem == Some(idem) && req.fingerprint == fingerprint
    }

    function Settled(c: Claimed, req: Request): Pc {
      match c
      case New => AfterClaim(req)
      case Replay(status, body) => Done(Replayed(status, body))
      case Running => Done(InProgress)
      case Reused => Done(Mismatch)
    }

    /** Claims the caller's Idempotency-Key. Calmly, the claim is new exactly when the caller has
        no live record under it, and then one is stored with 120 seconds to live; otherwise the
        record says what the request is told. Whenever a command fails the claim is new. */
    method IdempotencyBegin(subject: string, idem: string, fingerprint: int)
        returns (claim: Claimed, ghost t: real, ghost u: real)
      requires proc.pc.ClaimSet? && Fits(cfg, proc) && Sends(proc.req, subject, idem, fingerprint)
      modifies this`redis, this`clock, this`failures, this`others, this`incremented, this`proc
      ensures Later()
      ensures Fits(cfg, proc) && proc.req == old(proc).req && proc.pc == Settled(claim, proc.req)
      ensures failures != old(failures) ==> claim.New?
      ensures others == old(others) ==> OthersKept(old(redis), redis, IdemKey(subject, idem))
      ensures Calm() ==> (claim.New? <==> !Live(old(redis), IdemKey(subject, idem), t))
      ensures Calm() && claim.New? ==>
        redis == old(redis)[IdemKey(subject, idem) := Item(Value.Running(fingerprint), Some(t + 120.0))]
      ensures Calm() && !claim.New? ==>
        redis == old(redis) && t <= u && claim == Told(old(redis), IdemKey(subject, idem), fingerprint, u)
    {
      var key := IdemKey(subject, idem);
      var won, f1, m1 := Step(Set(key, Value.Running(fingerprint), true, Some(CLAIM_TTL)));
      t, u := clock, clock;
      if won == Flag(true) || won.Raised? { return New, t, u; }
      claim := ReadClaim(key, fingerprint);
      u := clock;
    }

    /** What the record found under a taken key means for the request. */
    method ReadClaim(key: Key, fingerprint: int) returns (claim: Claimed)
      requires proc.pc.ClaimGet? && Fits(cfg, proc) && IdemOf(proc.req) == key && proc.req.fingerprint == fingerprint
      modifies this`redis, this`clock, this`failures, this`others, this`incremented, this`proc
      ensures Later() && clock >= old(clock)
      ensures Fits(cfg, proc) && proc.req == old(proc).req && proc.pc == Settled(claim, proc.req)
      ensures claim.New? <==> failures != old(failures)
      ensures others == old(others) ==> redis == old(redis)
      ensures Calm() ==> claim == Told(old(redis), key, fingerprint, clock)
    {
      var got, f, m := Step(Get(key));
      match got {
        case Raised => return New;
        case Found(Finished(fp, status, body)) => return if fp != fingerprint then Reused else Replay(status, body);
        case Found(Running(fp)) => return if fp != fingerprint then Reused else Claimed.Running;
        case _ => return Claimed.Running;
      }
    }

    /** Stores a 2xx result for replay under the caller's key, or releases the claim. */
    method IdempotencyFinish(subject: string, idem: string, fingerprint: int, status: int, body: string)
      requires proc.pc.Settle? && Fits(cfg, proc) && Sends(proc.req, subject, idem, fingerprint)
      requires IsSuccess(status) <==> Succeeded(proc.pc.out)
      requires IsSuccess(status) ==> status == StatusOf(proc.pc.out) && body == BodyOf(proc.pc.out)
      modifies this`redis, this`clock, this`failures, this`others, this`incremented, this`proc
      ensures Later()
      ensures Fits(cfg, proc) && proc.req == old(proc).req
      ensures proc.pc == AfterSettle(proc.req, old(proc).pc.out, old(proc).pc.todo)
      ensures others == old(others) ==> OthersKept(old(redis), redis, IdemKey(subject, idem))
      ensures Calm() ==>
        redis == if 200 <= status < 300
                 then old(redis)[IdemKey(subject, idem) := Item(Finished(fingerprint, status, body),
                     Deadline(Some(cfg.recordTtl), clock))]
                 else old(redis) - {IdemKey(subject, idem)}
    {
      var key := IdemKey(subject, idem);
      if 200 <= status < 300 {
        var r, f, m := Step(Set(key, Finished(fingerprint, status, body), false, Some(cfg.recordTtl)));
      } else {
        var r, f, m := Step(Delete(key));
      }
    }

    // -------------------------------------------------------------- usage

    /** Sends the next usage event of the request. */
    method Emit(e: Usage.Event)
      requires Valid() && Fits(cfg, proc) && proc.pc.Emit? && proc.pc.todo[0] == e
      modifies this`proc, this`ledger, outbox, stream
      ensures Valid() && Fits(cfg, proc) && proc == Sent(old(proc))
      ensures ledger.emitted == old(ledger).emitted + [e]
      ensures e in stream.log || e in Payloads(outbox.rows)
    {
      var ok;
      ghost var steps;
      ok, steps := EmitUsage(outbox, stream, e, ledger);
      ledger := Usage.Run(ledger, steps);
      SentFits(cfg, proc);
      proc := Sent(proc);
    }
  }
}
