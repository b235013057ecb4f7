/** The continuously refilled token bucket: `limit` tokens a minute, at most `limit` at
    once, kept in a record that the store forgets after 120 idle seconds. The wall clock
    drives the refill and the store's own clock drives the expiry; both are readings the
    caller supplies. */
module TokenBucket {
  import opened Store

  const RECORD_TTL: real := 120.0

  datatype Bucket = Bucket(tokens: real, last: real)

  datatype Verdict = Verdict(allowed: bool, remaining: int, reset: int)

  /** How the store fails during one call, if it does: the read raises, or the write
      raises without or with effect. */
  datatype Outage = NoOutage | GetFails | SetSkipped | SetApplied

  /** `wall` is the wall clock; `look` and `stamp` are the store's clock when the record is
      read and when it is written. */
  datatype Call = Call(limit: int, wall: real, look: real, stamp: real, outage: Outage)

  function Pos(x: real): real { if x > 0.0 then x else 0.0 }
  function Min(x: real, y: real): real { if x <= y then x else y }

  function Rate(limit: int): real { limit as real / 60.0 }

  /** Truncation toward zero, and the least integer not below. */
  function Truncate(x: real): int { if x >= 0.0 then x.Floor else -((-x).Floor) }
  function Ceil(x: real): int { -((-x).Floor) }

  /** The tokens available at `now`. A missing record is a full bucket. */
  function Level(b: Option<Bucket>, limit: int, now: real): real {
    match b
    case None => limit as real
    case Some(Bucket(tokens, last)) => Min(limit as real, tokens + Pos(now - last) * Rate(limit))
  }

  /** What a call leaves of the tokens it finds. */
  function Left(level: real): real { if level >= 1.0 then level - 1.0 else level }

  function Spend(b: Option<Bucket>, limit: int, now: real): Bucket {
    Bucket(Left(Level(b, limit, now)), now)
  }

  /** The whole seconds until a bucket holding `left` tokens has earned the next one. */
  function Wait(left: real, limit: int): int
    requires limit > 0
  {
    Ceil((1.0 - left) / Rate(limit))
  }

  /** The seconds reported until another token is ready. */
  function Reset(left: real, limit: int): int
    requires limit > 0
  {
    if left >= 1.0 then 0 else if Wait(left, limit) < 1 then 1 else Wait(left, limit)
  }

  function Judge(b: Option<Bucket>, limit: int, now: real): Verdict
    requires limit > 0
  {
    var left := Spend(b, limit, now).tokens;
    Verdict(Level(b, limit, now) >= 1.0, Truncate(left), Reset(left, limit))
  }

  /** One call on a bucket that never expires. */
  function Hit(b: Option<Bucket>, c: Call): (Option<Bucket>, Verdict) {
    if c.limit <= 0 then (b, Verdict(false, 0, 60))
    else if c.outage == NoOutage then (Some(Spend(b, c.limit, c.wall)), Judge(b, c.limit, c.wall))
    else (if c.outage == SetApplied then Some(Spend(b, c.limit, c.wall)) else b, Verdict(true, c.limit, 0))
  }

  /** The record as the store keeps it. */
  datatype Stored = Stored(bucket: Bucket, expires: real)

  function Seen(r: Option<Stored>, look: real): Option<Bucket> {
    if r.Some? && r.value.expires > look then Some(r.value.bucket) else None
  }

  function Unexpired(r: Option<Stored>): Option<Bucket> {
    if r.Some? then Some(r.value.bucket) else None
  }

  /** One call on the stored record, which the store forgets once its deadline passes. */
  function HitStored(r: Option<Stored>, c: Call): (Option<Stored>, Verdict) {
    var (b, v) := Hit(Seen(r, c.look), c);
    (if c.limit > 0 && (c.outage == NoOutage || c.outage == SetApplied) && b.Some?
     then Some(Stored(b.value, c.stamp + RECORD_TTL)) else r, v)
  }

  function Replies(b: Option<Bucket>, calls: seq<Call>): seq<Verdict>
    decreases |calls|
  {
    if calls == [] then []
    else [Hit(b, calls[0]).1] + Replies(Hit(b, calls[0]).0, calls[1..])
  }

  function StoredReplies(r: Option<Stored>, calls: seq<Call>): seq<Verdict>
    decreases |calls|
  {
    if calls == [] then []
    else [HitStored(r, calls[0]).1] + StoredReplies(HitStored(r, calls[0]).0, calls[1..])
  }

  predicate Sane(b: Option<Bucket>) {
    b.Some? ==> b.value.tokens >= 0.0
  }

  // ---------------------------------------------------------------- arithmetic

  lemma MulMonotone(x: real, y: real, r: real)
    requires x <= y && 0.0 <= r
    ensures x * r <= y * r
  {
    assert (y - x) * r >= 0.0;
  }

  lemma MulAdd(x: real, y: real, r: real)
    ensures (x + y) * r == x * r + y * r
  {
  }

  // ---------------------------------------------------------------- levels over time

  lemma LevelSane(b: Option<Bucket>, limit: int, now: real)
    requires Sane(b) && limit >= 0
    ensures 0.0 <= Level(b, limit, now) <= limit as real
  {
    if b.Some? { MulMonotone(0.0, Pos(now - b.value.last), Rate(limit)); }
  }

  /** What the clock earns from one moment to another; nothing when it goes back. */
  function Gain(from: real, to: real, limit: int): real {
    Pos(to - from) * Rate(limit)
  }

  /** A bucket earns at most `rate` per second that the clock moves forward. */
  lemma LevelGrowth(b: Option<Bucket>, limit: int, t: real, u: real)
    requires limit >= 0
    ensures Level(b, limit, u) <= Level(b, limit, t) + Gain(t, u, limit)
  {
    MulMonotone(0.0, Pos(u - t), Rate(limit));
    if b.Some? {
      var last := b.value.last;
      MulAdd(Pos(t - last), Pos(u - t), Rate(limit));
      MulMonotone(Pos(u - last), Pos(t - last) + Pos(u - t), Rate(limit));
    }
  }

  /** A larger allowance never means fewer tokens. */
  lemma LevelInLimit(b: Option<Bucket>, low: int, high: int, now: real)
    requires low <= high
    ensures Level(b, low, now) <= Level(b, high, now)
  {
    if b.Some? {
      var e := Pos(now - b.value.last);
      MulMonotone(Rate(low), Rate(high), e);
      MinMonotone(low as real, high as real, b.value.tokens + e * Rate(low), b.value.tokens + e * Rate(high));
    }
  }

  lemma MinMonotone(x: real, y: real, p: real, q: real)
    requires x <= y && p <= q
    ensures Min(x, p) <= Min(y, q)
  {
  }

  /** Capped refills compose: refilling up to `t` and then up to `u` is refilling up to `u`. */
  lemma LevelCompose(b: Bucket, limit: int, t: real, u: real)
    requires limit >= 0 && b.last <= t <= u
    ensures Level(Some(Bucket(Level(Some(b), limit, t), t)), limit, u) == Level(Some(b), limit, u)
  {
    MulAdd(t - b.last, u - t, Rate(limit));
    MulMonotone(0.0, u - t, Rate(limit));
  }

  /** Sixty seconds refill any bucket. */
  lemma FullAfterMinute(b: Bucket, limit: int, now: real)
    requires b.tokens >= 0.0 && limit >= 0 && now - b.last >= 60.0
    ensures Level(Some(b), limit, now) == limit as real
  {
    MulMonotone(60.0, now - b.last, Rate(limit));
  }

  // ---------------------------------------------------------------- expiry is invisible

  /** When the store's clock has moved past the record's life between two calls, the wall
      clock has moved at least a minute. A single clock satisfies this when a call reads its
      record within a minute of reading the wall clock. */
  predicate Paced(c: Call, d: Call) {
    d.look - c.stamp >= RECORD_TTL ==> d.wall - c.wall >= 60.0
  }

  predicate ClocksAgree(calls: seq<Call>)
    decreases |calls|
  {
    calls == [] || ((forall d :: d in calls[1..] ==> Paced(calls[0], d)) && ClocksAgree(calls[1..]))
  }

  /** The wall clock is read no later than the record is written, and the record no more than a
      minute after the wall clock, all on one clock. */
  predicate Prompt(c: Call) {
    c.wall <= c.stamp && c.look <= c.wall + 60.0
  }

  /** Calls that read their clocks promptly agree. */
  lemma {:induction false} PromptAgree(calls: seq<Call>)
    requires forall c :: c in calls ==> Prompt(c)
    ensures ClocksAgree(calls)
    decreases |calls|
  {
    if calls != [] {
      assert Prompt(calls[0]) && forall d :: d in calls[1..] ==> d in calls;
      PromptAgree(calls[1..]);
    }
  }

  /** The record lives at least 120 seconds from its last refill. */
  predicate Lasting(r: Option<Stored>) {
    r.Some? ==> r.value.bucket.last + RECORD_TTL <= r.value.expires
  }

  lemma PromptFits(r: Option<Stored>, c: Call)
    requires Lasting(r) && Prompt(c)
    ensures Fits(r, c) && Lasting(HitStored(r, c).0)
  {
  }

  predicate Fits(r: Option<Stored>, c: Call) {
    r.Some? && r.value.expires <= c.look ==> c.wall - r.value.bucket.last >= 60.0
  }

  lemma HitSane(b: Option<Bucket>, c: Call)
    requires Sane(b)
    ensures Sane(Hit(b, c).0)
  {
    if c.limit > 0 { LevelSane(b, c.limit, c.wall); }
  }

  /** One call: forgetting an idle record changes neither the answer nor what is kept. */
  lemma HitStoredSame(r: Option<Stored>, c: Call)
    requires Sane(Unexpired(r)) && Fits(r, c)
    ensures HitStored(r, c).1 == Hit(Unexpired(r), c).1
    ensures Unexpired(HitStored(r, c).0) == Hit(Unexpired(r), c).0
  {
    if c.limit > 0 && r.Some? && r.value.expires <= c.look {
      FullAfterMinute(r.value.bucket, c.limit, c.wall);
    }
  }

  /** Whatever the limits asked for, the record that vanishes after 120 idle seconds
      answers every call exactly as a bucket that is never forgotten. */
  lemma {:induction false} ExpiryInvisibleFrom(r: Option<Stored>, calls: seq<Call>)
    requires Sane(Unexpired(r)) && ClocksAgree(calls)
    requires forall c :: c in calls ==> Fits(r, c)
    ensures StoredReplies(r, calls) == Replies(Unexpired(r), calls)
    decreases |calls|
  {
    if calls != [] {
      var c := calls[0];
      HitStoredSame(r, c);
      HitSane(Unexpired(r), c);
      ExpiryInvisibleFrom(HitStored(r, c).0, calls[1..]);
    }
  }

  lemma ExpiryInvisible(calls: seq<Call>)
    requires ClocksAgree(calls)
    ensures StoredReplies(None, calls) == Replies(None, calls)
  {
    ExpiryInvisibleFrom(None, calls);
  }

  // ---------------------------------------------------------------- window bound

  function Admitted(vs: seq<Verdict>): nat {
    if vs == [] then 0 else (if vs[0].allowed then 1 else 0) + Admitted(vs[1..])
  }

  function Outages(calls: seq<Call>): nat {
    if calls == [] then 0 else (if calls[0].outage != NoOutage then 1 else 0) + Outages(calls[1..])
  }

  /** The total distance the wall clock moves forward over the calls. */
  function Forward(from: real, calls: seq<Call>): real
    decreases |calls|
  {
    if calls == [] then 0.0 else Pos(calls[0].wall - from) + Forward(calls[0].wall, calls[1..])
  }

  /** What one call costs: an admission is paid for by a token, by elapsed time, or by an outage. */
  lemma HitCharge(b: Option<Bucket>, c: Call, limit: int, from: real)
    requires Sane(b) && c.limit <= limit && 0 <= limit
    ensures (if Hit(b, c).1.allowed then 1.0 else 0.0) + Level(Hit(b, c).0, limit, c.wall)
            <= Level(b, limit, from) + Gain(from, c.wall, limit) + (if c.outage != NoOutage then 1.0 else 0.0)
    ensures Level(Hit(b, c).0, limit, c.wall) <= Level(b, limit, from) + Gain(from, c.wall, limit)
  {
    LevelGrowth(b, limit, from, c.wall);
    if c.limit > 0 { SpendCharge(b, c.limit, limit, c.wall); }
  }

  /** A token pays for the admission, at once, whatever the larger limit. */
  lemma SpendCharge(b: Option<Bucket>, own: int, limit: int, now: real)
    requires own <= limit
    ensures (if Level(b, own, now) >= 1.0 then 1.0 else 0.0) + Level(Some(Spend(b, own, now)), limit, now)
            <= Level(b, limit, now)
    ensures Level(Some(Spend(b, own, now)), limit, now) <= Level(b, limit, now)
  {
    LevelInLimit(b, own, limit, now);
    LevelAtLast(Spend(b, own, now), limit);
  }

  /** No time has passed since the bucket was last written. */
  lemma LevelAtLast(b: Bucket, limit: int)
    ensures Level(Some(b), limit, b.last) == Min(limit as real, b.tokens)
  {
    assert Pos(b.last - b.last) * Rate(limit) == 0.0;
  }

  /** Adds the cost of one call to the cost of the rest. */
  lemma ChargeSum(a: nat, after: real, before: real, earned: real, f: nat, rest: nat, later: real, g: nat)
    requires a as real + after <= before + earned + f as real
    requires rest as real <= after + later + g as real
    ensures (a + rest) as real <= before + (earned + later) + (f + g) as real
  {
  }

  lemma AdmittedCons(v: Verdict, rest: seq<Verdict>)
    ensures Admitted([v] + rest) == (if v.allowed then 1 else 0) + Admitted(rest)
  {
    assert ([v] + rest)[1..] == rest;
  }

  /** What the forward moves of the clock earn. */
  function Refills(from: real, calls: seq<Call>, limit: int): real
    decreases |calls|
  {
    if calls == [] then 0.0 else Gain(from, calls[0].wall, limit) + Refills(calls[0].wall, calls[1..], limit)
  }

  /** One full bucket and what the forward moves of the clock earn. */
  function Allowance(from: real, calls: seq<Call>, limit: int): real {
    limit as real + Refills(from, calls, limit)
  }

  lemma {:induction false} RefillsAreForward(from: real, calls: seq<Call>, limit: int)
    ensures Refills(from, calls, limit) == Forward(from, calls) * Rate(limit)
    decreases |calls|
  {
    if calls != [] {
      RefillsAreForward(calls[0].wall, calls[1..], limit);
      MulAdd(Pos(calls[0].wall - from), Forward(calls[0].wall, calls[1..]), Rate(limit));
    }
  }

  lemma {:induction false} AdmittedFrom(b: Option<Bucket>, calls: seq<Call>, limit: int, from: real)
    requires Sane(b) && 0 <= limit && forall c :: c in calls ==> c.limit <= limit
    ensures Admitted(Replies(b, calls)) as real
            <= Level(b, limit, from) + Refills(from, calls, limit) + Outages(calls) as real
    decreases |calls|
  {
    if calls == [] {
      LevelSane(b, limit, from);
    } else {
      var c, rest := calls[0], calls[1..];
      var (next, verdict) := Hit(b, c);
      HitSane(b, c);
      AdmittedFrom(next, rest, limit, c.wall);
      AdmittedCons(verdict, Replies(next, rest));
      HitCharge(b, c, limit, from);
      var earned, after, before := Gain(from, c.wall, limit), Level(next, limit, c.wall), Level(b, limit, from);
      assert Refills(from, calls, limit) == earned + Refills(c.wall, rest, limit);
      ChargeSum(if verdict.allowed then 1 else 0, after, before, earned, if c.outage != NoOutage then 1 else 0,
          Admitted(Replies(next, rest)), Refills(c.wall, rest, limit), Outages(rest));
    }
  }

  /** From any bucket, over any calls at any clock readings whose limits stay within
      `limit`: no more are admitted than the allowance, plus what the forward moves of the
      clock earn, plus one for each call during which the store failed. */
  lemma WindowBound(r: Option<Stored>, calls: seq<Call>, limit: int)
    requires calls != [] && 0 <= limit && forall c :: c in calls ==> c.limit <= limit
    requires Sane(Unexpired(r)) && ClocksAgree(calls) && forall c :: c in calls ==> Fits(r, c)
    ensures Admitted(StoredReplies(r, calls)) as real
            <= Allowance(calls[0].wall, calls, limit) + Outages(calls) as real
  {
    ExpiryInvisibleFrom(r, calls);
    WindowBoundFrom(Unexpired(r), calls, limit, calls[0].wall);
  }

  lemma WindowBoundFrom(b: Option<Bucket>, calls: seq<Call>, limit: int, from: real)
    requires Sane(b) && 0 <= limit && forall c :: c in calls ==> c.limit <= limit
    ensures Admitted(Replies(b, calls)) as real
            <= Allowance(from, calls, limit) + Outages(calls) as real
  {
    LevelSane(b, limit, from);
    AdmittedFrom(b, calls, limit, from);
  }

  predicate NonDecreasing(calls: seq<Call>) {
    forall i :: 0 < i < |calls| ==> calls[i - 1].wall <= calls[i].wall
  }

  lemma {:induction false} ForwardIsElapsed(from: real, calls: seq<Call>)
    requires calls != [] && NonDecreasing(calls) && from <= calls[0].wall
    ensures Forward(from, calls) == calls[|calls| - 1].wall - from
    decreases |calls|
  {
    if |calls| > 1 {
      assert forall i :: 0 < i < |calls[1..]| ==> calls[1..][i - 1] == calls[i] && calls[1..][i] == calls[i + 1];
      ForwardIsElapsed(calls[0].wall, calls[1..]);
    } else {
      assert Forward(calls[0].wall, calls[1..]) == 0.0;
    }
  }

  /** On a clock that does not go back, the allowance of a window is one bucket and a
      sixtieth of the limit for every elapsed second. */
  lemma AllowanceElapsed(from: real, calls: seq<Call>, limit: int)
    requires calls != [] && NonDecreasing(calls) && from <= calls[0].wall
    ensures Allowance(from, calls, limit) == limit as real + (calls[|calls| - 1].wall - from) * (limit as real / 60.0)
  {
    ForwardIsElapsed(from, calls);
    RefillsAreForward(from, calls, limit);
  }

  // ---------------------------------------------------------------- refused calls are invisible

  function Pick<T>(s: seq<T>, keep: seq<bool>): (r: seq<T>)
    requires |s| == |keep|
    ensures forall x :: x in r ==> x in s
  {
    if s == [] then []
    else (if keep[0] then [s[0]] else []) + Pick(s[1..], keep[1..])
  }

  /** The two buckets hold the same number of tokens from `t` on. */
  ghost predicate Same(b: Option<Bucket>, d: Option<Bucket>, limit: int, t: real) {
    forall u {:trigger Level(b, limit, u)} {:trigger Level(d, limit, u)} ::
      t <= u ==> Level(b, limit, u) == Level(d, limit, u)
  }

  lemma RefusalKeepsLevel(b: Option<Bucket>, limit: int, t: real)
    requires limit > 0 && (b.Some? ==> b.value.last <= t) && Level(b, limit, t) < 1.0
    ensures Same(Some(Spend(b, limit, t)), b, limit, t)
  {
    forall u | t <= u ensures Level(Some(Spend(b, limit, t)), limit, u) == Level(b, limit, u) {
      LevelCompose(b.value, limit, t, u);
    }
  }

  /** One call of the full run against the same call, kept or deleted, of the shorter one. */
  lemma RefusedStep(b: Option<Bucket>, d: Option<Bucket>, c: Call, keep: bool, t: real)
    requires c.outage == NoOutage && t <= c.wall
    requires (b.Some? ==> b.value.last <= t) && Same(b, d, c.limit, t)
    requires !keep ==> !Hit(b, c).1.allowed
    ensures Hit(b, c).1 == Hit(d, c).1
    ensures Hit(b, c).0.Some? ==> Hit(b, c).0.value.last <= c.wall
    ensures Same(Hit(b, c).0, if keep then Hit(d, c).0 else d, c.limit, c.wall)
  {
    assert Level(b, c.limit, c.wall) == Level(d, c.limit, c.wall);
    if !keep && c.limit > 0 {
      RefusalKeepsLevel(b, c.limit, c.wall);
    }
  }

  ghost predicate Uniform(calls: seq<Call>, limit: int) {
    forall c :: c in calls ==> c.limit == limit && c.outage == NoOutage
  }

  /** Only refused calls are deleted. */
  ghost predicate OnlyRefused(vs: seq<Verdict>, keep: seq<bool>) {
    |vs| == |keep| && forall i :: 0 <= i < |keep| && !keep[i] ==> !vs[i].allowed
  }

  lemma {:induction false} RepliesLength(b: Option<Bucket>, calls: seq<Call>)
    ensures |Replies(b, calls)| == |calls|
    decreases |calls|
  {
    if calls != [] { RepliesLength(Hit(b, calls[0]).0, calls[1..]); }
  }

  lemma PickCons<T>(x: T, rest: seq<T>, k: bool, keep: seq<bool>)
    requires |rest| == |keep|
    ensures Pick([x] + rest, [k] + keep) == (if k then [x] else []) + Pick(rest, keep)
  {
    assert ([x] + rest)[1..] == rest && ([k] + keep)[1..] == keep;
  }

  lemma {:induction false} RefusedInvisibleFrom(b: Option<Bucket>, d: Option<Bucket>, limit: int, calls: seq<Call>,
        keep: seq<bool>, t: real)
    requires |calls| == |keep| == |Replies(b, calls)| && Uniform(calls, limit)
    requires NonDecreasing(calls) && (calls != [] ==> t <= calls[0].wall)
    requires (b.Some? ==> b.value.last <= t) && Same(b, d, limit, t)
    requires OnlyRefused(Replies(b, calls), keep)
    ensures Replies(d, Pick(calls, keep)) == Pick(Replies(b, calls), keep)
    decreases |calls|
  {
    if calls == [] { return; }
    var c := calls[0];
    var b1, rest := Hit(b, c).0, Replies(Hit(b, c).0, calls[1..]);
    assert Replies(b, calls) == [Hit(b, c).1] + rest;
    RefusedStep(b, d, c, keep[0], t);
    var d1 := if keep[0] then Hit(d, c).0 else d;
    RepliesLength(b1, calls[1..]);
    assert OnlyRefused(rest, keep[1..]) by {
      forall i | 0 <= i < |keep[1..]| && !keep[1..][i] ensures !rest[i].allowed {
        assert Replies(b, calls)[i + 1] == rest[i] && !keep[i + 1];
      }
    }
    NonDecreasingTail(calls);
    RefusedInvisibleFrom(b1, d1, limit, calls[1..], keep[1..], c.wall);
    assert [keep[0]] + keep[1..] == keep && [c] + calls[1..] == calls;
    PickCons(c, calls[1..], keep[0], keep[1..]);
    PickCons(Hit(b, c).1, rest, keep[0], keep[1..]);
    RepliesPick(d, c, keep[0], Pick(calls[1..], keep[1..]));
  }

  lemma NonDecreasingTail(calls: seq<Call>)
    requires calls != [] && NonDecreasing(calls)
    ensures NonDecreasing(calls[1..]) && (|calls| > 1 ==> calls[0].wall <= calls[1..][0].wall)
  {
    forall i | 0 < i < |calls[1..]| ensures calls[1..][i - 1].wall <= calls[1..][i].wall {
      assert calls[1..][i - 1] == calls[i] && calls[1..][i] == calls[i + 1];
    }
  }

  lemma RepliesPick(d: Option<Bucket>, c: Call, k: bool, rest: seq<Call>)
    ensures Replies(d, (if k then [c] else []) + rest)
            == if k then [Hit(d, c).1] + Replies(Hit(d, c).0, rest) else Replies(d, rest)
  {
    if k { assert ([c] + rest)[1..] == rest; } else { assert [] + rest == rest; }
  }

  lemma {:induction false} PickAgrees(calls: seq<Call>, keep: seq<bool>)
    requires |calls| == |keep| && ClocksAgree(calls)
    ensures ClocksAgree(Pick(calls, keep))
    decreases |calls|
  {
    if calls != [] {
      var rest := Pick(calls[1..], keep[1..]);
      PickAgrees(calls[1..], keep[1..]);
      if keep[0] {
        assert ([calls[0]] + rest)[1..] == rest;
      } else {
        assert Pick(calls, keep) == rest;
      }
    }
  }

  /** Deleting any refused calls from a run of one bucket changes no other answer: a bucket
      is none the emptier for a call it refuses. */
  lemma RefusedInvisible(limit: int, calls: seq<Call>, keep: seq<bool>)
    requires |calls| == |keep| && Uniform(calls, limit)
    requires NonDecreasing(calls) && ClocksAgree(calls)
    requires OnlyRefused(StoredReplies(None, calls), keep)
    ensures StoredReplies(None, Pick(calls, keep)) == Pick(StoredReplies(None, calls), keep)
  {
    ExpiryInvisible(calls);
    PickAgrees(calls, keep);
    ExpiryInvisible(Pick(calls, keep));
    RefusedInvisibleFrom(None, None, limit, calls, keep, if calls == [] then 0.0 else calls[0].wall);
  }

  // ---------------------------------------------------------------- remaining and reset are exact

  /** `n` calls in a row at one instant. */
  function Burst(limit: int, now: real, n: nat): seq<Call> {
    seq(n, _ => Call(limit, now, now, now, NoOutage))
  }

  lemma SpendAgain(b: Bucket, limit: int)
    requires 0.0 <= b.tokens <= limit as real && limit > 0
    ensures Level(Some(b), limit, b.last) == b.tokens
  {
    assert Pos(b.last - b.last) * Rate(limit) == 0.0;
  }

  lemma {:induction false} BurstFrom(b: Bucket, limit: int, n: nat)
    requires 0.0 <= b.tokens <= limit as real && limit > 0
    ensures |Replies(Some(b), Burst(limit, b.last, n))| == n
    ensures forall i :: 0 <= i < n ==> (Replies(Some(b), Burst(limit, b.last, n))[i].allowed <==> i < b.tokens.Floor)
    decreases n
  {
    if n > 0 {
      SpendAgain(b, limit);
      var calls := Burst(limit, b.last, n);
      assert calls[1..] == Burst(limit, b.last, n - 1);
      var next := Spend(Some(b), limit, b.last);
      assert Hit(Some(b), calls[0]).0 == Some(next);
      BurstFrom(next, limit, n - 1);
      var rest := Replies(Some(next), Burst(limit, b.last, n - 1));
      assert Replies(Some(b), calls) == [Hit(Some(b), calls[0]).1] + rest;
      assert next.tokens.Floor == if b.tokens >= 1.0 then b.tokens.Floor - 1 else b.tokens.Floor;
    }
  }

  /** After a call reports `remaining`, exactly that many more calls at the same instant
      are admitted and every further one is refused. */
  lemma RemainingExact(b: Option<Bucket>, limit: int, now: real, n: nat)
    requires Sane(b) && limit > 0
    ensures var v, after := Judge(b, limit, now), Some(Spend(b, limit, now));
            && 0 <= v.remaining
            && |Replies(after, Burst(limit, now, n))| == n
            && (forall i :: 0 <= i < n ==> (Replies(after, Burst(limit, now, n))[i].allowed <==> i < v.remaining))
  {
    LevelSane(b, limit, now);
    BurstFrom(Spend(b, limit, now), limit, n);
  }

  /** After any call, the next call `w` whole undisturbed seconds later is admitted if and
      only if `w` reaches the reported reset. */
  lemma ResetExact(b: Option<Bucket>, limit: int, now: real, w: nat)
    requires Sane(b) && limit > 0
    ensures Level(Some(Spend(b, limit, now)), limit, now + w as real) >= 1.0 <==> w >= Judge(b, limit, now).reset
  {
    var left := Spend(b, limit, now).tokens;
    Waited(left, now, limit, w as real);
    Ready(left, limit, w);
  }

  lemma Ready(left: real, limit: int, w: nat)
    requires limit > 0
    ensures w as real * Rate(limit) >= 1.0 - left <==> w >= Reset(left, limit)
  {
    var rate := Rate(limit);
    if left >= 1.0 {
      MulMonotone(0.0, w as real, rate);
    } else {
      Earned(1.0 - left, rate, w as real);
      Earned(1.0 - left, rate, 0.0);
      CeilExact((1.0 - left) / rate, w);
      CeilExact((1.0 - left) / rate, 0);
    }
  }

  lemma Waited(left: real, now: real, limit: int, w: real)
    requires limit > 0 && w >= 0.0
    ensures Level(Some(Bucket(left, now)), limit, now + w) >= 1.0 <==> w * Rate(limit) >= 1.0 - left
  {
    assert Pos(now + w - now) == w;
  }

  /** The reset never exceeds a minute. It is zero exactly when the call finds two tokens,
      so an admitted call is told to wait exactly when it takes the last whole token. */
  lemma ResetRange(b: Option<Bucket>, limit: int, now: real)
    requires Sane(b) && limit > 0
    ensures 0 <= Judge(b, limit, now).reset <= 60
    ensures Judge(b, limit, now).reset == 0 <==> Level(b, limit, now) >= 2.0
    ensures Judge(b, limit, now).allowed ==> (Judge(b, limit, now).reset > 0 <==> Level(b, limit, now) < 2.0)
    ensures Judge(b, limit, now).reset == 0 <==> Judge(b, limit, now).remaining >= 1
    ensures Judge(b, limit, now).reset == if Level(b, limit, now) >= 2.0 then 0
            else Wait(Left(Level(b, limit, now)), limit)
  {
    LevelSane(b, limit, now);
    var left, rate := Spend(b, limit, now).tokens, Rate(limit);
    if left < 1.0 {
      Earned(1.0 - left, rate, 60.0);
      assert 60.0 * rate >= 1.0 - left;
      CeilExact((1.0 - left) / rate, 60);
      CeilExact((1.0 - left) / rate, 0);
      Earned(1.0 - left, rate, 0.0);
    }
  }

  lemma CeilExact(x: real, w: int)
    ensures w as real >= x <==> w >= Ceil(x)
  {
  }

  /** Waiting `w` earns `x` tokens at `rate` if and only if `w` is at least `x / rate`. */
  lemma Earned(x: real, rate: real, w: real)
    requires 0.0 < rate
    ensures w * rate >= x <==> w >= x / rate
  {
    var q := x / rate;
    assert q * rate == x;
    if w >= q { MulMonotone(q, w, rate); } else { assert (q - w) * rate > 0.0; }
  }

  /** The third value is not zero for every admitted call: a one-per-minute caller is
      admitted and told to wait a minute. */
  lemma AllowedWithReset()
    ensures Judge(None, 1, 0.0) == Verdict(true, 0, 60)
  {
    assert Spend(None, 1, 0.0).tokens == 0.0;
    assert Rate(1) == 1.0 / 60.0;
    assert 1.0 / Rate(1) == 60.0;
  }
}
