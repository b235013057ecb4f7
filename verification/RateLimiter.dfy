/** Rate limiting of a request by its key and by its organization: two buckets, both of
    which must admit it. */
module RateLimiter {
  import opened Store
  import opened TokenBucket

  type Buckets = map<string, Stored>

  /** One request: who asks, for which organization, and the two bucket calls it makes. */
  datatype Query = Query(subject: string, org: string, keyCall: Call, orgCall: Call)

  datatype Answer = Answer(allowed: bool, remaining: int, reset: int)

  function OrgSubject(org: string): string { "org:" + org }

  function Record(m: Buckets, subject: string): Option<Stored> {
    if subject in m then Some(m[subject]) else None
  }

  function HitSubject(m: Buckets, subject: string, c: Call): (Buckets, Verdict) {
    var (r, v) := HitStored(Record(m, subject), c);
    (if r.Some? then m[subject := r.value] else m, v)
  }

  /** The verdict and the reported headers: the smaller remaining count binds, and a tie
      reports the organization's reset. Without an organization the key alone decides. */
  function Combine(hasOrg: bool, key: Verdict, org: Verdict): Answer {
    if !hasOrg then Answer(key.allowed, key.remaining, key.reset)
    else Answer(key.allowed && org.allowed,
                if org.remaining <= key.remaining then org.remaining else key.remaining,
                if org.remaining <= key.remaining then org.reset else key.reset)
  }

  function RateLimited(m: Buckets, q: Query): (Buckets, Answer) {
    var (m1, key) := HitSubject(m, q.subject, q.keyCall);
    if q.org == "" then (m1, Combine(false, key, key))
    else
      var (m2, org) := HitSubject(m1, OrgSubject(q.org), q.orgCall);
      (m2, Combine(true, key, org))
  }

  // ---------------------------------------------------------------- the organization's budget

  /** The wall clock agrees with the store's clock at every call the run makes. */
  predicate Timely(m: Buckets, q: Query) {
    && Fits(Record(m, q.subject), q.keyCall)
    && (q.org != "" ==> Fits(Record(HitSubject(m, q.subject, q.keyCall).0, OrgSubject(q.org)), q.orgCall))
  }

  predicate AllTimely(m: Buckets, run: seq<Query>)
    decreases |run|
  {
    run == [] || (Timely(m, run[0]) && AllTimely(RateLimited(m, run[0]).0, run[1..]))
  }

  predicate AllSane(m: Buckets) {
    forall k :: k in m ==> m[k].bucket.tokens >= 0.0
  }

  /** The requests of `org` that the run admits. */
  function AdmittedFor(m: Buckets, org: string, run: seq<Query>): nat
    decreases |run|
  {
    if run == [] then 0
    else (if run[0].org == org && RateLimited(m, run[0]).1.allowed then 1 else 0)
         + AdmittedFor(RateLimited(m, run[0]).0, org, run[1..])
  }

  /** The requests of `org` whose organization bucket could not be read or written. */
  function OutagesFor(org: string, run: seq<Query>): nat
    decreases |run|
  {
    if run == [] then 0
    else (if run[0].org == org && run[0].orgCall.outage != NoOutage then 1 else 0) + OutagesFor(org, run[1..])
  }

  function LastWall(q: Query): real {
    if q.org == "" then q.keyCall.wall else q.orgCall.wall
  }

  /** What one query lets the clock earn. */
  function Earn(from: real, q: Query, limit: int): real {
    Gain(from, q.keyCall.wall, limit) + (if q.org == "" then 0.0 else Gain(q.keyCall.wall, q.orgCall.wall, limit))
  }

  function EarnAll(from: real, run: seq<Query>, limit: int): real
    decreases |run|
  {
    if run == [] then 0.0 else Earn(from, run[0], limit) + EarnAll(LastWall(run[0]), run[1..], limit)
  }

  function Watched(m: Buckets, subject: string, limit: int, now: real): real {
    Level(Unexpired(Record(m, subject)), limit, now)
  }

  function One(b: bool): real { if b then 1.0 else 0.0 }

  lemma HitSubjectRecord(m: Buckets, subject: string, c: Call, other: string)
    ensures Record(HitSubject(m, subject, c).0, other)
            == if other == subject then HitStored(Record(m, subject), c).0 else Record(m, other)
  {
  }

  lemma HitSubjectSane(m: Buckets, subject: string, c: Call)
    requires AllSane(m) && Fits(Record(m, subject), c)
    ensures AllSane(HitSubject(m, subject, c).0)
  {
    HitStoredSame(Record(m, subject), c);
    HitSane(Unexpired(Record(m, subject)), c);
  }

  /** One call on a stored record: an admission is paid for by a token, by elapsed time, or
      by an outage, and the level rises by no more than the clock earns. */
  lemma StoredCharge(r: Option<Stored>, c: Call, limit: int, from: real)
    requires Sane(Unexpired(r)) && 0 <= limit && c.limit <= limit && Fits(r, c)
    ensures One(HitStored(r, c).1.allowed) + Level(Unexpired(HitStored(r, c).0), limit, c.wall)
            <= Level(Unexpired(r), limit, from) + Gain(from, c.wall, limit) + One(c.outage != NoOutage)
    ensures Level(Unexpired(HitStored(r, c).0), limit, c.wall)
            <= Level(Unexpired(r), limit, from) + Gain(from, c.wall, limit)
  {
    HitStoredSame(r, c);
    HitCharge(Unexpired(r), c, limit, from);
  }

  lemma OwnHit(m: Buckets, subject: string, c: Call, limit: int, from: real)
    requires AllSane(m) && 0 <= limit && c.limit <= limit && Fits(Record(m, subject), c)
    ensures One(HitSubject(m, subject, c).1.allowed) + Watched(HitSubject(m, subject, c).0, subject, limit, c.wall)
            <= Watched(m, subject, limit, from) + Gain(from, c.wall, limit) + One(c.outage != NoOutage)
  {
    HitSubjectRecord(m, subject, c, subject);
    StoredCharge(Record(m, subject), c, limit, from);
  }

  lemma AnyHit(m: Buckets, subject: string, c: Call, watched: string, limit: int, from: real)
    requires AllSane(m) && 0 <= limit && (subject == watched ==> c.limit <= limit) && Fits(Record(m, subject), c)
    ensures Watched(HitSubject(m, subject, c).0, watched, limit, c.wall)
            <= Watched(m, watched, limit, from) + Gain(from, c.wall, limit)
  {
    HitSubjectRecord(m, subject, c, watched);
    if subject == watched {
      StoredCharge(Record(m, subject), c, limit, from);
    } else {
      LevelGrowth(Unexpired(Record(m, watched)), limit, from, c.wall);
    }
  }

  /** Whatever asks the bucket of `org` asks it under a limit of at most `limit`. Requests of
      other organizations may run under any limits. */
  predicate Within(q: Query, org: string, limit: int) {
    (q.org == org ==> q.orgCall.limit <= limit) && (q.subject == OrgSubject(org) ==> q.keyCall.limit <= limit)
  }

  lemma OrgSubjectUnique(a: string, b: string)
    requires OrgSubject(a) == OrgSubject(b)
    ensures a == b
  {
    assert OrgSubject(a)[4..] == a && OrgSubject(b)[4..] == b;
  }

  lemma QueryCharge(m: Buckets, q: Query, org: string, limit: int, from: real)
    requires AllSane(m) && 0 <= limit && Within(q, org, limit) && Timely(m, q) && org != ""
    ensures AllSane(RateLimited(m, q).0)
    ensures var (after, answer) := RateLimited(m, q);
            One(q.org == org && answer.allowed) + Watched(after, OrgSubject(org), limit, LastWall(q))
            <= Watched(m, OrgSubject(org), limit, from) + Earn(from, q, limit)
                + One(q.org == org && q.orgCall.outage != NoOutage)
  {
    HitSubjectSane(m, q.subject, q.keyCall);
    AnyHit(m, q.subject, q.keyCall, OrgSubject(org), limit, from);
    var m1 := HitSubject(m, q.subject, q.keyCall).0;
    if q.org != "" {
      HitSubjectSane(m1, OrgSubject(q.org), q.orgCall);
      if q.org == org {
        OwnHit(m1, OrgSubject(org), q.orgCall, limit, q.keyCall.wall);
      } else {
        if OrgSubject(q.org) == OrgSubject(org) { OrgSubjectUnique(q.org, org); }
        AnyHit(m1, OrgSubject(q.org), q.orgCall, OrgSubject(org), limit, q.keyCall.wall);
      }
    }
  }

  lemma {:induction false} OrgBudgetFrom(m: Buckets, org: string, run: seq<Query>, limit: int, from: real)
    requires AllSane(m) && 0 <= limit && org != "" && AllTimely(m, run)
    requires forall q :: q in run ==> Within(q, org, limit)
    ensures AdmittedFor(m, org, run) as real
            <= Level(Unexpired(Record(m, OrgSubject(org))), limit, from) + EarnAll(from, run, limit)
                + OutagesFor(org, run) as real
    decreases |run|
  {
    if run == [] {
      LevelSane(Unexpired(Record(m, OrgSubject(org))), limit, from);
    } else {
      var q, rest, m1 := run[0], run[1..], RateLimited(m, run[0]).0;
      QueryCharge(m, q, org, limit, from);
      OrgBudgetFrom(m1, org, rest, limit, LastWall(q));
      ChargeSum(if q.org == org && RateLimited(m, q).1.allowed then 1 else 0,
          Level(Unexpired(Record(m1, OrgSubject(org))), limit, LastWall(q)),
          Level(Unexpired(Record(m, OrgSubject(org))), limit, from), Earn(from, q, limit),
          if q.org == org && q.orgCall.outage != NoOutage then 1 else 0,
          AdmittedFor(m1, org, rest), EarnAll(LastWall(q), rest, limit), OutagesFor(org, rest));
    }
  }

  /** However many keys an organization spreads its requests over, and whatever else runs
      in between, no more of them are admitted than one bucket, plus what the forward moves
      of the clock earn, plus one for each time its bucket's store failed. */
  lemma OrgBudget(m: Buckets, org: string, run: seq<Query>, limit: int, from: real)
    requires AllSane(m) && 0 <= limit && org != "" && AllTimely(m, run)
    requires forall q :: q in run ==> Within(q, org, limit)
    ensures AdmittedFor(m, org, run) as real <= limit as real + EarnAll(from, run, limit) + OutagesFor(org, run) as real
  {
    LevelSane(Unexpired(Record(m, OrgSubject(org))), limit, from);
    OrgBudgetFrom(m, org, run, limit, from);
  }

  predicate Forwards(from: real, run: seq<Query>)
    decreases |run|
  {
    run == [] ||
    (from <= run[0].keyCall.wall && (run[0].org != "" ==> run[0].keyCall.wall <= run[0].orgCall.wall)
     && Forwards(LastWall(run[0]), run[1..]))
  }

  function EndWall(from: real, run: seq<Query>): real
    decreases |run|
  {
    if run == [] then from else EndWall(LastWall(run[0]), run[1..])
  }

  /** On a clock that does not go back, the earnings are a sixtieth of the limit for every
      elapsed second: limit + T * limit / 60 in any window of T seconds. */
  lemma {:induction false} EarnElapsed(from: real, run: seq<Query>, limit: int)
    requires Forwards(from, run)
    ensures EarnAll(from, run, limit) == (EndWall(from, run) - from) * (limit as real / 60.0)
    decreases |run|
  {
    if run != [] {
      var mid := LastWall(run[0]);
      EarnElapsed(mid, run[1..], limit);
      MulAdd(mid - from, EndWall(mid, run[1..]) - mid, Rate(limit));
      if run[0].org != "" {
        MulAdd(run[0].keyCall.wall - from, run[0].orgCall.wall - run[0].keyCall.wall, Rate(limit));
      }
    }
  }

  /** The clocks of every request are read promptly. */
  predicate AllPrompt(run: seq<Query>) {
    forall q :: q in run ==> Prompt(q.keyCall) && (q.org != "" ==> Prompt(q.orgCall))
  }

  ghost predicate AllLasting(m: Buckets) {
    forall subject :: Lasting(Record(m, subject))
  }

  lemma HitLasting(m: Buckets, subject: string, c: Call)
    requires AllLasting(m) && Prompt(c)
    ensures Fits(Record(m, subject), c) && AllLasting(HitSubject(m, subject, c).0)
  {
    PromptFits(Record(m, subject), c);
    forall other ensures Lasting(Record(HitSubject(m, subject, c).0, other)) {
      HitSubjectRecord(m, subject, c, other);
    }
  }

  /** That the wall clock agrees with the store's follows from the readings alone. */
  lemma {:induction false} PromptTimely(m: Buckets, run: seq<Query>)
    requires AllLasting(m) && AllPrompt(run)
    ensures AllTimely(m, run)
    decreases |run|
  {
    if run != [] {
      var q := run[0];
      assert q in run && forall d :: d in run[1..] ==> d in run;
      HitLasting(m, q.subject, q.keyCall);
      if q.org != "" { HitLasting(HitSubject(m, q.subject, q.keyCall).0, OrgSubject(q.org), q.orgCall); }
      PromptTimely(RateLimited(m, q).0, run[1..]);
    }
  }

  /** The budget of an organization over any window, in terms of the clock readings: one bucket,
      a sixtieth of the limit for each second, and one for each outage. */
  lemma OrgWindow(m: Buckets, org: string, run: seq<Query>, limit: int, from: real)
    requires AllSane(m) && AllLasting(m) && AllPrompt(run) && Forwards(from, run)
    requires 0 <= limit && org != "" && forall q :: q in run ==> Within(q, org, limit)
    ensures AdmittedFor(m, org, run) as real
            <= limit as real + (EndWall(from, run) - from) * (limit as real / 60.0) + OutagesFor(org, run) as real
  {
    PromptTimely(m, run);
    OrgBudget(m, org, run, limit, from);
    EarnElapsed(from, run, limit);
  }

  // ---------------------------------------------------------------- the reported headers

  /** Both buckets would admit an undisturbed call at `at`. */
  predicate BothReady(key: Bucket, org: Bucket, limit: int, at: real) {
    Level(Some(key), limit, at) >= 1.0 && Level(Some(org), limit, at) >= 1.0
  }

  /** Neither has a whole token left, and when the organization has waited for its next one the
      key, asked `lag` seconds earlier, has still not earned its own. */
  predicate KeyNeedsLonger(key: real, org: real, limit: int, lag: real)
    requires limit > 0
  {
    key < 2.0 && org < 2.0 && !Enough(Left(key), limit, lag + Wait(Left(org), limit) as real)
  }

  /** In so many seconds a bucket holding `left` earns what it lacks of a whole token. */
  predicate Enough(left: real, limit: int, seconds: real) {
    seconds * Rate(limit) >= 1.0 - left
  }

  /** Waiting for the reported reset serves both buckets, unless the call leaves both without
      a whole token and the key's wait is the longer one: of two counts that read zero the
      organization's wait is reported. */
  lemma RetryAfter(keyBucket: Option<Bucket>, orgBucket: Option<Bucket>, limit: int, now: real, later: real)
    requires Sane(keyBucket) && Sane(orgBucket) && limit > 0 && now <= later
    ensures var reported := Combine(true, Judge(keyBucket, limit, now), Judge(orgBucket, limit, later)).reset;
            0 <= reported &&
            (BothReady(Spend(keyBucket, limit, now), Spend(orgBucket, limit, later), limit, later + reported as real)
             <==> !KeyNeedsLonger(Level(keyBucket, limit, now), Level(orgBucket, limit, later), limit, later - now))
  {
    LevelSane(keyBucket, limit, now);
    LevelSane(orgBucket, limit, later);
    FromLevels(Level(keyBucket, limit, now), Level(orgBucket, limit, later), limit, now, later);
  }

  lemma FromLevels(key: real, org: real, limit: int, now: real, later: real)
    requires limit > 0 && now <= later && 0.0 <= key && 0.0 <= org
    ensures var w := Reported(Left(key), Left(org), limit);
            0 <= w && (BothReady(Bucket(Left(key), now), Bucket(Left(org), later), limit, later + w as real)
                       <==> !KeyNeedsLonger(key, org, limit, later - now))
  {
    var k, o, lag := Left(key), Left(org), later - now;
    ReportedServes(k, o, limit, lag);
    LaterReady(k, o, limit, now, later, Reported(k, o, limit) as real);
    WholeToken(key);
    WholeToken(org);
  }

  lemma WholeToken(level: real)
    ensures Left(level) < 1.0 <==> level < 2.0
  {
  }

  /** The reported reset, from what the two calls leave. */
  function Reported(key: real, org: real, limit: int): int
    requires limit > 0
  {
    if Truncate(org) <= Truncate(key) then Reset(org, limit) else Reset(key, limit)
  }

  lemma LaterReady(key: real, org: real, limit: int, now: real, later: real, w: real)
    requires limit > 0 && now <= later && 0.0 <= w
    ensures BothReady(Bucket(key, now), Bucket(org, later), limit, later + w)
            <==> Enough(key, limit, later - now + w) && Enough(org, limit, w)
  {
    assert now + (later - now + w) == later + w;
    Waited(key, now, limit, later - now + w);
    Waited(org, later, limit, w);
  }

  lemma ReportedServes(key: real, org: real, limit: int, lag: real)
    requires limit > 0 && 0.0 <= lag && 0.0 <= key && 0.0 <= org
    ensures var w := Reported(key, org, limit);
            0 <= w && (Enough(key, limit, lag + w as real) && Enough(org, limit, w as real)
                       <==> !(key < 1.0 && org < 1.0 && !Enough(key, limit, lag + Wait(org, limit) as real)))
  {
    if key < 1.0 { WaitPositive(key, limit); }
    if org < 1.0 { WaitPositive(org, limit); }
    var w := Reported(key, org, limit);
    Ready(key, limit, w);
    Ready(org, limit, w);
    MulMonotone(w as real, lag + w as real, Rate(limit));
  }

  lemma WaitPositive(left: real, limit: int)
    requires limit > 0 && left < 1.0
    ensures Wait(left, limit) >= 1
  {
    Earned(1.0 - left, Rate(limit), 0.0);
    CeilExact((1.0 - left) / Rate(limit), 0);
  }

  /** The reported reset can fall short: both counts read zero, the tie reports the
      organization's ten seconds, and the key needs thirty. */
  lemma RetryAfterFallsShort()
    ensures var key, org := Bucket(0.5, 0.0), Bucket(5.0 / 6.0, 0.0);
            && Combine(true, Judge(Some(key), 1, 0.0), Judge(Some(org), 1, 0.0)) == Answer(false, 0, 10)
            && Judge(Some(key), 1, 0.0).reset == 30
            && !BothReady(Spend(Some(key), 1, 0.0), Spend(Some(org), 1, 0.0), 1, 10.0)
  {
    var key, org := Some(Bucket(0.5, 0.0)), Some(Bucket(5.0 / 6.0, 0.0));
    assert Rate(1) == 1.0 / 60.0;
    assert Level(key, 1, 0.0) == 0.5 && Level(org, 1, 0.0) == 5.0 / 6.0;
    assert Spend(key, 1, 0.0) == key.value && Spend(org, 1, 0.0) == org.value;
    assert (1.0 - 0.5) / Rate(1) == 30.0;
    assert (1.0 - 5.0 / 6.0) / Rate(1) == 10.0;
    ResetExact(key, 1, 0.0, 10);
  }

  // ---------------------------------------------------------------- what a refused request costs

  /** The call takes nothing from the bucket as it finds it: there is no whole token, the limit
      lets nobody in, or the store fails to write. */
  predicate TakesNothing(m: Buckets, subject: string, c: Call) {
    c.limit <= 0 || c.outage == GetFails || c.outage == SetSkipped || Watched(m, subject, c.limit, c.wall) < 1.0
  }

  /** A request leaves both its buckets as full as it found them if and only if it finds neither
      with a token to take. One that finds only its key's bucket empty is refused and still
      spends a token of the organization. */
  lemma RefusedRequest(m: Buckets, q: Query)
    requires q.org != "" && q.subject != OrgSubject(q.org) && Timely(m, q) && AllSane(m)
    ensures var after := RateLimited(m, q).0;
            Keeps(m, after, q.subject, q.keyCall) && Keeps(m, after, OrgSubject(q.org), q.orgCall)
            <==> TakesNothing(m, q.subject, q.keyCall) && TakesNothing(m, OrgSubject(q.org), q.orgCall)
  {
    var m1 := HitSubject(m, q.subject, q.keyCall).0;
    HitSubjectRecord(m, q.subject, q.keyCall, q.subject);
    HitSubjectRecord(m, q.subject, q.keyCall, OrgSubject(q.org));
    HitSubjectRecord(m1, OrgSubject(q.org), q.orgCall, q.subject);
    HitSubjectRecord(m1, OrgSubject(q.org), q.orgCall, OrgSubject(q.org));
    HitLevel(Record(m, q.subject), q.keyCall);
    HitLevel(Record(m, OrgSubject(q.org)), q.orgCall);
  }

  /** Unless the store fails, such a call is refused, and every other is admitted. */
  lemma RefusedTakesNothing(m: Buckets, subject: string, c: Call)
    requires AllSane(m) && Fits(Record(m, subject), c) && c.outage == NoOutage
    ensures HitSubject(m, subject, c).1.allowed <==> !TakesNothing(m, subject, c)
  {
    HitStoredSame(Record(m, subject), c);
  }

  /** The subject's bucket is as full after the call as before it. */
  predicate Keeps(m: Buckets, after: Buckets, subject: string, c: Call) {
    Watched(after, subject, c.limit, c.wall) == Watched(m, subject, c.limit, c.wall)
  }

  /** A call takes one token when it finds one and its write takes effect, and nothing otherwise. */
  lemma HitLevel(r: Option<Stored>, c: Call)
    requires Sane(Unexpired(r)) && Fits(r, c)
    ensures var level := Level(Unexpired(r), c.limit, c.wall);
            Level(Unexpired(HitStored(r, c).0), c.limit, c.wall)
            == if c.limit <= 0 || c.outage == GetFails || c.outage == SetSkipped || level < 1.0
               then level else level - 1.0
  {
    HitStoredSame(r, c);
    if c.limit > 0 {
      LevelSane(Unexpired(r), c.limit, c.wall);
      SpendAgain(Spend(Unexpired(r), c.limit, c.wall), c.limit);
    }
  }

  /** A key that is out of tokens is refused and still spends one of its organization's. */
  lemma RefusedRequestSpends()
    ensures var m := map["key" := Stored(Bucket(0.0, 0.0), 120.0)];
            var c := Call(2, 0.0, 0.0, 0.0, NoOutage);
            var (after, answer) := RateLimited(m, Query("key", "acme", c, c));
            !answer.allowed && Watched(m, OrgSubject("acme"), 2, 0.0) == 2.0
                && Watched(after, OrgSubject("acme"), 2, 0.0) == 1.0
  {
    var m := map["key" := Stored(Bucket(0.0, 0.0), 120.0)];
    var c := Call(2, 0.0, 0.0, 0.0, NoOutage);
    assert Level(Some(Bucket(0.0, 0.0)), 2, 0.0) == 0.0;
    assert "key" != OrgSubject("acme");
    assert "key"[0] != OrgSubject("acme")[0];
    SpendAgain(Bucket(1.0, 0.0), 2);
  }

  // ---------------------------------------------------------------- who is admitted

  /** The bucket lets the call through: its limit lets anybody in, and it finds a whole token or
      the store fails. */
  predicate LetsThrough(m: Buckets, subject: string, c: Call) {
    c.limit > 0 && (c.outage != NoOutage || Watched(m, subject, c.limit, c.wall) >= 1.0)
  }

  /** A request is admitted if and only if both its key's bucket and its organization's bucket,
      as it finds them, let it through. */
  lemma AdmittedExact(m: Buckets, q: Query)
    requires q.org != "" && q.subject != "org:" + q.org && Timely(m, q) && AllSane(m)
    ensures RateLimited(m, q).1.allowed
            <==> LetsThrough(m, q.subject, q.keyCall) && LetsThrough(m, "org:" + q.org, q.orgCall)
  {
    HitSubjectRecord(m, q.subject, q.keyCall, OrgSubject(q.org));
    HitStoredSame(Record(m, q.subject), q.keyCall);
    HitStoredSame(Record(m, OrgSubject(q.org)), q.orgCall);
  }

  function Answers(m: Buckets, run: seq<Query>): seq<Answer>
    decreases |run|
  {
    if run == [] then [] else [RateLimited(m, run[0]).1] + Answers(RateLimited(m, run[0]).0, run[1..])
  }

  /** The same request over and over, at the same instants. */
  function Repeat(q: Query, n: nat): seq<Query> {
    seq(n, _ => q)
  }

  /** The two buckets have just been written by this request and hold `key` and `org` tokens. */
  predicate Holding(m: Buckets, q: Query, key: real, org: real) {
    && 0.0 <= key <= q.keyCall.limit as real && 0.0 <= org <= q.orgCall.limit as real
    && Record(m, q.subject) == Some(Stored(Bucket(key, q.keyCall.wall), q.keyCall.stamp + RECORD_TTL))
    && Record(m, "org:" + q.org) == Some(Stored(Bucket(org, q.orgCall.wall), q.orgCall.stamp + RECORD_TTL))
  }

  /** An undisturbed request of an organization, whose reads come no later than its writes. */
  predicate Plainly(q: Query) {
    && q.org != "" && q.subject != "org:" + q.org
    && q.keyCall.limit > 0 && q.orgCall.limit > 0
    && q.keyCall.outage == NoOutage && q.orgCall.outage == NoOutage
    && q.keyCall.look <= q.keyCall.stamp && q.orgCall.look <= q.orgCall.stamp
  }

  lemma AgainHolding(m: Buckets, q: Query, key: real, org: real)
    requires Plainly(q) && Holding(m, q, key, org)
    ensures Holding(RateLimited(m, q).0, q, Left(key), Left(org))
    ensures RateLimited(m, q).1.allowed <==> key >= 1.0 && org >= 1.0
  {
    SpendAgain(Bucket(key, q.keyCall.wall), q.keyCall.limit);
    SpendAgain(Bucket(org, q.orgCall.wall), q.orgCall.limit);
    var m1 := HitSubject(m, q.subject, q.keyCall).0;
    HitSubjectRecord(m, q.subject, q.keyCall, q.subject);
    HitSubjectRecord(m, q.subject, q.keyCall, OrgSubject(q.org));
    HitSubjectRecord(m1, OrgSubject(q.org), q.orgCall, q.subject);
    HitSubjectRecord(m1, OrgSubject(q.org), q.orgCall, OrgSubject(q.org));
  }

  lemma {:induction false} RepeatFrom(m: Buckets, q: Query, key: real, org: real, n: nat)
    requires Plainly(q) && Holding(m, q, key, org)
    ensures |Answers(m, Repeat(q, n))| == n
    ensures forall i :: 0 <= i < n ==>
      (Answers(m, Repeat(q, n))[i].allowed <==> i < key.Floor && i < org.Floor)
    decreases n
  {
    if n > 0 {
      var after := RateLimited(m, q).0;
      AgainHolding(m, q, key, org);
      RepeatFrom(after, q, Left(key), Left(org), n - 1);
      assert Repeat(q, n)[1..] == Repeat(q, n - 1);
      assert Answers(m, Repeat(q, n)) == [RateLimited(m, q).1] + Answers(after, Repeat(q, n - 1));
      LeftFloor(key);
      LeftFloor(org);
    }
  }

  lemma LeftFloor(level: real)
    requires level >= 0.0
    ensures Left(level).Floor == if level >= 1.0 then level.Floor - 1 else 0
    ensures level < 1.0 ==> level.Floor == 0
  {
  }

  lemma FirstHolding(m: Buckets, q: Query)
    requires Plainly(q) && Timely(m, q) && AllSane(m)
    ensures var key, org := Watched(m, q.subject, q.keyCall.limit, q.keyCall.wall),
                            Watched(m, "org:" + q.org, q.orgCall.limit, q.orgCall.wall);
            && 0.0 <= key && 0.0 <= org
            && Holding(RateLimited(m, q).0, q, Left(key), Left(org))
            && RateLimited(m, q).1.remaining == Least(Left(key).Floor, Left(org).Floor)
  {
    var m1 := HitSubject(m, q.subject, q.keyCall).0;
    HitSubjectRecord(m, q.subject, q.keyCall, q.subject);
    HitSubjectRecord(m, q.subject, q.keyCall, OrgSubject(q.org));
    HitSubjectRecord(m1, OrgSubject(q.org), q.orgCall, q.subject);
    HitSubjectRecord(m1, OrgSubject(q.org), q.orgCall, OrgSubject(q.org));
    HitStoredSame(Record(m, q.subject), q.keyCall);
    HitStoredSame(Record(m, OrgSubject(q.org)), q.orgCall);
    LevelSane(Unexpired(Record(m, q.subject)), q.keyCall.limit, q.keyCall.wall);
    LevelSane(Unexpired(Record(m, OrgSubject(q.org))), q.orgCall.limit, q.orgCall.wall);
  }

  function Least(a: int, b: int): int { if a <= b then a else b }

  /** After a request is told how many remain, exactly that many more of the same key at the
      same instants are admitted and every further one is refused. */
  lemma RemainingRequests(m: Buckets, q: Query, n: nat)
    requires Plainly(q) && Timely(m, q) && AllSane(m)
    ensures var (after, answer) := RateLimited(m, q);
            && 0 <= answer.remaining && |Answers(after, Repeat(q, n))| == n
            && forall i :: 0 <= i < n ==> (Answers(after, Repeat(q, n))[i].allowed <==> i < answer.remaining)
  {
    FirstHolding(m, q);
    var key := Watched(m, q.subject, q.keyCall.limit, q.keyCall.wall);
    var org := Watched(m, "org:" + q.org, q.orgCall.limit, q.orgCall.wall);
    LeftFloor(key);
    LeftFloor(org);
    RepeatFrom(RateLimited(m, q).0, q, Left(key), Left(org), n);
  }

  /** A key and an organization that have not been heard of are admitted as often as their
      limit says, and then refused. */
  lemma FreshRequests(m: Buckets, q: Query, limit: int, n: nat)
    requires Plainly(q) && AllSane(m) && q.subject !in m && "org:" + q.org !in m
    requires q.keyCall.limit == limit && q.orgCall.limit == limit
    ensures |Answers(m, Repeat(q, n))| == n
    ensures forall i :: 0 <= i < n ==> (Answers(m, Repeat(q, n))[i].allowed <==> i < limit)
  {
    HitSubjectRecord(m, q.subject, q.keyCall, OrgSubject(q.org));
    AdmittedExact(m, q);
    FirstHolding(m, q);
    if n > 0 {
      RemainingRequests(m, q, n - 1);
      assert Repeat(q, n)[1..] == Repeat(q, n - 1);
      assert Answers(m, Repeat(q, n)) == [RateLimited(m, q).1] + Answers(RateLimited(m, q).0, Repeat(q, n - 1));
    }
  }
}
