/** The shared handler of every billable literature call, statement by statement, driving
    the store. It is proved to run exactly the request program of `Lifecycle`, whose
    interleavings the other modules are about. */
module Handler {
  import opened Store
  import opened Lifecycle
  import opened V1Store
  import RateLimiter
  import Quota
  import Slots
  import Usage

  /** What happens outside the gateway during one call: whether the body satisfies the
      contract and the Idempotency-Key its format, the wall-clock readings of the two rate
      buckets, the key reveal, and the upstream response. */
  datatype Outside = Outside(contractOk: bool, keyFormatOk: bool, wallKey: real, wallOrg: real, revealOk: bool,
        response: Input)

  // ---------------------------------------------------------------- outcomes and their causes

  /** The outcome has its cause in the request and in what happened outside, whatever the store
      did: a status from 200 to 299 is an answer and no other is. */
  predicate Caused(req: Request, outside: Outside, out: Outcome)
    requires outside.response.Responded?
  {
    var response := outside.response;
    var keyless := req.byok && !req.testMode && !outside.revealOk;
    match out
    case Rejected => true
    case Replayed(_, _) => req.idem.Some?
    case Mismatch => req.idem.Some?
    case InProgress => req.idem.Some?
    case RevealFailed => keyless
    case Busy => !keyless && req.capped && !req.testMode
    case TestAnswered(body) => req.testMode && body == req.testBody
    case OverQuota => !keyless && !req.testMode
    case UpstreamFailed(status) =>
      !keyless && !req.testMode && status == response.status && !(200 <= response.status < 300)
    case Answered(status, body) =>
      && !keyless && !req.testMode && 200 <= response.status < 300
      && status == response.status && body == response.body
  }

  /** The units that billing has left the organization, when it has set a quota. */
  function Units(m: Plain, org: string, resource: Resource): Option<int> {
    var key := QuotaKey(org, resource);
    if key in m && m[key].value.Num? then Some(m[key].value.n) else None
  }

  /** A quota, when there is one, is a number without a deadline, at zero or above. */
  predicate QuotaTidy(m: Plain, org: string, resource: Resource) {
    var key := QuotaKey(org, resource);
    key in m ==> m[key].value.Num? && m[key].value.n >= 0 && m[key].expires.None?
  }

  /** One of the two counters, each at its own time, has reached the limit. */
  predicate Full(m: Plain, limit: int, req: Request, t: real, u: real) {
    Slots.Level(m, SlotKey(req.subject), t) >= limit || Slots.Level(m, SlotKey("org:" + req.org), u) >= limit
  }

  /** What becomes of a request that nobody disturbs and no failure befalls, from the key reveal
      on: the store `m` as it is found decides, and the upstream. */
  predicate EndsAs(m: Plain, limit: int, req: Request, outside: Outside, out: Outcome, t: real, u: real)
    requires outside.response.Responded?
  {
    var response := outside.response;
    if req.byok && !req.testMode && !outside.revealOk then out == RevealFailed
    else if req.capped && !req.testMode && Full(m, limit, req, t, u) then out == Busy
    else if req.testMode then out == TestAnswered(req.testBody)
    else if Units(m, req.org, req.resource) == Some(0) then out == OverQuota
    else if 200 <= response.status < 300 then out == Answered(response.status, response.body)
    else out == UpstreamFailed(response.status)
  }

  /** Under the caller's own key there is the answer of a call that succeeded, and nothing after
      one that did not. */
  predicate RecordAfter(m: Plain, req: Request, out: Outcome) {
    req.idem.Some? ==>
      var key := IdemKey(req.subject, req.idem.value);
      match out
      case Answered(status, body) => key in m && m[key].value == Finished(req.fingerprint, status, body)
      case TestAnswered(body) => key in m && m[key].value == Finished(req.fingerprint, 200, body)
      case _ => key !in m
  }

  /** The quota has dropped by one exactly for an answer of the upstream. */
  predicate UnitsAfter(before: Plain, after: Plain, req: Request, out: Outcome) {
    var was, now := Units(before, req.org, req.resource), Units(after, req.org, req.resource);
    if was.None? then now.None? else now == Some(was.value - if out.Answered? then 1 else 0)
  }

  /** Both counters and the quota are as the gateway and billing keep them. */
  predicate Tidy(m: Plain, req: Request) {
    && req.subject != "org:" + req.org
    && IsNumber(m, SlotKey(req.subject)) && IsNumber(m, SlotKey("org:" + req.org))
    && QuotaTidy(m, req.org, req.resource)
  }

  /** What the `try` block makes of the store it finds, `m`. */
  predicate WorkDone(m: Plain, after: Plain, calm: bool, req: Request, outside: Outside, out: Outcome)
    requires outside.response.Responded?
  {
    && (if req.testMode then out == TestAnswered(req.testBody) else Reserved(outside.response, out))
    && (calm ==> RecordAfter(after, req, out))
    && (calm && QuotaTidy(m, req.org, req.resource) ==>
          && UnitsAfter(m, after, req, out)
          && (!req.testMode ==> (out.OverQuota? <==> Units(m, req.org, req.resource) == Some(0))))
  }

  /** What the call makes of the store it finds from the concurrency slots on. */
  predicate RunDone(m: Plain, after: Plain, calm: bool, limit: int, req: Request, outside: Outside, out: Outcome,
                    t: real, u: real)
    requires outside.response.Responded?
  {
    && Executes(out) && Caused(req, outside, out)
    && (calm ==> RecordAfter(after, req, out))
    && (calm && Tidy(m, req) ==> EndsAs(m, limit, req, outside, out, t, u) && UnitsAfter(m, after, req, out))
  }

  ghost predicate IdemOnly(before: Plain, after: Plain) {
    forall k: Key :: !k.IdemKey? ==> (k in after <==> k in before) && (k in after ==> after[k] == before[k])
  }

  ghost predicate BucketsOnly(before: Plain, after: Plain) {
    forall k: Key :: !k.BucketKey? ==> (k in after <==> k in before) && (k in after ==> after[k] == before[k])
  }

  // ---------------------------------------------------------------- rate limit

  /** The limit that applies: the organization's own when billing has set one. */
  predicate LimitFor(redis: Plain, org: string, standard: int, limit: int) {
    var key := LimitKey(org);
    && (org == "" || key !in redis ==> limit == standard)
    && (org != "" && key in redis && redis[key].expires.None? && redis[key].value.Num? ==> limit == redis[key].value.n)
  }

  /** Both buckets are asked under the same limit, whatever the first answers, and the reply
      combines them. Unless other requests come in between, the request is the query `q` of
      the two buckets, whatever fails. */
  method RateLimited(store: V1Store, subject: string, org: string, standard: int, outside: Outside)
    returns (answer: RateLimiter.Answer, ghost q: RateLimiter.Query)
    modifies store`redis, store`clock, store`failures, store`others, store`incremented
    ensures store.Later()
    ensures q.subject == subject && q.org == org && q.orgCall.limit == q.keyCall.limit
    ensures q.keyCall.wall == outside.wallKey && (org != "" ==> q.orgCall.wall == outside.wallOrg)
    ensures store.Calm() ==> LimitFor(old(store.redis), org, standard, q.keyCall.limit)
    ensures store.failures == old(store.failures) ==> q.keyCall.outage == q.orgCall.outage == TokenBucket.NoOutage
    ensures q.keyCall.limit <= 0 ==> !answer.allowed
    ensures store.others == old(store.others) ==> BucketsOnly(old(store.redis), store.redis)
    ensures store.others == old(store.others) && AllShaped(old(store.redis)) ==>
      AllShaped(store.redis)
          && (BucketsOf(store.redis), answer) == RateLimiter.RateLimited(BucketsOf(old(store.redis)), q)
  {
    var applies := standard;
    if org != "" {
      var own := store.RateLimitForOrg(org);
      if own.Some? { applies := own.value; }
    }
    var key, keyCall := store.HitRateLimit(subject, applies, outside.wallKey);
    if org == "" {
      return RateLimiter.Combine(false, key, key), RateLimiter.Query(subject, org, keyCall, keyCall);
    }
    var orgs, orgCall := store.HitRateLimit(RateLimiter.OrgSubject(org), applies, outside.wallOrg);
    return RateLimiter.Combine(true, key, orgs), RateLimiter.Query(subject, org, keyCall, orgCall);
  }

  // ---------------------------------------------------------------- the try block

  /** Settles the claim when the caller sent an Idempotency-Key. */
  method Settle(store: V1Store, req: Request, status: int, body: string, ghost out: Outcome, ghost todo: seq<Event>)
    requires Fits(store.cfg, store.proc) && store.proc.req == req && store.proc.pc == ToSettle(req, out, todo)
    requires IsSuccess(status) <==> Succeeded(out)
    requires IsSuccess(status) ==> status == StatusOf(out) && body == BodyOf(out)
    modifies store`redis, store`clock, store`failures, store`others, store`incremented, store`proc
    ensures store.Later()
    ensures Fits(store.cfg, store.proc) && store.proc.req == req && store.proc.pc == AfterSettle(req, out, todo)
    ensures store.others == old(store.others) ==> IdemOnly(old(store.redis), store.redis)
    ensures store.Calm() ==> RecordAfter(store.redis, req, out)
  {
    if req.idem.Some? {
      store.IdempotencyFinish(req.subject, req.idem.value, req.fingerprint, status, body);
    }
  }

  /** The `try` block: everything from the test-mode answer or the reservation on. */
  method Work(store: V1Store, req: Request, outside: Outside) returns (out: Outcome)
    requires store.Valid() && Fits(store.cfg, store.proc) && store.proc.req == req
    requires store.proc.pc == ToWork(req) && outside.response.Responded?
    modifies store, store.outbox, store.stream
    ensures store.Valid() && Fits(store.cfg, store.proc) && store.proc.req == req && store.Later()
    ensures store.proc.pc == Exit(req, out)
    ensures WorkDone(old(store.redis), store.redis, store.Calm(), req, outside, out)
    ensures store.ledger.emitted
            == old(store.ledger).emitted + (if out.Answered? then Events(req, outside.response) else [])
  {
    if req.testMode {
      Settle(store, req, 200, req.testBody, TestAnswered(req.testBody), []);
      return TestAnswered(req.testBody);
    }
    out := Reserve(store, req, outside.response);
  }

  /** Over quota, or as the upstream responded. */
  predicate Reserved(response: Input, out: Outcome)
    requires response.Responded?
  {
    out == OverQuota
    || out == if 200 <= response.status < 300 then Answered(response.status, response.body)
              else UpstreamFailed(response.status)
  }

  /** What the quota found and the upstream make of the call. */
  predicate QuotaDone(m: Plain, after: Plain, calm: bool, req: Request, response: Input, out: Outcome)
    requires response.Responded?
  {
    && Reserved(response, out)
    && (calm ==> RecordAfter(after, req, out))
    && (calm && QuotaTidy(m, req.org, req.resource) ==>
          UnitsAfter(m, after, req, out) && (out.OverQuota? <==> Units(m, req.org, req.resource) == Some(0)))
  }

  /** A unit of quota, and the upstream call for it. */
  method Reserve(store: V1Store, req: Request, response: Input) returns (out: Outcome)
    requires store.Valid() && Fits(store.cfg, store.proc) && store.proc.req == req
    requires store.proc.pc.QuotaGet? && response.Responded?
    modifies store, store.outbox, store.stream
    ensures store.Valid() && Fits(store.cfg, store.proc) && store.proc.req == req && store.Later()
    ensures store.proc.pc == Exit(req, out)
    ensures QuotaDone(old(store.redis), store.redis, store.Calm(), req, response, out)
    ensures store.ledger.emitted == old(store.ledger).emitted + (if out.Answered? then Events(req, response) else [])
  {
    ghost var m := store.redis;
    var reserved := store.ReserveQuota(req.org, req.resource);
    ghost var taken := store.redis;
    if !reserved {
      out := OverQuota;
      Settle(store, req, 402, "", out, []);
      DeniedDone(m, taken, store.redis, store.Calm(), req, response);
    } else {
      out := Forward(store, req, response);
      ForwardDone(m, taken, store.redis, store.Calm(), req, response, out);
    }
  }

  lemma DeniedDone(m: Plain, taken: Plain, after: Plain, calm: bool, req: Request, response: Input)
    requires response.Responded?
    requires calm ==> IdemOnly(taken, after) && RecordAfter(after, req, OverQuota)
    requires calm && QuotaTidy(m, req.org, req.resource) ==>
      Units(m, req.org, req.resource) == Some(0) && Units(taken, req.org, req.resource) == Some(0)
    ensures QuotaDone(m, after, calm, req, response, OverQuota)
  {
  }

  lemma ForwardDone(m: Plain, taken: Plain, after: Plain, calm: bool, req: Request, response: Input, out: Outcome)
    requires response.Responded? && Reserved(response, out) && !out.OverQuota?
    requires calm ==> RecordAfter(after, req, out) && Refunded(taken, after, req, out)
    requires calm && QuotaTidy(m, req.org, req.resource) ==>
      match Units(m, req.org, req.resource)
      case None => QuotaKey(req.org, req.resource) !in taken
      case Some(n) => n > 0 && Quota.Metered(taken, QuotaKey(req.org, req.resource))
                      && Units(taken, req.org, req.resource) == Some(n - 1)
    ensures QuotaDone(m, after, calm, req, response, out)
  {
  }

  /** The upstream call: anything but a 2xx is refunded, a 2xx is settled and billed. */
  method Forward(store: V1Store, req: Request, response: Input) returns (out: Outcome)
    requires store.Valid() && Fits(store.cfg, store.proc) && store.proc.req == req
    requires store.proc.pc.Upstream? && response.Responded?
    modifies store, store.outbox, store.stream
    ensures store.Valid() && Fits(store.cfg, store.proc) && store.proc.req == req && store.Later()
    ensures store.proc.pc == Exit(req, out) && Reserved(response, out) && !out.OverQuota?
    ensures store.ledger.emitted == old(store.ledger).emitted + (if out.Answered? then Events(req, response) else [])
    ensures store.Calm() ==> RecordAfter(store.redis, req, out)
    ensures store.Calm() ==> Refunded(old(store.redis), store.redis, req, out)
  {
    HearFits(store.cfg, store.proc, response);
    store.Heard(response);
    if !(200 <= response.status < 300) {
      out := Refuse(store, req, response);
    } else {
      out := Answer(store, req, response);
    }
  }

  /** The upstream has failed: the unit and the claim are given back. */
  method Refuse(store: V1Store, req: Request, response: Input) returns (out: Outcome)
    requires Fits(store.cfg, store.proc) && store.proc.req == req && response.Responded?
    requires !(200 <= response.status < 300) && store.proc.pc == RefundGet(UpstreamFailed(response.status))
    modifies store`redis, store`clock, store`failures, store`others, store`incremented, store`proc
    ensures Fits(store.cfg, store.proc) && store.proc.req == req && store.Later()
    ensures out == UpstreamFailed(response.status) && store.proc.pc == Exit(req, out)
    ensures store.Calm() ==> RecordAfter(store.redis, req, out) && Refunded(old(store.redis), store.redis, req, out)
  {
    out := UpstreamFailed(response.status);
    store.ReleaseQuota(req.org, req.resource);
    Settle(store, req, response.status, response.body, out, []);
  }

  /** The upstream has answered: the answer is kept and billed. */
  method Answer(store: V1Store, req: Request, response: Input) returns (out: Outcome)
    requires store.Valid() && Fits(store.cfg, store.proc) && store.proc.req == req && response.Responded?
    requires 200 <= response.status < 300
    requires store.proc.pc == ToSettle(req, Answered(response.status, response.body), Events(req, response))
    modifies store, store.outbox, store.stream
    ensures store.Valid() && Fits(store.cfg, store.proc) && store.proc.req == req && store.Later()
    ensures out == Answered(response.status, response.body) && store.proc.pc == Exit(req, out)
    ensures store.ledger.emitted == old(store.ledger).emitted + Events(req, response)
    ensures store.Calm() ==> RecordAfter(store.redis, req, out) && Refunded(old(store.redis), store.redis, req, out)
  {
    out := Answered(response.status, response.body);
    Settle(store, req, response.status, response.body, out, Events(req, response));
    Bill(store, req, response);
  }

  /** The unit that had been taken is given back exactly for a failure of the upstream. */
  predicate Refunded(before: Plain, after: Plain, req: Request, out: Outcome) {
    var key := QuotaKey(req.org, req.resource);
    (key !in before ==> key !in after)
    && (Quota.Metered(before, key) ==>
          Quota.Metered(after, key) && after[key].value.n == before[key].value.n + if out.Answered? then 0 else 1)
  }

  /** One unit of the resource, and the token counts the upstream reported. */
  method Bill(store: V1Store, req: Request, response: Input)
    requires store.Valid() && Fits(store.cfg, store.proc) && store.proc.req == req && response.Responded?
    requires store.proc.pc == Pc.Emit(Answered(response.status, response.body), Events(req, response))
    modifies store`proc, store`ledger, store.outbox, store.stream
    ensures store.Valid() && Fits(store.cfg, store.proc) && store.proc.req == req
    ensures store.proc.pc == Exit(req, Answered(response.status, response.body))
    ensures store.ledger.emitted == old(store.ledger).emitted + Events(req, response)
  {
    var dedup := DedupKey(req);
    ghost var events := Events(req, response);
    store.Emit(Usage.Event(dedup, req.org, req.resource, 1));
    BillTokens(store, req, dedup, response, events[1..]);
    assert events == [events[0]] + events[1..];
  }

  /** The token counts, if the upstream reported any. */
  method BillTokens(store: V1Store, req: Request, dedup: string, response: Input, ghost todo: seq<Event>)
    requires store.Valid() && Fits(store.cfg, store.proc) && store.proc.req == req && response.Responded?
    requires dedup == DedupKey(req) && todo == Events(req, response)[1..]
    requires store.proc.pc == AfterSettle(req, Answered(response.status, response.body), todo)
    modifies store`proc, store`ledger, store.outbox, store.stream
    ensures store.Valid() && Fits(store.cfg, store.proc) && store.proc.req == req
    ensures store.proc.pc == Exit(req, Answered(response.status, response.body))
    ensures store.ledger.emitted == old(store.ledger).emitted + todo
  {
    if response.inputTokens.Some? {
      store.Emit(Usage.Event(dedup + ":tokens:input", req.org, TokensInput, response.inputTokens.value));
    }
    if response.outputTokens.Some? {
      store.Emit(Usage.Event(dedup + ":tokens:output", req.org, TokensOutput, response.outputTokens.value));
    }
  }

  // ---------------------------------------------------------------- the handler

  /** The checks before the call: organization, contract, rate limit, format of the
      Idempotency-Key. A request is admitted exactly when it passes all of them, and the rate
      limiter is not asked before the first two are passed. */
  method Admit(store: V1Store, req: Request, standard: int, outside: Outside)
    returns (admitted: bool, answer: RateLimiter.Answer, ghost q: RateLimiter.Query)
    requires store.Valid() && Billable(req.resource)
    modifies store`redis, store`clock, store`failures, store`others, store`incremented, store`proc
    ensures Fits(store.cfg, store.proc) && store.proc == Hear(Spawn(req), Gated(admitted)) && store.Later()
    ensures admitted
            <==> req.org != "" && outside.contractOk && answer.allowed && (req.idem.Some? ==> outside.keyFormatOk)
    ensures q.subject == req.subject && q.org == req.org
    ensures store.others == old(store.others) && AllShaped(old(store.redis)) && req.org != "" && outside.contractOk ==>
      (BucketsOf(store.redis), answer) == RateLimiter.RateLimited(BucketsOf(old(store.redis)), q)
    ensures store.others == old(store.others) ==> BucketsOnly(old(store.redis), store.redis)
    ensures req.org == "" || !outside.contractOk ==> store.redis == old(store.redis)
  {
    store.proc := Spawn(req);
    answer := RateLimiter.Answer(true, 0, 0);
    ghost var unasked := TokenBucket.Call(standard, 0.0, 0.0, 0.0, TokenBucket.NoOutage);
    q := RateLimiter.Query(req.subject, req.org, unasked, unasked);
    admitted := req.org != "" && outside.contractOk;
    if admitted {
      answer, q := RateLimited(store, req.subject, req.org, standard, outside);
      admitted := answer.allowed && (req.idem.Some? ==> outside.keyFormatOk);
    }
    HearFits(store.cfg, store.proc, Gated(admitted));
    store.Heard(Gated(admitted));
  }

  /** The request is let past the checks. */
  predicate Passes(req: Request, outside: Outside, answer: RateLimiter.Answer) {
    req.org != "" && outside.contractOk && answer.allowed && (req.idem.Some? ==> outside.keyFormatOk)
  }

  /** What the request is told when its key is taken. */
  function Duplicate(claim: Claimed): Outcome {
    match claim
    case Replay(status, body) => Replayed(status, body)
    case Reused => Mismatch
    case _ => InProgress
  }

  /** The handler. A request is rejected exactly when it does not pass the checks, and then
      nothing but rate buckets has changed and nothing is emitted. Every other outcome has its
      cause in the request, the reveal and the response, events are emitted exactly for an
      answer of the upstream, and a capped call that gets as far as its quota has counted
      itself on both counters. When nobody disturbs it and nothing fails, the outcome, the
      record and the quota afterwards are determined by what the request finds. */
  method Handle(store: V1Store, req: Request, standard: int, outside: Outside)
      returns (out: Outcome, answer: RateLimiter.Answer, ghost at: seq<real>)
    requires store.Valid() && Billable(req.resource) && outside.response.Responded?
    modifies store, store.outbox, store.stream
    ensures store.Valid() && Fits(store.cfg, store.proc) && store.proc.req == req && store.Later()
    ensures store.proc.pc == Done(out)
    ensures out.Rejected? <==> !Passes(req, outside, answer)
    ensures out.Rejected? && store.others == old(store.others) ==> BucketsOnly(old(store.redis), store.redis)
    ensures Caused(req, outside, out)
    ensures store.ledger.emitted
            == old(store.ledger).emitted + (if out.Answered? then Events(req, outside.response) else [])
    ensures CountedIn(store.incremented, req, out)
    ensures |at| == 4
    ensures store.Calm() && Tidy(old(store.redis), req) && !out.Rejected? ==>
      Determined(old(store.redis), store.redis, store.cfg.slotLimit, req, outside, out, at)
  {
    ghost var m, q := store.redis, *;
    var admitted;
    admitted, answer, q := Admit(store, req, standard, outside);
    if !admitted { return Rejected, answer, [0.0, 0.0, 0.0, 0.0]; }
    ghost var passed := store.redis;
    out, at := Proceed(store, req, outside);
    if store.Calm() && Tidy(m, req) { SameStore(m, passed, store.redis, store.cfg.slotLimit, req, outside, out, at); }
  }

  /** From the Idempotency-Key on, if there is one. */
  method Proceed(store: V1Store, req: Request, outside: Outside) returns (out: Outcome, ghost at: seq<real>)
    requires store.Valid() && Fits(store.cfg, store.proc) && store.proc.req == req && outside.response.Responded?
    requires store.proc.pc == if req.idem.Some? then ClaimSet else AfterClaim(req)
    modifies store, store.outbox, store.stream
    ensures store.Valid() && Fits(store.cfg, store.proc) && store.proc.req == req && store.Later()
    ensures store.proc.pc == Done(out) && !out.Rejected? && Caused(req, outside, out)
    ensures store.ledger.emitted
            == old(store.ledger).emitted + (if out.Answered? then Events(req, outside.response) else [])
    ensures CountedIn(store.incremented, req, out)
    ensures |at| == 4
    ensures store.Calm() && Tidy(old(store.redis), req) ==>
      Determined(old(store.redis), store.redis, store.cfg.slotLimit, req, outside, out, at)
  {
    if req.idem.Some? {
      out, at := Keyed(store, req, outside);
    } else {
      ghost var t, u;
      out, t, u := Claimed(store, req, outside);
      at := [0.0, 0.0, t, u];
    }
  }

  /** With an Idempotency-Key: a duplicate is told what the record says, and the first request
      goes on. */
  method Keyed(store: V1Store, req: Request, outside: Outside) returns (out: Outcome, ghost at: seq<real>)
    requires store.Valid() && Fits(store.cfg, store.proc) && store.proc.req == req
    requires store.proc.pc.ClaimSet? && outside.response.Responded? && req.idem.Some?
    modifies store, store.outbox, store.stream
    ensures store.Valid() && Fits(store.cfg, store.proc) && store.proc.req == req && store.Later()
    ensures store.proc.pc == Done(out) && !out.Rejected? && Caused(req, outside, out)
    ensures store.ledger.emitted
            == old(store.ledger).emitted + (if out.Answered? then Events(req, outside.response) else [])
    ensures CountedIn(store.incremented, req, out)
    ensures |at| == 4
    ensures store.Calm() && Tidy(old(store.redis), req) ==>
      Determined(old(store.redis), store.redis, store.cfg.slotLimit, req, outside, out, at)
  {
    ghost var m, t, u, v, w := store.redis, 0.0, 0.0, 0.0, 0.0;
    var claim;
    claim, t, u := store.IdempotencyBegin(req.subject, req.idem.value, req.fingerprint);
    at := [t, u, 0.0, 0.0];
    if claim.New? {
      ghost var claimed := store.redis;
      out, v, w := Claimed(store, req, outside);
      at := [t, u, v, w];
      if store.Calm() && Tidy(m, req) {
        FirstDone(m, claimed, store.redis, store.cfg.slotLimit, req, outside, out, at);
      }
    } else {
      out := Duplicate(claim);
    }
  }

  lemma FirstDone(m: Plain, claimed: Plain, after: Plain, limit: int, req: Request, outside: Outside, out: Outcome,
                  at: seq<real>)
    requires outside.response.Responded? && req.idem.Some? && |at| == 4 && Tidy(m, req)
    requires !Live(m, IdemKey(req.subject, req.idem.value), at[0])
    requires OthersKept(m, claimed, IdemKey(req.subject, req.idem.value))
    requires RunDone(claimed, after, true, limit, req, outside, out, at[2], at[3])
    ensures Determined(m, after, limit, req, outside, out, at)
  {
  }

  /** What the checks leave untouched decides in the same way. */
  lemma SameStore(m: Plain, passed: Plain, after: Plain, limit: int, req: Request, outside: Outside, out: Outcome,
                  at: seq<real>)
    requires outside.response.Responded? && |at| == 4 && Tidy(m, req) && BucketsOnly(m, passed)
    requires Tidy(passed, req) ==> Determined(passed, after, limit, req, outside, out, at)
    ensures Determined(m, after, limit, req, outside, out, at)
  {
  }

  /** A duplicate is told what the record that it finds says. Anyone else ends as the store and
      the upstream decide, and record and quota are left accordingly. */
  predicate Determined(m: Plain, after: Plain, limit: int, req: Request, outside: Outside, out: Outcome, at: seq<real>)
    requires outside.response.Responded? && |at| == 4
  {
    if req.idem.Some? && Live(m, IdemKey(req.subject, req.idem.value), at[0])
    then out == Duplicate(Told(m, IdemKey(req.subject, req.idem.value), req.fingerprint, at[1]))
    else EndsAs(m, limit, req, outside, out, at[2], at[3])
         && RecordAfter(after, req, out) && UnitsAfter(m, after, req, out)
  }

  /** A capped call outside test mode that got as far as its quota has issued INCR on its key's
      and its organization's counter. */
  predicate CountedIn(incremented: set<Key>, req: Request, out: Outcome) {
    req.capped && !req.testMode && (out.OverQuota? || out.UpstreamFailed? || out.Answered?) ==>
      SlotKey(req.subject) in incremented && SlotKey("org:" + req.org) in incremented
  }

  /** From the key reveal on; a call that cannot get its provider key releases the claim. */
  method Claimed(store: V1Store, req: Request, outside: Outside) returns (out: Outcome, ghost t: real, ghost u: real)
    requires store.Valid() && Fits(store.cfg, store.proc) && store.proc.req == req
    requires store.proc.pc == AfterClaim(req) && outside.response.Responded?
    modifies store, store.outbox, store.stream
    ensures store.Valid() && Fits(store.cfg, store.proc) && store.proc.req == req && store.Later()
    ensures store.proc.pc == Done(out)
    ensures RunDone(old(store.redis), store.redis, store.Calm(), store.cfg.slotLimit, req, outside, out, t, u)
    ensures store.ledger.emitted
            == old(store.ledger).emitted + (if out.Answered? then Events(req, outside.response) else [])
    ensures CountedIn(store.incremented, req, out)
  {
    if req.byok && !req.testMode {
      out, t, u := Reveal(store, req, outside);
    } else {
      out, t, u := Run(store, req, outside);
    }
  }

  /** The call needs the organization's own provider key. */
  method Reveal(store: V1Store, req: Request, outside: Outside) returns (out: Outcome, ghost t: real, ghost u: real)
    requires store.Valid() && Fits(store.cfg, store.proc) && store.proc.req == req
    requires store.proc.pc.Reveal? && req.byok && !req.testMode && outside.response.Responded?
    modifies store, store.outbox, store.stream
    ensures store.Valid() && Fits(store.cfg, store.proc) && store.proc.req == req && store.Later()
    ensures store.proc.pc == Done(out)
    ensures RunDone(old(store.redis), store.redis, store.Calm(), store.cfg.slotLimit, req, outside, out, t, u)
    ensures store.ledger.emitted
            == old(store.ledger).emitted + (if out.Answered? then Events(req, outside.response) else [])
    ensures CountedIn(store.incremented, req, out)
  {
    HearFits(store.cfg, store.proc, Revealed(outside.revealOk));
    store.Heard(Revealed(outside.revealOk));
    if outside.revealOk {
      out, t, u := Run(store, req, outside);
    } else {
      ghost var m := store.redis;
      t, u := 0.0, 0.0;
      out := RevealFailed;
      Settle(store, req, 400, "", out, []);
      KeylessDone(m, store.redis, store.Calm(), store.cfg.slotLimit, req, outside, t, u);
    }
  }

  lemma KeylessDone(m: Plain, after: Plain, calm: bool, limit: int, req: Request, outside: Outside, t: real, u: real)
    requires outside.response.Responded? && req.byok && !req.testMode && !outside.revealOk
    requires calm ==> IdemOnly(m, after) && RecordAfter(after, req, RevealFailed)
    ensures RunDone(m, after, calm, limit, req, outside, RevealFailed, t, u)
  {
  }

  /** From the concurrency slots on; the slots are given back however the `try` block ends. */
  method Run(store: V1Store, req: Request, outside: Outside) returns (out: Outcome, ghost t: real, ghost u: real)
    requires store.Valid() && Fits(store.cfg, store.proc) && store.proc.req == req
    requires store.proc.pc == ToSlots(req) && outside.response.Responded?
    requires req.byok && !req.testMode ==> outside.revealOk
    modifies store, store.outbox, store.stream
    ensures store.Valid() && Fits(store.cfg, store.proc) && store.proc.req == req && store.Later()
    ensures store.proc.pc == Done(out)
    ensures RunDone(old(store.redis), store.redis, store.Calm(), store.cfg.slotLimit, req, outside, out, t, u)
    ensures store.ledger.emitted
            == old(store.ledger).emitted + (if out.Answered? then Events(req, outside.response) else [])
    ensures CountedIn(store.incremented, req, out)
  {
    if req.capped && !req.testMode {
      out, t, u := RunCapped(store, req, outside);
    } else {
      ghost var m := store.redis;
      t, u := 0.0, 0.0;
      out := Work(store, req, outside);
      UncappedDone(m, store.redis, store.Calm(), store.cfg.slotLimit, req, outside, out, t, u);
    }
  }

  lemma UncappedDone(m: Plain, after: Plain, calm: bool, limit: int, req: Request, outside: Outside, out: Outcome,
                     t: real, u: real)
    requires outside.response.Responded? && !(req.capped && !req.testMode)
    requires req.byok && !req.testMode ==> outside.revealOk
    requires WorkDone(m, after, calm, req, outside, out)
    ensures RunDone(m, after, calm, limit, req, outside, out, t, u)
  {
  }

  /** With both slots in hand, or without a slot and busy. */
  method RunCapped(store: V1Store, req: Request, outside: Outside) returns (out: Outcome, ghost t: real, ghost u: real)
    requires store.Valid() && Fits(store.cfg, store.proc) && store.proc.req == req
    requires store.proc.pc.KeyIncr? && outside.response.Responded? && req.capped && !req.testMode
    requires req.byok ==> outside.revealOk
    modifies store, store.outbox, store.stream
    ensures store.Valid() && Fits(store.cfg, store.proc) && store.proc.req == req && store.Later()
    ensures store.proc.pc == Done(out)
    ensures RunDone(old(store.redis), store.redis, store.Calm(), store.cfg.slotLimit, req, outside, out, t, u)
    ensures store.ledger.emitted
            == old(store.ledger).emitted + (if out.Answered? then Events(req, outside.response) else [])
    ensures CountedIn(store.incremented, req, out)
  {
    ghost var m := store.redis;
    var granted;
    granted, t, u := store.AcquireConcurrencySlots(req.org, req.subject);
    ghost var held := store.redis;
    if !granted {
      out := Busy;
      Settle(store, req, 429, "", out, []);
      BusyDone(m, held, store.redis, store.Calm(), store.cfg.slotLimit, req, outside, t, u);
    } else {
      ghost var worked;
      out, worked := WorkAndRelease(store, req, outside);
      CappedDone(m, held, worked, store.redis, store.Calm(), store.cfg.slotLimit, req, outside, out, t, u);
    }
  }

  /** The `try` block with both slots in hand, and the `finally` that gives them back. */
  method WorkAndRelease(store: V1Store, req: Request, outside: Outside) returns (out: Outcome, ghost worked: Plain)
    requires store.Valid() && Fits(store.cfg, store.proc) && store.proc.req == req
    requires store.proc.pc.QuotaGet? && outside.response.Responded? && req.capped && !req.testMode
    modifies store, store.outbox, store.stream
    ensures store.Valid() && Fits(store.cfg, store.proc) && store.proc.req == req && store.Later()
    ensures store.proc.pc == Done(out) && Reserved(outside.response, out)
    ensures WorkDone(old(store.redis), worked, store.Calm(), req, outside, out)
    ensures store.Calm() ==> SlotsOnly(worked, store.redis)
    ensures store.ledger.emitted
            == old(store.ledger).emitted + (if out.Answered? then Events(req, outside.response) else [])
  {
    out := Work(store, req, outside);
    worked := store.redis;
    store.ReleaseConcurrencySlots(req.org, req.subject);
  }

  lemma BusyDone(m: Plain, held: Plain, after: Plain, calm: bool, limit: int, req: Request, outside: Outside,
                 t: real, u: real)
    requires outside.response.Responded? && req.capped && !req.testMode && (req.byok ==> outside.revealOk)
    requires calm ==> SlotsOnly(m, held) && IdemOnly(held, after) && RecordAfter(after, req, Busy)
    requires calm && Tidy(m, req) ==> Full(m, limit, req, t, u)
    ensures RunDone(m, after, calm, limit, req, outside, Busy, t, u)
  {
  }

  lemma CappedDone(m: Plain, held: Plain, worked: Plain, after: Plain, calm: bool, limit: int, req: Request,
                   outside: Outside, out: Outcome, t: real, u: real)
    requires outside.response.Responded? && req.capped && !req.testMode && (req.byok ==> outside.revealOk)
    requires calm ==> SlotsOnly(m, held) && SlotsOnly(worked, after)
    requires calm && Tidy(m, req) ==> !Full(m, limit, req, t, u)
    requires WorkDone(held, worked, calm, req, outside, out)
    ensures RunDone(m, after, calm, limit, req, outside, out, t, u)
  {
    assert Executes(out) && Caused(req, outside, out);
    if calm {
      SameRecord(worked, after, req, out);
      SameUnits(m, held, req);
      SameUnits(worked, after, req);
    }
  }

  lemma SameRecord(m: Plain, after: Plain, req: Request, out: Outcome)
    requires SlotsOnly(m, after) && RecordAfter(m, req, out)
    ensures RecordAfter(after, req, out)
  {
  }

  lemma SameUnits(m: Plain, after: Plain, req: Request)
    requires SlotsOnly(m, after)
    ensures Units(after, req.org, req.resource) == Units(m, req.org, req.resource)
    ensures QuotaTidy(after, req.org, req.resource) <==> QuotaTidy(m, req.org, req.resource)
  {
  }
}
