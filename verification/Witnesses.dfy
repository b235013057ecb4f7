/** Runs in which a documented promise does not hold: a quota counter below zero, and calls
    answered more often than billed. */
module Witnesses {
  import opened Store
  import opened Lifecycle
  import opened System
  import opened Guarantees
  import Usage

  // ---------------------------------------------------------------- building runs

  lemma {:induction false} RunAppend(cfg: Config, s: State, run: seq<Action>, a: Action)
    requires Legal(cfg, s, run) && Enabled(cfg, Run(cfg, s, run), a)
    ensures Legal(cfg, s, run + [a]) && Run(cfg, s, run + [a]) == Next(cfg, Run(cfg, s, run), a)
    decreases |run|
  {
    if run == [] {
      assert run + [a] == [a] && [a][1..] == [];
      assert Legal(cfg, Next(cfg, s, a), [a][1..]);
      assert Run(cfg, s, [a]) == Run(cfg, Next(cfg, s, a), [a][1..]);
    } else {
      RunAppend(cfg, Next(cfg, s, run[0]), run[1..], a);
      assert (run + [a])[1..] == run[1..] + [a] && (run + [a])[0] == run[0];
    }
  }

  /** One more action of a run. */
  lemma Then(cfg: Config, start: Plain, now: real, run: seq<Action>, s: State, a: Action)
        returns (longer: seq<Action>, t: State)
    requires Reached(cfg, start, now, run, s) && Enabled(cfg, s, a)
    ensures Reached(cfg, start, now, longer, t) && t == Next(cfg, s, a)
  {
    RunAppend(cfg, Init(start, now), run, a);
    longer, t := run + [a], Next(cfg, s, a);
  }

  /** The request has passed its checks. */
  function Admitted(req: Request): Proc {
    Spawn(req).(heard := [Gated(true)])
  }

  lemma HearGate(req: Request)
    requires req.org != ""
    ensures Hear(Spawn(req), Gated(true)) == Admitted(req).(pc := if req.idem.Some? then ClaimSet else AfterClaim(req))
  {
    assert [] + [Gated(true)] == [Gated(true)];
  }

  // ---------------------------------------------------------------- the counter below zero

  const HOLDER := Request("user:1", "acme", LiteratureSearch, None, 0, false, false, false, "trace", "")
  const HOLDERS_QUOTA := QuotaKey("acme", LiteratureSearch)

  const NO_UNITS: Plain := map[HOLDERS_QUOTA := Item(Num(0), None)]

  lemma AtTheCounter(cfg: Config) returns (run: seq<Action>, s: State)
    ensures Reached(cfg, NO_UNITS, 0.0, run, s)
    ensures s.procs == [Admitted(HOLDER).(pc := QuotaGet)] && s.store == NO_UNITS && s.faults == map[]
  {
    run, s := [], Init(NO_UNITS, 0.0);
    run, s := Then(cfg, NO_UNITS, 0.0, run, s, Arrive(HOLDER));
    HearGate(HOLDER);
    run, s := Then(cfg, NO_UNITS, 0.0, run, s, Receive(0, Gated(true)));
  }

  /** A request that has decremented an empty counter and not yet compensated. */
  lemma CounterBelowZero(cfg: Config) returns (run: seq<Action>, s: State)
    ensures Reached(cfg, NO_UNITS, 0.0, run, s)
    ensures FaultsOn(s, HOLDERS_QUOTA) == 0 && HOLDERS_QUOTA in s.store && s.store[HOLDERS_QUOTA].value == Num(-1)
  {
    run, s := AtTheCounter(cfg);
    run, s := Then(cfg, NO_UNITS, 0.0, run, s, Issue(0, NoFault));
    assert s.procs == [Admitted(HOLDER).(pc := QuotaDecr)] && s.store == NO_UNITS;
    run, s := Then(cfg, NO_UNITS, 0.0, run, s, Issue(0, NoFault));
  }

  // ---------------------------------------------------------------- answered often, billed once

  /** A call that needs no key reveal and no concurrency slot. */
  predicate Simple(req: Request) {
    Billable(req.resource) && req.org != "" && !req.testMode && !req.byok && !req.capped
  }

  const REPLY := Responded(200, "", None, None)

  function Bill(req: Request): Usage.Event {
    Usage.Event(DedupKey(req), req.org, req.resource, 1)
  }

  /** The request once it has been answered and billed at `now`. */
  function Ended(req: Request, now: real): Proc {
    Proc(req, Done(Answered(200, "")), Vacant, Vacant, Reserved(false),
         if req.idem.Some? then Kept(now, now, 200, "") else Unclaimed, [Gated(true), REPLY])
  }

  function StoreAfter(cfg: Config, store: Plain, req: Request, now: real): Plain {
    if req.idem.None? then store
    else store[IdemOf(req) := Item(Finished(req.fingerprint, 200, ""), Deadline(Some(cfg.recordTtl), now))]
  }

  ghost predicate Ready(s: State, req: Request) {
    Simple(req) && Lifecycle.Quota(req) !in s.store && (req.idem.Some? ==> !Live(s.store, IdemOf(req), s.now))
  }

  /** Arrival, checks, and, with an Idempotency-Key, the claim. */
  lemma Opens(cfg: Config, now: real, run: seq<Action>, s: State, req: Request) returns (longer: seq<Action>, t: State)
    requires Reached(cfg, map[], now, run, s) && Ready(s, req)
    ensures Reached(cfg, map[], now, longer, t)
    ensures t.now == s.now && t.faults == s.faults && t.usage == s.usage && Lifecycle.Quota(req) !in t.store
    ensures t.procs == s.procs
            + [Admitted(req).(pc := QuotaGet, claim := if req.idem.Some? then Owner(s.now) else Unclaimed)]
    ensures req.idem.None? ==> t.store == s.store
    ensures req.idem.Some? ==> t.store == s.store[IdemOf(req) := Item(Running(req.fingerprint), Some(s.now + 120.0))]
  {
    var i := |s.procs|;
    longer, t := Then(cfg, map[], now, run, s, Arrive(req));
    HearGate(req);
    longer, t := Then(cfg, map[], now, longer, t, Receive(i, Gated(true)));
    if req.idem.Some? {
      assert t.procs[i] == Admitted(req).(pc := ClaimSet) && t.store == s.store;
      longer, t := Then(cfg, map[], now, longer, t, Issue(i, NoFault));
    }
  }

  /** The reservation without a quota key, and the answer of the upstream. */
  lemma GoesOn(cfg: Config, now: real, run: seq<Action>, s: State, ps: seq<Proc>, p: Proc)
        returns (longer: seq<Action>, t: State)
    requires Reached(cfg, map[], now, run, s) && s.procs == ps + [p]
    requires p.pc.QuotaGet? && Lifecycle.Quota(p.req) !in s.store
    ensures Reached(cfg, map[], now, longer, t)
    ensures var q := p.(unit := Reserved(false), heard := p.heard + [REPLY],
                        pc := ToSettle(p.req, Outcome.Answered(200, ""), [Bill(p.req)]));
            t == s.(procs := ps + [q])
  {
    var i := |ps|;
    longer, t := Then(cfg, map[], now, run, s, Issue(i, NoFault));
    assert t.procs == ps + [p.(unit := Reserved(false), pc := Upstream)] && t.store == s.store;
    assert Events(p.req, REPLY) == [Bill(p.req)];
    longer, t := Then(cfg, map[], now, longer, t, Receive(i, REPLY));
  }

  /** The settlement of the claim, if there is one, and the bill. */
  lemma Closes(cfg: Config, now: real, run: seq<Action>, s: State, ps: seq<Proc>, p: Proc)
        returns (longer: seq<Action>, t: State)
    requires Reached(cfg, map[], now, run, s) && s.procs == ps + [p] && Simple(p.req)
    requires p.pc == ToSettle(p.req, Outcome.Answered(200, ""), [Bill(p.req)])
    requires p == Proc(p.req, p.pc, Vacant, Vacant, Reserved(false),
                       if p.req.idem.Some? then Owner(s.now) else Unclaimed, [Gated(true), REPLY])
    ensures Reached(cfg, map[], now, longer, t)
    ensures t == s.(procs := ps + [Ended(p.req, s.now)], store := StoreAfter(cfg, s.store, p.req, s.now),
                    usage := Usage.Next(s.usage, Usage.Emit(Bill(p.req), Usage.Accepted)))
  {
    var i := |ps|;
    longer, t := run, s;
    if p.req.idem.Some? {
      longer, t := Then(cfg, map[], now, longer, t, Issue(i, NoFault));
    }
    var q := Ended(p.req, s.now).(pc := Emit(Outcome.Answered(200, ""), [Bill(p.req)]));
    assert t == s.(procs := ps + [q], store := StoreAfter(cfg, s.store, p.req, s.now));
    assert [Bill(p.req)][1..] == [];
    longer, t := Then(cfg, map[], now, longer, t, Send(i, Usage.Accepted));
  }

  /** One call from arrival to bill. */
  lemma OneCall(cfg: Config, now: real, run: seq<Action>, s: State, req: Request)
        returns (longer: seq<Action>, t: State)
    requires Reached(cfg, map[], now, run, s) && Ready(s, req)
    ensures Reached(cfg, map[], now, longer, t)
    ensures t.now == s.now && t.faults == s.faults && Lifecycle.Quota(req) !in t.store
    ensures t.procs == s.procs + [Ended(req, s.now)]
    ensures t.usage == Usage.Next(s.usage, Usage.Emit(Bill(req), Usage.Accepted))
    ensures req.idem.Some? ==>
      IdemOf(req) in t.store
      && t.store[IdemOf(req)] == Item(Finished(req.fingerprint, 200, ""), Deadline(Some(cfg.recordTtl), s.now))
  {
    longer, t := Opens(cfg, now, run, s, req);
    longer, t := GoesOn(cfg, now, longer, t, s.procs, t.procs[|s.procs|]);
    longer, t := Closes(cfg, now, longer, t, s.procs, t.procs[|s.procs|]);
  }

  function Copies(e: Usage.Event, n: nat): seq<Usage.Event> {
    if n == 0 then [] else Copies(e, n - 1) + [e]
  }

  ghost predicate AllEnded(s: State, n: nat) {
    |s.procs| == n && forall p :: p in s.procs ==>
      GotAnswer(p) && p.keySlot.Vacant? && p.orgSlot.Vacant? && !p.claim.Owner?
  }

  /** The same request `n` times, a `gap` apart. */
  lemma {:induction false} Repeats(cfg: Config, req: Request, n: nat, gap: real) returns (run: seq<Action>, s: State)
    requires Simple(req) && gap >= 0.0 && (req.idem.Some? ==> cfg.recordTtl > 0 && gap >= cfg.recordTtl as real)
    ensures Reached(cfg, map[], 0.0, run, s) && AllEnded(s, n) && Ready(s, req)
    ensures forall p :: p in s.procs ==> p.req == req
    ensures s.usage == Usage.Ledger(Copies(Bill(req), n), [], false, Copies(Bill(req), n), 0)
    decreases n
  {
    if n == 0 {
      run, s := [], Init(map[], 0.0);
    } else {
      var before, t := Repeats(cfg, req, n - 1, gap);
      run, s := OneCall(cfg, 0.0, before, t, req);
      run, s := Then(cfg, map[], 0.0, run, s, Pass(s.now + gap));
    }
  }

  lemma {:induction false} CopiesSeen(e: Usage.Event, n: nat)
    requires e.quantity == 1
    ensures Usage.Total(Copies(e, n), {}) == n
    ensures forall d :: d in Copies(e, n) ==> d == e
    ensures n > 0 ==> e in Copies(e, n)
  {
    if n > 0 {
      CopiesSeen(e, n - 1);
      TotalAppend(Copies(e, n - 1), e);
    }
  }

  lemma {:induction false} TotalAppend(events: seq<Usage.Event>, e: Usage.Event)
    ensures Usage.Total(events + [e], {}) == Usage.Total(events, {}) + e.quantity
  {
    if events == [] {
      assert ([] + [e])[1..] == [];
    } else {
      TotalAppend(events[1..], e);
      assert (events + [e])[1..] == events[1..] + [e];
    }
  }

  /** A stream of one event over and over is billed once. */
  lemma {:induction false} BilledOnce(stream: seq<Usage.Event>, seen: set<string>, e: Usage.Event)
    requires forall d :: d in stream ==> d == e
    ensures Usage.Billed(stream, seen) == if stream == [] || e.id in seen then 0 else e.quantity
    decreases |stream|
  {
    if stream != [] {
      var head, rest := stream[0], stream[1..];
      assert head in stream && forall d :: d in rest ==> d in stream;
      BilledOnce(stream[1..], seen, e);
      BilledOnce(stream[1..], seen + {e.id}, e);
    }
  }

  /** However often it happens, a caller that sends one trace id with every call, or one
      Idempotency-Key again after each record has run out, is answered every time and billed
      once: `n` answers by the upstream, `n` events emitted, one unit billed. */
  lemma RepeatsBilledOnce(cfg: Config, req: Request, n: nat, gap: real) returns (run: seq<Action>, s: State)
    requires Simple(req) && gap >= 0.0 && (req.idem.Some? ==> cfg.recordTtl > 0 && gap >= cfg.recordTtl as real)
    ensures Reached(cfg, map[], 0.0, run, s) && AllEnded(s, n) && s.usage.outbox == []
    ensures forall p :: p in s.procs ==> p.req == req
    ensures Usage.Total(s.usage.emitted, {}) == n
    ensures Usage.Billed(s.usage.stream, {}) == if n == 0 then 0 else 1
  {
    run, s := Repeats(cfg, req, n, gap);
    CopiesSeen(Bill(req), n);
    BilledOnce(Copies(Bill(req), n), {}, Bill(req));
  }

  // ---------------------------------------------------------------- one key at two endpoints

  /** The record of an Idempotency-Key does not say which endpoint it belongs to: a search that
      carries the key and the body of an answered question is given that question's answer. */
  lemma OtherEndpointReplayed(cfg: Config, req: Request) returns (run: seq<Action>, s: State)
    requires Simple(req) && req.resource.LiteratureAnswer? && req.idem.Some? && cfg.recordTtl >= 0
    ensures Reached(cfg, map[], 0.0, run, s) && FaultsOn(s, IdemOf(req)) == 0
    ensures |s.procs| == 2 && s.procs[0] == Ended(req, 0.0)
    ensures s.procs[1].req == req.(resource := LiteratureSearch) && s.procs[1].pc == Done(Replayed(200, ""))
  {
    run, s := [], Init(map[], 0.0);
    run, s := OneCall(cfg, 0.0, run, s, req);
    run, s := Duplicate(cfg, run, s, req.(resource := LiteratureSearch), 200, "");
  }

  /** A request that finds a finished record with its own fingerprint. */
  lemma Duplicate(cfg: Config, run: seq<Action>, s: State, req: Request, status: int, body: string)
      returns (longer: seq<Action>, t: State)
    requires Reached(cfg, map[], 0.0, run, s) && Simple(req) && req.idem.Some?
    requires Live(s.store, IdemOf(req), s.now) && s.store[IdemOf(req)].value == Finished(req.fingerprint, status, body)
    ensures Reached(cfg, map[], 0.0, longer, t) && t.faults == s.faults
    ensures t.procs == s.procs + [Admitted(req).(pc := Done(Replayed(status, body)))]
  {
    var i := |s.procs|;
    longer, t := Then(cfg, map[], 0.0, run, s, Arrive(req));
    HearGate(req);
    longer, t := Then(cfg, map[], 0.0, longer, t, Receive(i, Gated(true)));
    assert t == s.(procs := s.procs + [Admitted(req).(pc := ClaimSet)]);
    longer, t := Then(cfg, map[], 0.0, longer, t, Issue(i, NoFault));
    assert t == s.(procs := s.procs + [Admitted(req).(pc := ClaimGet)]);
    longer, t := Then(cfg, map[], 0.0, longer, t, Issue(i, NoFault));
  }
}
