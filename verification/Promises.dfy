/** The guarantees in terms of what requests carry and what they are told: which of them are
    run, capped, charged, billed and replayed, in every run. */
module Promises {
  import opened Store
  import opened Lifecycle
  import opened System
  import opened Outcomes
  import opened Guarantees
  import Slots
  import Q = Quota
  import Idempotency
  import EventIds
  import Amounts

  // ---------------------------------------------------------------- whose keys

  /** Records tell callers and keys apart, counters tell subjects and organizations apart, and a
      quota is an organization's for one resource. */
  lemma KeysExact(a: Request, b: Request)
    ensures a.idem.Some? && b.idem.Some? ==> (IdemOf(a) == IdemOf(b) <==> a.subject == b.subject && a.idem == b.idem)
    ensures KeySlot(a) == KeySlot(b) <==> a.subject == b.subject
    ensures OrgSlot(a) == OrgSlot(b) <==> a.org == b.org
    ensures KeySlot(a) == OrgSlot(b) <==> a.subject == "org:" + b.org
    ensures Lifecycle.Quota(a) == Lifecycle.Quota(b) <==> a.org == b.org && a.resource == b.resource
  {
    assert ("org:" + a.org)[4..] == a.org && ("org:" + b.org)[4..] == b.org;
  }

  // ---------------------------------------------------------------- why requests end as they do

  /** Every request that has ended did so for a reason to be found in its own fields and in what
      it was told; in particular it was rejected exactly when its checks said so or it has no
      organization. */
  lemma OutcomeExact(cfg: Config, start: Plain, now: real, run: seq<Action>, s: State, i: nat)
    requires Reached(cfg, start, now, run, s) && i < |s.procs| && s.procs[i].pc.Done?
    ensures var p := s.procs[i];
            && Explains(p.req, p.heard, p.pc.out)
            && (p.pc.out.Rejected? <==> p.req.org == "" || p.heard == [Gated(false)])
            && (p.pc.out.RevealFailed? <==> p.req.org != "" && p.heard == [Gated(true), Revealed(false)])
  {
    InvReached(cfg, start, now, run, s);
    assert Explained(s.procs[i]);
    CauseExact(s.procs[i].req, s.procs[i].heard, s.procs[i].pc.out);
  }

  lemma CauseExact(req: Request, heard: seq<Input>, out: Outcome)
    requires Explains(req, heard, out)
    ensures out.Rejected? <==> req.org == "" || heard == [Gated(false)]
    ensures out.RevealFailed? <==> req.org != "" && heard == [Gated(true), Revealed(false)]
  {
    var cleared := Cleared(req);
    assert cleared[0] == Gated(true) && (|cleared| > 1 ==> cleared[1] == Revealed(true));
    if out.UpstreamFailed? || out.Answered? {
      assert heard[0] == heard[..|cleared|][0] && (|cleared| > 1 ==> heard[1] == heard[..|cleared|][1]);
    }
  }

  /** A request that does not pass its checks ends at once: it issues no command, takes no slot
      and no unit, makes no claim and emits nothing. */
  lemma ChecksBind(cfg: Config, start: Plain, now: real, run: seq<Action>, s: State, i: nat)
    requires Reached(cfg, start, now, run, s) && Enabled(cfg, s, Receive(i, Gated(false)))
    ensures var t := Next(cfg, s, Receive(i, Gated(false)));
            && t.procs[i] == Proc(s.procs[i].req, Done(Rejected), Vacant, Vacant, Untouched, Unclaimed, [Gated(false)])
            && t.store == s.store && t.usage == s.usage && Ask(cfg, t.procs[i]).None?
  {
    InvReached(cfg, start, now, run, s);
    assert Fits(cfg, s.procs[i]) && Explained(s.procs[i]);
    var t := Next(cfg, s, Receive(i, Gated(false)));
    NextExplained(cfg, s, Receive(i, Gated(false)));
    assert Explained(t.procs[i]) && [] + [Gated(false)] == [Gated(false)];
  }

  /** The upstream responded to the call with this status. */
  predicate Responded(p: Proc, status: int) {
    exists k :: 0 <= k < |p.heard| && p.heard[k].Responded? && p.heard[k].status == status
  }

  /** A response with a status outside 200 to 299: the call is not answered, keeps no result,
      is not billed, and in the end has given its unit back. */
  lemma FailureIsFree(cfg: Config, start: Plain, now: real, run: seq<Action>, s: State, i: nat, status: int)
    requires Reached(cfg, start, now, run, s) && i < |s.procs| && Responded(s.procs[i], status)
    requires !(200 <= status < 300)
    ensures var p := s.procs[i];
            && !p.claim.Kept? && !HasBilled(p)
            && (p.pc.Done? ==> p.pc.out == UpstreamFailed(status) && p.unit.Returned?)
  {
    InvReached(cfg, start, now, run, s);
    var p := s.procs[i];
    assert Fits(cfg, p) && Explained(p);
    HeardOnce(p, status);
  }

  /** A response with a status from 200 to 299: in the end the call is answered with it, has
      used its unit and is billed, and its result is kept unless that command failed. */
  lemma SuccessIsCharged(cfg: Config, start: Plain, now: real, run: seq<Action>, s: State, i: nat, status: int)
    requires Reached(cfg, start, now, run, s) && i < |s.procs| && s.procs[i].pc.Done? && Responded(s.procs[i], status)
    requires 200 <= status < 300
    ensures var p := s.procs[i];
            && p.pc.out.Answered? && p.pc.out.status == status && p.unit.Reserved? && HasBilled(p)
            && (p.req.idem.Some? && !p.claim.Lost? ==>
                  p.claim.Kept? && p.claim.status == status && p.claim.body == p.pc.out.body)
  {
    InvReached(cfg, start, now, run, s);
    var p := s.procs[i];
    assert Fits(cfg, p) && Explained(p);
    HeardOnce(p, status);
  }

  /** A request hears at most one response, and last. */
  lemma HeardOnce(p: Proc, status: int)
    requires Explained(p) && Responded(p, status)
    ensures Answering(p.req, p.heard, status)
    ensures match p.pc
            case RefundGet(out) => out == UpstreamFailed(status)
            case RefundIncr(out) => out == UpstreamFailed(status)
            case Settle(out, _) => Gives(out, status)
            case Emit(out, _) => Gives(out, status)
            case FreeKey(out) => Gives(out, status)
            case FreeOrg(out) => Gives(out, status)
            case Done(out) => Gives(out, status)
            case _ => false
  {
    var k :| 0 <= k < |p.heard| && p.heard[k].Responded? && p.heard[k].status == status;
    var cleared := Cleared(p.req);
    assert forall c :: 0 <= c < |cleared| ==> !cleared[c].Responded?;
    assert forall c :: 0 <= c < |p.heard| && c < |cleared| ==> p.heard[c] == p.heard[..c + 1][c];
  }

  predicate Gives(out: Outcome, status: int) {
    (out.UpstreamFailed? && out.status == status) || (out.Answered? && out.status == status)
  }

  // ---------------------------------------------------------------- counting requests

  function Count(f: Proc -> bool, ps: seq<Proc>): nat {
    if ps == [] then 0 else Count(f, ps[..|ps| - 1]) + if f(ps[|ps| - 1]) then 1 else 0
  }

  lemma {:induction false} CountAtMost(f: Proc -> bool, m: Meter, ps: seq<Proc>)
    requires forall p :: p in ps && f(p) ==> Weight(m, p) >= 1
    ensures Count(f, ps) <= Total(m, ps)
  {
    if ps != [] {
      assert ps[|ps| - 1] in ps && forall p :: p in ps[..|ps| - 1] ==> p in ps;
      CountAtMost(f, m, ps[..|ps| - 1]);
    }
  }

  lemma {:induction false} CountExact(f: Proc -> bool, m: Meter, ps: seq<Proc>)
    requires forall p :: p in ps ==> Weight(m, p) == if f(p) then 1 else 0
    ensures Count(f, ps) == Total(m, ps)
  {
    if ps != [] {
      assert ps[|ps| - 1] in ps && forall p :: p in ps[..|ps| - 1] ==> p in ps;
      CountExact(f, m, ps[..|ps| - 1]);
    }
  }

  // ---------------------------------------------------------------- the concurrency cap

  /** The call is between the acquisition of its slots and their release. */
  predicate InFlight(p: Proc) {
    match p.pc
    case QuotaGet => true
    case QuotaDecr => true
    case QuotaUndo => true
    case Upstream => true
    case RefundGet(_) => true
    case RefundIncr(_) => true
    case Settle(out, _) => out.OverQuota? || out.UpstreamFailed? || out.Answered?
    case Emit(_, _) => true
    case FreeKey(_) => true
    case _ => false
  }

  /** A capped call outside test mode that is under way holds a slot of its key and one of its
      organization; a call that is not capped, or in test mode, holds none. */
  lemma CappedHold(cfg: Config, start: Plain, now: real, run: seq<Action>, s: State, i: nat)
    requires Reached(cfg, start, now, run, s) && i < |s.procs| && InFlight(s.procs[i])
    ensures var p := s.procs[i];
            if p.req.capped && !p.req.testMode then p.keySlot.Granted? && p.orgSlot.Granted?
            else p.keySlot.Vacant? && p.orgSlot.Vacant?
  {
    InvReached(cfg, start, now, run, s);
    assert Explained(s.procs[i]);
  }

  function CappedBy(subject: string): Proc -> bool {
    (p: Proc) => p.req.capped && !p.req.testMode && p.req.subject == subject && InFlight(p)
  }

  function CappedFor(org: string): Proc -> bool {
    (p: Proc) => p.req.capped && !p.req.testMode && p.req.org == org && InFlight(p)
  }

  /** So at most the limit of a key's capped calls are under way at any moment, and as many of an
      organization's, and one more for each command that failed on the counter. */
  lemma CapHolds(cfg: Config, start: Plain, now: real, run: seq<Action>, s: State, subject: string, org: string)
    requires Reached(cfg, start, now, run, s)
    ensures var limit := if cfg.slotLimit > 0 then cfg.slotLimit else 0;
            && Count(CappedBy(subject), s.procs) <= limit + FaultsOn(s, SlotKey(subject))
            && Count(CappedFor(org), s.procs) <= limit + FaultsOn(s, SlotKey("org:" + org))
  {
    Balanced(cfg, start, now, run, s, SlotKey(subject));
    Balanced(cfg, start, now, run, s, SlotKey("org:" + org));
    CapOfKey(cfg, s, subject);
    CapOfOrg(cfg, s, org);
  }

  lemma Balanced(cfg: Config, start: Plain, now: real, run: seq<Action>, s: State, key: Key)
    requires Reached(cfg, start, now, run, s) && key.SlotKey?
    ensures AllExplained(s) && Slots.SlotInv(cfg, s, key)
  {
    InvReached(cfg, start, now, run, s);
  }

  lemma CapOfKey(cfg: Config, s: State, subject: string)
    requires AllExplained(s) && Slots.SlotInv(cfg, s, SlotKey(subject))
    ensures Count(CappedBy(subject), s.procs)
            <= (if cfg.slotLimit > 0 then cfg.slotLimit else 0) + FaultsOn(s, SlotKey(subject))
  {
    CappedWeigh(s, subject, "");
    CapAt(cfg, s, CappedBy(subject), SlotKey(subject));
  }

  lemma CapOfOrg(cfg: Config, s: State, org: string)
    requires AllExplained(s) && Slots.SlotInv(cfg, s, SlotKey("org:" + org))
    ensures Count(CappedFor(org), s.procs)
            <= (if cfg.slotLimit > 0 then cfg.slotLimit else 0) + FaultsOn(s, SlotKey("org:" + org))
  {
    CappedWeigh(s, "", org);
    CapAt(cfg, s, CappedFor(org), SlotKey("org:" + org));
  }

  lemma CapAt(cfg: Config, s: State, f: Proc -> bool, key: Key)
    requires Slots.SlotInv(cfg, s, key)
    requires forall p :: p in s.procs && f(p) ==> Weight(SlotsGranted(key), p) >= 1
    ensures Count(f, s.procs) <= (if cfg.slotLimit > 0 then cfg.slotLimit else 0) + FaultsOn(s, key)
  {
    CountAtMost(f, SlotsGranted(key), s.procs);
  }

  lemma CappedWeigh(s: State, subject: string, org: string)
    requires AllExplained(s)
    ensures forall p :: p in s.procs && CappedBy(subject)(p) ==> Weight(SlotsGranted(SlotKey(subject)), p) >= 1
    ensures forall p :: p in s.procs && CappedFor(org)(p) ==> Weight(SlotsGranted(SlotKey("org:" + org)), p) >= 1
  {
    forall p | p in s.procs && InFlight(p) && p.req.capped && !p.req.testMode
      ensures p.keySlot.Granted? && p.orgSlot.Granted?
    {
      var i :| 0 <= i < |s.procs| && s.procs[i] == p;
      assert Explained(s.procs[i]);
    }
  }

  // ---------------------------------------------------------------- quota and bills

  /** The call is one that the organization is charged for: the upstream's response, the last
      thing it heard, has a status from 200 to 299. */
  function ChargedTo(org: string, resource: Resource): Proc -> bool {
    (p: Proc) =>
      && p.req.org == org && p.req.resource == resource
      && p.heard != [] && p.heard[|p.heard| - 1].Responded? && 200 <= p.heard[|p.heard| - 1].status < 300
  }

  /** Once every request has ended, the quota of an organization for a resource has dropped by
      the number of its calls that the upstream answered with a 2xx, exactly. */
  lemma QuotaCharged(cfg: Config, start: Plain, now: real, run: seq<Action>, s: State, org: string, resource: Resource)
    requires Reached(cfg, start, now, run, s) && Quiescent(s)
    requires QuotaKey(org, resource) in start && FaultsOn(s, QuotaKey(org, resource)) == 0
    ensures var key := QuotaKey(org, resource);
            && key in s.store && s.store[key].value.Num? && start[key].value.Num?
            && s.store[key].value.n == start[key].value.n - Count(ChargedTo(org, resource), s.procs)
  {
    QuotaMatchesBilling(cfg, start, now, run, s, QuotaKey(org, resource));
    InvReached(cfg, start, now, run, s);
    ChargedWeigh(s, org, resource);
    CountExact(ChargedTo(org, resource), Meter.Answers(QuotaKey(org, resource)), s.procs);
  }

  lemma ChargedWeigh(s: State, org: string, resource: Resource)
    requires AllExplained(s) && Quiescent(s)
    ensures forall p :: p in s.procs ==>
      Weight(Meter.Answers(QuotaKey(org, resource)), p) == if ChargedTo(org, resource)(p) then 1 else 0
  {
    forall p | p in s.procs
      ensures Weight(Meter.Answers(QuotaKey(org, resource)), p) == if ChargedTo(org, resource)(p) then 1 else 0
    {
      var i :| 0 <= i < |s.procs| && s.procs[i] == p;
      assert Explained(s.procs[i]);
      AnswersExact(p);
    }
  }

  /** An ended call is answered exactly if the last thing it heard is a response from 200 to 299. */
  lemma AnswersExact(p: Proc)
    requires Explained(p) && p.pc.Done?
    ensures p.pc.out.Answered?
            <==> p.heard != [] && p.heard[|p.heard| - 1].Responded? && 200 <= p.heard[|p.heard| - 1].status < 300
  {
  }

  /** Once every request has ended, what has been emitted for an organization is one unit of the
      resource for each such call, and exactly the input and output tokens that the upstream
      reported for them. */
  lemma AmountsReported(cfg: Config, start: Plain, now: real, run: seq<Action>, s: State, org: string,
        resource: Resource)
    requires Reached(cfg, start, now, run, s) && Quiescent(s)
    ensures Amounts.Amount(s.usage.emitted, org, resource) == EventIds.Sum(Amounts.DueOf(org, resource), s.procs)
  {
    InvReached(cfg, start, now, run, s);
    assert Amounts.AmountInv(s, org, resource);
    forall p | p in s.procs ensures Amounts.Unsent(p) == [] {
      var i :| 0 <= i < |s.procs| && s.procs[i] == p;
    }
    Amounts.NothingUnsent(s.procs, org, resource);
  }

  // ---------------------------------------------------------------- replays

  /** The request itself was given this status and body: by the upstream, or in test mode. */
  predicate Given(p: Proc, status: int, body: string) {
    if p.req.testMode then status == 200 && body == p.req.testBody
    else && 200 <= status < 300 && p.heard != [] && p.heard[|p.heard| - 1].Responded?
         && p.heard[|p.heard| - 1].status == status && p.heard[|p.heard| - 1].body == body
  }

  /** Every replay is of what the same caller was given for the same key and the same body, and
      never of a failure. */
  lemma ReplayIsOwn(cfg: Config, start: Plain, now: real, run: seq<Action>, s: State, i: nat)
    requires Reached(cfg, start, now, run, s) && i < |s.procs| && s.procs[i].pc.Done? && s.procs[i].pc.out.Replayed?
    requires FaultsOn(s, IdemOf(s.procs[i].req)) == 0
    ensures exists j :: 0 <= j < |s.procs| && SameAsk(s.procs[i].req, s.procs[j].req)
                        && Given(s.procs[j], s.procs[i].pc.out.status, s.procs[i].pc.out.body)
  {
    InvReached(cfg, start, now, run, s);
    assert Explained(s.procs[i]);
    ReplayIsExecution(cfg, start, now, run, s, IdemOf(s.procs[i].req), i);
    var j :| 0 <= j < |s.procs| && Executed(s.procs[j], IdemOf(s.procs[i].req))
             && s.procs[j].req.subject == s.procs[i].req.subject && s.procs[j].req.idem == s.procs[i].req.idem
             && s.procs[j].req.fingerprint == s.procs[i].req.fingerprint
             && s.procs[j].claim.status == s.procs[i].pc.out.status && s.procs[j].claim.body == s.procs[i].pc.out.body;
    assert Fits(cfg, s.procs[j]) && Explained(s.procs[j]);
    KeptGiven(cfg, s.procs[j]);
  }

  predicate SameAsk(a: Request, b: Request) {
    a.subject == b.subject && a.idem == b.idem && a.fingerprint == b.fingerprint
  }

  lemma KeptGiven(cfg: Config, p: Proc)
    requires Fits(cfg, p) && Explained(p) && p.claim.Kept?
    ensures Given(p, p.claim.status, p.claim.body)
  {
  }
}
