/** Why a request ends as it does, and what it holds on the way, by its own fields and by what
    it was told. */
module Outcomes {
  import opened Store
  import opened Lifecycle
  import opened System

  /** What a request has been told when it gets to its concurrency slots. */
  function Cleared(req: Request): seq<Input> {
    [Gated(true)] + if req.byok && !req.testMode then [Revealed(true)] else []
  }

  /** The upstream's response was the last thing it was told. */
  predicate Answering(req: Request, heard: seq<Input>, status: int) {
    && |heard| == |Cleared(req)| + 1 && heard[..|Cleared(req)|] == Cleared(req)
    && heard[|Cleared(req)|].Responded? && heard[|Cleared(req)|].status == status
  }

  predicate Explains(req: Request, heard: seq<Input>, out: Outcome) {
    match out
    case Rejected => heard == [Gated(false)] || (heard == [Gated(true)] && req.org == "")
    case Replayed(_, _) => heard == [Gated(true)] && req.org != "" && req.idem.Some?
    case Mismatch => heard == [Gated(true)] && req.org != "" && req.idem.Some?
    case InProgress => heard == [Gated(true)] && req.org != "" && req.idem.Some?
    case RevealFailed => heard == [Gated(true), Revealed(false)] && req.org != "" && req.byok && !req.testMode
    case Busy => heard == Cleared(req) && req.org != "" && req.capped && !req.testMode
    case OverQuota => heard == Cleared(req) && req.org != "" && !req.testMode
    case TestAnswered(body) => heard == Cleared(req) && req.org != "" && req.testMode && body == req.testBody
    case UpstreamFailed(status) =>
      Answering(req, heard, status) && req.org != "" && !req.testMode && !(200 <= status < 300)
    case Answered(status, body) =>
      && Answering(req, heard, status) && req.org != "" && !req.testMode && 200 <= status < 300
      && heard[|Cleared(req)|].body == body
  }

  /** Between the acquisition of the slots and their release a capped call outside test mode
      holds both, and no other call holds any. */
  predicate HoldsSlots(p: Proc) {
    if p.req.capped && !p.req.testMode then p.keySlot.Granted? && p.orgSlot.Granted?
    else p.keySlot.Vacant? && p.orgSlot.Vacant?
  }

  /** A kept claim keeps the very answer of the request. */
  predicate KeepsAnswer(claim: Claim, out: Outcome) {
    match claim
    case Kept(_, _, status, body) =>
      (out.Answered? && status == out.status && body == out.body)
      || (out.TestAnswered? && status == 200 && body == out.body)
    case _ => true
  }

  predicate Explained(p: Proc) {
    match p.pc
    case Gate => p.heard == []
    case ClaimSet => p.heard == [Gated(true)] && p.req.org != "" && p.req.idem.Some?
    case ClaimGet => p.heard == [Gated(true)] && p.req.org != "" && p.req.idem.Some?
    case Reveal => p.heard == [Gated(true)] && p.req.org != "" && p.req.byok && !p.req.testMode
    case QuotaGet => AtWork(p)
    case QuotaDecr => AtWork(p)
    case QuotaUndo => AtWork(p)
    case Upstream => AtWork(p)
    case RefundGet(out) => Explains(p.req, p.heard, out) && out.UpstreamFailed? && HoldsSlots(p)
    case RefundIncr(out) => Explains(p.req, p.heard, out) && out.UpstreamFailed? && HoldsSlots(p)
    case Settle(out, _) => Explains(p.req, p.heard, out) && (Working(out) ==> HoldsSlots(p))
    case Emit(out, _) => Explains(p.req, p.heard, out) && out.Answered? && HoldsSlots(p) && KeepsAnswer(p.claim, out)
    case FreeKey(out) => Explains(p.req, p.heard, out) && HoldsSlots(p) && KeepsAnswer(p.claim, out)
    case FreeOrg(out) => Explains(p.req, p.heard, out) && KeepsAnswer(p.claim, out)
    case Done(out) => Explains(p.req, p.heard, out) && KeepsAnswer(p.claim, out)
    case KeyIncr => AtSlotsNow(p)
    case KeyExpire(_) => AtSlotsNow(p)
    case KeyUndo => AtSlotsNow(p)
    case OrgIncr => AtSlotsNow(p)
    case OrgExpire(_) => AtSlotsNow(p)
    case OrgUndo => AtSlotsNow(p)
    case KeyBack => AtSlotsNow(p)
  }

  predicate AtWork(p: Proc) {
    p.heard == Cleared(p.req) && p.req.org != "" && !p.req.testMode && HoldsSlots(p)
  }

  predicate AtSlotsNow(p: Proc) {
    p.heard == Cleared(p.req) && p.req.org != "" && p.req.capped && !p.req.testMode
  }

  /** The outcomes that are reached with the slots in hand. */
  predicate Working(out: Outcome) {
    out.OverQuota? || out.UpstreamFailed? || out.Answered?
  }

  // ---------------------------------------------------------------- every step keeps it

  lemma ResumeAtSlots(cfg: Config, p: Proc, reply: Reply, applied: bool, now: real)
    requires Fits(cfg, p) && Explained(p) && AtSlots(p.pc)
    ensures Explained(Resume(cfg, p, reply, applied, now))
  {
  }

  lemma ResumeAtReservation(cfg: Config, p: Proc, reply: Reply, applied: bool, now: real)
    requires Fits(cfg, p) && Explained(p) && (p.pc.QuotaGet? || p.pc.QuotaDecr? || p.pc.QuotaUndo?)
    ensures Explained(Resume(cfg, p, reply, applied, now))
  {
  }

  lemma ResumeAtRefund(cfg: Config, p: Proc, reply: Reply, applied: bool, now: real)
    requires Fits(cfg, p) && Explained(p) && (p.pc.RefundGet? || p.pc.RefundIncr?)
    ensures Explained(Resume(cfg, p, reply, applied, now))
  {
  }

  lemma ResumeAtSettle(cfg: Config, p: Proc, reply: Reply, applied: bool, now: real)
    requires Fits(cfg, p) && Explained(p) && p.pc.Settle?
    ensures Explained(Resume(cfg, p, reply, applied, now))
  {
  }

  lemma ResumeAtClaim(cfg: Config, p: Proc, reply: Reply, applied: bool, now: real)
    requires Fits(cfg, p) && Explained(p) && (p.pc.ClaimSet? || p.pc.ClaimGet?)
    ensures Explained(Resume(cfg, p, reply, applied, now))
  {
  }

  lemma ResumeAtRelease(cfg: Config, p: Proc, reply: Reply, applied: bool, now: real)
    requires Fits(cfg, p) && Explained(p) && (p.pc.FreeKey? || p.pc.FreeOrg?)
    ensures Explained(Resume(cfg, p, reply, applied, now))
  {
  }

  lemma ResumeExplained(cfg: Config, p: Proc, reply: Reply, applied: bool, now: real)
    requires Fits(cfg, p) && Explained(p) && Ask(cfg, p).Some?
    ensures Explained(Resume(cfg, p, reply, applied, now))
  {
    if AtSlots(p.pc) { ResumeAtSlots(cfg, p, reply, applied, now); }
    else if p.pc.RefundGet? || p.pc.RefundIncr? { ResumeAtRefund(cfg, p, reply, applied, now); }
    else if AtQuota(p.pc) { ResumeAtReservation(cfg, p, reply, applied, now); }
    else if p.pc.Settle? { ResumeAtSettle(cfg, p, reply, applied, now); }
    else if p.pc.ClaimSet? || p.pc.ClaimGet? { ResumeAtClaim(cfg, p, reply, applied, now); }
    else { ResumeAtRelease(cfg, p, reply, applied, now); }
  }

  lemma HearExplained(cfg: Config, p: Proc, input: Input)
    requires Fits(cfg, p) && Explained(p) && Expects(p, input)
    ensures Explained(Hear(p, input))
  {
    if input.Responded? { ResponseExplained(cfg, p, input); }
  }

  lemma ResponseExplained(cfg: Config, p: Proc, input: Input)
    requires Fits(cfg, p) && Explained(p) && Expects(p, input) && input.Responded?
    ensures Explained(Hear(p, input))
  {
    var before, after := p.heard, p.heard + [input];
    assert after[..|before|] == before && after[|before|] == input;
  }

  lemma SentExplained(cfg: Config, p: Proc)
    requires Fits(cfg, p) && Explained(p) && p.pc.Emit?
    ensures Explained(Sent(p))
  {
  }

  ghost predicate AllExplained(s: State) {
    forall i :: 0 <= i < |s.procs| ==> Explained(s.procs[i])
  }

  lemma IssueExplained(cfg: Config, s: State, i: nat, fault: Fault)
    requires AllFit(cfg, s) && AllExplained(s) && Enabled(cfg, s, Issue(i, fault))
    ensures AllExplained(Next(cfg, s, Issue(i, fault)))
  {
    var (store, reply) := Perform(s.store, Ask(cfg, s.procs[i]).value, fault, s.now);
    ResumeExplained(cfg, s.procs[i], reply, fault != Skipped, s.now);
  }

  lemma NextExplained(cfg: Config, s: State, a: Action)
    requires AllFit(cfg, s) && AllExplained(s) && Enabled(cfg, s, a)
    ensures AllExplained(Next(cfg, s, a))
  {
    match a {
      case Issue(i, fault) => IssueExplained(cfg, s, i, fault);
      case Receive(i, input) => HearExplained(cfg, s.procs[i], input);
      case Send(i, _) => SentExplained(cfg, s.procs[i]);
      case _ =>
    }
  }
}
