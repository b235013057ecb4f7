/** The life of one billable call, as the program each request runs: which store command
    it issues next (`Ask`) and how it goes on with the reply (`Resume`) or with an answer
    from outside the store (`Hear`). A request carries its own holdings: the two
    concurrency slots, the reserved quota unit and the idempotency claim. */
module Lifecycle {
  import opened Store
  import Usage

  const CLAIM_TTL: int := 120
  const SLOT_TTL: int := 300

  datatype Config = Config(slotLimit: int, recordTtl: int)

  datatype Request = Request(
    subject: string, org: string, resource: Resource, idem: Option<string>, fingerprint: int,
    testMode: bool, byok: bool, capped: bool, requestId: string, testBody: string)

  type Event = Usage.Event

  datatype Outcome =
    | Rejected
    | Replayed(status: int, body: string)
    | Mismatch
    | InProgress
    | RevealFailed
    | Busy
    | OverQuota
    | UpstreamFailed(status: int)
    | TestAnswered(body: string)
    | Answered(status: int, body: string)

  datatype Pc =
    | Gate | ClaimSet | ClaimGet | Reveal
    | KeyIncr | KeyExpire(n: int) | KeyUndo
    | OrgIncr | OrgExpire(n: int) | OrgUndo | KeyBack
    | QuotaGet | QuotaDecr | QuotaUndo
    | Upstream | RefundGet(out: Outcome) | RefundIncr(out: Outcome)
    | Settle(out: Outcome, todo: seq<Event>)
    | Emit(out: Outcome, todo: seq<Event>)
    | FreeKey(out: Outcome) | FreeOrg(out: Outcome)
    | Done(out: Outcome)

  /** How firmly a slot is held: just counted, its deadline refreshed, or neither sure
      because a store command failed. */
  datatype Grip = Fresh | Timed | Loose

  datatype Slot = Vacant | Granted(at: real, grip: Grip) | Denied(at: real, grip: Grip)

  /** A quota unit. `blind` marks a decrement that took effect although it was reported as
      failed, `leaked` a compensation that was reported as failed. */
  datatype QuotaUnit =
    | Untouched
    | Reserved(blind: bool)
    | Overdrawn
    | Refused(leaked: bool)
    | Returned(blind: bool)

  datatype Claim =
    | Unclaimed
    | Owner(since: real)
    | Unowned
    | Kept(since: real, finished: real, status: int, body: string)
    | Released
    | Lost

  /** Answers that do not come from the store: the verdict of the checks before the call,
      of the key reveal, and the upstream response. */
  datatype Input =
    | Gated(ok: bool)
    | Revealed(ok: bool)
    | Responded(status: int, body: string, inputTokens: Option<nat>, outputTokens: Option<nat>)

  /** `heard` is the history of what the request has been told from outside the store. */
  datatype Proc = Proc(
    req: Request, pc: Pc, keySlot: Slot, orgSlot: Slot, unit: QuotaUnit, claim: Claim, heard: seq<Input>)

  function Spawn(req: Request): Proc {
    Proc(req, Gate, Vacant, Vacant, Untouched, Unclaimed, [])
  }

  function KeySlot(req: Request): Key { SlotKey(req.subject) }
  function OrgSlot(req: Request): Key { SlotKey("org:" + req.org) }
  function Quota(req: Request): Key { QuotaKey(req.org, req.resource) }
  function IdemOf(req: Request): Key { IdemKey(req.subject, if req.idem.Some? then req.idem.value else "") }

  predicate UsesSlots(req: Request) {
    req.capped && !req.testMode
  }

  predicate IsSuccess(status: int) {
    200 <= status < 300
  }

  predicate Succeeded(out: Outcome) {
    out.TestAnswered? || out.Answered?
  }

  function StatusOf(out: Outcome): int {
    if out.Answered? then out.status else 200
  }

  function BodyOf(out: Outcome): string {
    if out.Answered? || out.TestAnswered? then out.body else ""
  }

  /** What the event ids of a call are derived from: its subject and Idempotency-Key, or
      its request id when it has none. */
  function Keyed(subject: string, idem: string): string {
    subject + ":" + idem
  }

  function DedupKey(req: Request): string {
    if req.idem.Some? && req.idem.value != "" then Keyed(req.subject, req.idem.value) else req.requestId
  }

  /** The usage events of one answered call: one unit of the resource, and the token
      counts when the upstream reported them. */
  function Events(req: Request, input: Input): seq<Event>
    requires input.Responded?
  {
    [Usage.Event(DedupKey(req), req.org, req.resource, 1)]
    + (if input.inputTokens.Some?
       then [Usage.Event(DedupKey(req) + ":tokens:input", req.org, TokensInput, input.inputTokens.value)] else [])
    + (if input.outputTokens.Some?
       then [Usage.Event(DedupKey(req) + ":tokens:output", req.org, TokensOutput, input.outputTokens.value)] else [])
  }

  // ---------------------------------------------------------------- the program

  /** After the `try` block, which only these outcomes enter holding slots. */
  function Exit(req: Request, out: Outcome): Pc {
    if UsesSlots(req) && (out.OverQuota? || out.UpstreamFailed? || out.Answered?) then FreeKey(out) else Done(out)
  }

  function AfterSettle(req: Request, out: Outcome, todo: seq<Event>): Pc {
    if out.Answered? && todo != [] then Emit(out, todo) else Exit(req, out)
  }

  /** The claim is settled only when the caller sent an Idempotency-Key. */
  function ToSettle(req: Request, out: Outcome, todo: seq<Event>): Pc {
    if req.idem.Some? then Settle(out, todo) else AfterSettle(req, out, todo)
  }

  function ToWork(req: Request): Pc {
    if req.testMode then ToSettle(req, TestAnswered(req.testBody), []) else QuotaGet
  }

  function ToSlots(req: Request): Pc {
    if UsesSlots(req) then KeyIncr else ToWork(req)
  }

  function AfterClaim(req: Request): Pc {
    if req.byok && !req.testMode then Reveal else ToSlots(req)
  }

  /** The store command a request issues next; none while it waits for something else. */
  function Ask(cfg: Config, p: Proc): Option<Command> {
    match p.pc
    case ClaimSet => Some(Set(IdemOf(p.req), Running(p.req.fingerprint), true, Some(CLAIM_TTL)))
    case ClaimGet => Some(Get(IdemOf(p.req)))
    case KeyIncr => Some(Incr(KeySlot(p.req)))
    case KeyExpire(_) => Some(Expire(KeySlot(p.req), SLOT_TTL))
    case KeyUndo => Some(Decr(KeySlot(p.req)))
    case OrgIncr => Some(Incr(OrgSlot(p.req)))
    case OrgExpire(_) => Some(Expire(OrgSlot(p.req), SLOT_TTL))
    case OrgUndo => Some(Decr(OrgSlot(p.req)))
    case KeyBack => Some(Decr(KeySlot(p.req)))
    case QuotaGet => Some(Get(Quota(p.req)))
    case QuotaDecr => Some(Decr(Quota(p.req)))
    case QuotaUndo => Some(Incr(Quota(p.req)))
    case RefundGet(_) => Some(Get(Quota(p.req)))
    case RefundIncr(_) => Some(Incr(Quota(p.req)))
    case Settle(out, _) =>
      Some(if Succeeded(out)
           then Set(IdemOf(p.req), Finished(p.req.fingerprint, StatusOf(out), BodyOf(out)), false, Some(cfg.recordTtl))
           else Delete(IdemOf(p.req)))
    case FreeKey(_) => Some(Decr(KeySlot(p.req)))
    case FreeOrg(_) => Some(Decr(OrgSlot(p.req)))
    case _ => None
  }

  function Counted(cfg: Config, n: int, now: real): Slot {
    if n <= cfg.slotLimit then Granted(now, Fresh) else Denied(now, Fresh)
  }

  /** How a request goes on after its store command. `Raised` is the exception every store
      method swallows; `applied` records whether the failed command took effect. */
  function Resume(cfg: Config, p: Proc, reply: Reply, applied: bool, now: real): Proc {
    var req := p.req;
    match p.pc
    case ClaimSet =>
      (match reply
       case Raised => p.(claim := Unowned, pc := AfterClaim(req))
       case Flag(true) => p.(claim := Owner(now), pc := AfterClaim(req))
       case _ => p.(pc := ClaimGet))
    case ClaimGet =>
      (match reply
       case Raised => p.(claim := Unowned, pc := AfterClaim(req))
       case Found(Finished(fp, status, body)) =>
         p.(pc := Done(if fp != req.fingerprint then Mismatch else Replayed(status, body)))
       case Found(Running(fp)) => p.(pc := Done(if fp != req.fingerprint then Mismatch else InProgress))
       case _ => p.(pc := Done(InProgress)))
    case KeyIncr =>
      if reply.Count? then p.(keySlot := Counted(cfg, reply.n, now), pc := KeyExpire(reply.n))
      else p.(keySlot := Granted(now, Loose), pc := OrgIncr)
    case KeyExpire(n) =>
      if p.keySlot.Vacant? then p
      else if reply.Raised? then p.(keySlot := Granted(p.keySlot.at, Loose), pc := OrgIncr)
      else p.(keySlot := p.keySlot.(grip := Timed), pc := if n > cfg.slotLimit then KeyUndo else OrgIncr)
    case KeyUndo => p.(keySlot := Vacant, pc := ToSettle(req, Busy, []))
    case OrgIncr =>
      if reply.Count? then p.(orgSlot := Counted(cfg, reply.n, now), pc := OrgExpire(reply.n))
      else p.(orgSlot := Granted(now, Loose), pc := ToWork(req))
    case OrgExpire(n) =>
      if p.orgSlot.Vacant? then p
      else if reply.Raised? then p.(orgSlot := Granted(p.orgSlot.at, Loose), pc := ToWork(req))
      else p.(orgSlot := p.orgSlot.(grip := Timed), pc := if n > cfg.slotLimit then OrgUndo else ToWork(req))
    case OrgUndo => p.(orgSlot := Vacant, pc := KeyBack)
    case KeyBack => p.(keySlot := Vacant, pc := ToSettle(req, Busy, []))
    case QuotaGet =>
      if reply.Found? then p.(pc := QuotaDecr) else p.(unit := Reserved(false), pc := Upstream)
    case QuotaDecr =>
      if !reply.Count? then p.(unit := Reserved(applied), pc := Upstream)
      else if reply.n < 0 then p.(unit := Overdrawn, pc := QuotaUndo)
      else p.(unit := Reserved(false), pc := Upstream)
    case QuotaUndo => p.(unit := Refused(reply.Raised?), pc := ToSettle(req, OverQuota, []))
    case RefundGet(out) =>
      if reply.Found? then p.(pc := RefundIncr(out))
      else p.(unit := Returned(p.unit.Reserved? && p.unit.blind), pc := ToSettle(req, out, []))
    case RefundIncr(out) =>
      p.(unit := Returned(p.unit.Reserved? && p.unit.blind), pc := ToSettle(req, out, []))
    case Settle(out, todo) =>
      p.(claim := if reply.Raised? || !p.claim.Owner? then Lost
                  else if Succeeded(out) then Kept(p.claim.since, now, StatusOf(out), BodyOf(out)) else Released,
         pc := AfterSettle(req, out, todo))
    case FreeKey(out) => p.(keySlot := Vacant, pc := FreeOrg(out))
    case FreeOrg(out) => p.(orgSlot := Vacant, pc := Done(out))
    case _ => p
  }

  predicate Expects(p: Proc, input: Input) {
    match input
    case Gated(_) => p.pc.Gate?
    case Revealed(_) => p.pc.Reveal?
    case Responded(_, _, _, _) => p.pc.Upstream?
  }

  function Hear(p: Proc, input: Input): Proc
    requires Expects(p, input)
  {
    GoOn(p.(heard := p.heard + [input]), input)
  }

  /** How a request goes on after an answer from outside. */
  function GoOn(p: Proc, input: Input): Proc
    requires Expects(p, input)
  {
    match input
    case Gated(ok) =>  // without an organization nobody is admitted
      p.(pc := if !ok || p.req.org == "" then Done(Rejected)
               else if p.req.idem.Some? then ClaimSet else AfterClaim(p.req))
    case Revealed(ok) =>
      p.(pc := if ok then ToSlots(p.req) else ToSettle(p.req, RevealFailed, []))
    case Responded(status, body, _, _) =>
      p.(pc := if IsSuccess(status) then ToSettle(p.req, Answered(status, body), Events(p.req, input))
               else RefundGet(UpstreamFailed(status)))
  }

  /** One usage event has been sent. */
  function Sent(p: Proc): Proc
    requires p.pc.Emit? && p.pc.todo != []
  {
    p.(pc := AfterSettle(p.req, p.pc.out, p.pc.todo[1..]))
  }

  // ---------------------------------------------------------------- what a request holds where

  predicate Billable(resource: Resource) {
    resource.LiteratureAnswer? || resource.LiteratureSearch?
  }

  predicate Firm(s: Slot) {
    s.Granted? && !s.grip.Fresh?
  }

  /** Inside the `try` block both slots are held exactly when the call uses slots. */
  predicate InTry(p: Proc) {
    if UsesSlots(p.req) then Firm(p.keySlot) && Firm(p.orgSlot) else p.keySlot.Vacant? && p.orgSlot.Vacant?
  }

  predicate SlotsFit(cfg: Config, p: Proc) {
    match p.pc
    case KeyExpire(n) => UsesSlots(p.req) && p.orgSlot.Vacant? && !p.keySlot.Vacant? && p.keySlot.grip.Fresh?
                         && (p.keySlot.Granted? <==> n <= cfg.slotLimit)
    case KeyUndo => UsesSlots(p.req) && p.orgSlot.Vacant? && p.keySlot.Denied? && !p.keySlot.grip.Fresh?
    case OrgIncr => UsesSlots(p.req) && Firm(p.keySlot) && p.orgSlot.Vacant?
    case OrgExpire(n) => UsesSlots(p.req) && Firm(p.keySlot) && !p.orgSlot.Vacant? && p.orgSlot.grip.Fresh?
                         && (p.orgSlot.Granted? <==> n <= cfg.slotLimit)
    case OrgUndo => UsesSlots(p.req) && Firm(p.keySlot) && p.orgSlot.Denied? && !p.orgSlot.grip.Fresh?
    case KeyBack => UsesSlots(p.req) && Firm(p.keySlot) && p.orgSlot.Vacant?
    case QuotaGet => InTry(p)
    case QuotaDecr => InTry(p)
    case QuotaUndo => InTry(p)
    case Upstream => InTry(p)
    case RefundGet(_) => InTry(p)
    case RefundIncr(_) => InTry(p)
    case Settle(out, _) => if out.OverQuota? || out.UpstreamFailed? || out.Answered? then InTry(p)
                           else p.keySlot.Vacant? && p.orgSlot.Vacant?
    case Emit(_, _) => InTry(p)
    case FreeKey(_) => UsesSlots(p.req) && InTry(p)
    case FreeOrg(_) => UsesSlots(p.req) && p.keySlot.Vacant? && Firm(p.orgSlot)
    case KeyIncr => UsesSlots(p.req) && p.keySlot.Vacant? && p.orgSlot.Vacant?
    case _ => p.keySlot.Vacant? && p.orgSlot.Vacant?
  }

  predicate UnitFor(out: Outcome, unit: QuotaUnit) {
    match out
    case OverQuota => unit.Refused?
    case UpstreamFailed(_) => unit.Returned?
    case Answered(status, _) => unit.Reserved? && IsSuccess(status)
    case _ => unit.Untouched?
  }

  predicate UnitFits(p: Proc) {
    match p.pc
    case QuotaUndo => p.unit.Overdrawn?
    case Upstream => p.unit.Reserved?
    case RefundGet(out) => p.unit.Reserved? && out.UpstreamFailed?
    case RefundIncr(out) => p.unit.Reserved? && out.UpstreamFailed?
    case Settle(out, _) => UnitFor(out, p.unit)
    case Emit(out, _) => UnitFor(out, p.unit) && out.Answered?
    case FreeKey(out) => UnitFor(out, p.unit)
    case FreeOrg(out) => UnitFor(out, p.unit)
    case Done(out) => UnitFor(out, p.unit)
    case _ => p.unit.Untouched?
  }

  predicate Executes(out: Outcome) {
    !out.Rejected? && !out.Replayed? && !out.Mismatch? && !out.InProgress?
  }

  /** After the claim was settled: kept for a success, released for anything else. */
  predicate ClaimFor(p: Proc, out: Outcome) {
    if p.req.idem.None? || !Executes(out) then p.claim.Unclaimed?
    else p.claim.Lost? ||
         (if Succeeded(out) then p.claim.Kept? && p.claim.status == StatusOf(out) && p.claim.body == BodyOf(out)
          else p.claim.Released?)
  }

  predicate ClaimFits(p: Proc) {
    match p.pc
    case Gate => p.claim.Unclaimed?
    case ClaimSet => p.req.idem.Some? && p.claim.Unclaimed?
    case ClaimGet => p.req.idem.Some? && p.claim.Unclaimed?
    case Settle(out, _) => p.req.idem.Some? && (p.claim.Owner? || p.claim.Unowned?) && Executes(out)
    case Emit(out, _) => ClaimFor(p, out)
    case FreeKey(out) => ClaimFor(p, out) && Executes(out)
    case FreeOrg(out) => ClaimFor(p, out) && Executes(out)
    case Done(out) => ClaimFor(p, out)
    case _ => if p.req.idem.Some? then p.claim.Owner? || p.claim.Unowned? else p.claim.Unclaimed?
  }

  predicate IsToken(e: Event) {
    e.resource.TokensInput? || e.resource.TokensOutput?
  }

  /** What is still to be sent: at most the first event bills the call itself. */
  predicate TodoFits(p: Proc) {
    match p.pc
    case Settle(out, todo) => if out.Answered? then IsBill(p.req, todo) else todo == []
    case Emit(out, todo) => todo != [] && (IsBill(p.req, todo) || forall e :: e in todo ==> IsToken(e))
    case _ => true
  }

  predicate IsBill(req: Request, todo: seq<Event>) {
    && todo != []
    && todo[0] == Usage.Event(DedupKey(req), req.org, req.resource, 1)
    && (forall e :: e in todo[1..] ==> IsToken(e))
  }

  /** The local invariant of one request. */
  predicate Fits(cfg: Config, p: Proc) {
    && Billable(p.req.resource)
    && SlotsFit(cfg, p) && UnitFits(p) && ClaimFits(p) && TodoFits(p)
  }

  /** The program points at which a request works on its concurrency slots. */
  predicate AtSlots(pc: Pc) {
    pc.KeyIncr? || pc.KeyExpire? || pc.KeyUndo? || pc.OrgIncr? || pc.OrgExpire? || pc.OrgUndo? || pc.KeyBack?
  }

  predicate AtQuota(pc: Pc) {
    pc.QuotaGet? || pc.QuotaDecr? || pc.QuotaUndo? || pc.RefundGet? || pc.RefundIncr?
  }

  lemma ResumeAtSlotsFits(cfg: Config, p: Proc, reply: Reply, applied: bool, now: real)
    requires Fits(cfg, p) && AtSlots(p.pc)
    ensures Fits(cfg, Resume(cfg, p, reply, applied, now))
  {
  }

  lemma ResumeAtQuotaFits(cfg: Config, p: Proc, reply: Reply, applied: bool, now: real)
    requires Fits(cfg, p) && AtQuota(p.pc)
    ensures Fits(cfg, Resume(cfg, p, reply, applied, now))
  {
    if p.pc.RefundGet? || p.pc.RefundIncr? { ResumeAtRefundFits(cfg, p, reply, applied, now); }
    else { ResumeAtReservationFits(cfg, p, reply, applied, now); }
  }

  lemma ResumeAtRefundFits(cfg: Config, p: Proc, reply: Reply, applied: bool, now: real)
    requires Fits(cfg, p) && (p.pc.RefundGet? || p.pc.RefundIncr?)
    ensures Fits(cfg, Resume(cfg, p, reply, applied, now))
  {
  }

  lemma ResumeAtReservationFits(cfg: Config, p: Proc, reply: Reply, applied: bool, now: real)
    requires Fits(cfg, p) && (p.pc.QuotaGet? || p.pc.QuotaDecr? || p.pc.QuotaUndo?)
    ensures Fits(cfg, Resume(cfg, p, reply, applied, now))
  {
  }

  lemma ResumeElsewhereFits(cfg: Config, p: Proc, reply: Reply, applied: bool, now: real)
    requires Fits(cfg, p) && Ask(cfg, p).Some? && !AtSlots(p.pc) && !AtQuota(p.pc)
    ensures Fits(cfg, Resume(cfg, p, reply, applied, now))
  {
    if p.pc.Settle? { SettleFits(cfg, p, reply, applied, now); }
    else if p.pc.ClaimSet? || p.pc.ClaimGet? { ClaimFitsOn(cfg, p, reply, applied, now); }
    else { FreeFits(cfg, p, reply, applied, now); }
  }

  lemma ClaimFitsOn(cfg: Config, p: Proc, reply: Reply, applied: bool, now: real)
    requires Fits(cfg, p) && (p.pc.ClaimSet? || p.pc.ClaimGet?)
    ensures Fits(cfg, Resume(cfg, p, reply, applied, now))
  {
  }

  lemma FreeFits(cfg: Config, p: Proc, reply: Reply, applied: bool, now: real)
    requires Fits(cfg, p) && (p.pc.FreeKey? || p.pc.FreeOrg?)
    ensures Fits(cfg, Resume(cfg, p, reply, applied, now))
  {
  }

  lemma SettleFits(cfg: Config, p: Proc, reply: Reply, applied: bool, now: real)
    requires Fits(cfg, p) && p.pc.Settle?
    ensures Fits(cfg, Resume(cfg, p, reply, applied, now))
  {
  }

  lemma ResumeFits(cfg: Config, p: Proc, reply: Reply, applied: bool, now: real)
    requires Fits(cfg, p) && Ask(cfg, p).Some?
    ensures Fits(cfg, Resume(cfg, p, reply, applied, now))
  {
    if AtSlots(p.pc) { ResumeAtSlotsFits(cfg, p, reply, applied, now); }
    else if AtQuota(p.pc) { ResumeAtQuotaFits(cfg, p, reply, applied, now); }
    else { ResumeElsewhereFits(cfg, p, reply, applied, now); }
  }

  lemma HearFits(cfg: Config, p: Proc, input: Input)
    requires Fits(cfg, p) && Expects(p, input)
    ensures Fits(cfg, Hear(p, input)) && Hear(p, input).req == p.req
  {
    if input.Responded? { ResponseFits(cfg, p, input); }
  }

  lemma ResponseFits(cfg: Config, p: Proc, input: Input)
    requires Fits(cfg, p) && Expects(p, input) && input.Responded?
    ensures Fits(cfg, Hear(p, input))
  {
    if IsSuccess(input.status) {
      assert forall e :: e in Events(p.req, input)[1..] ==> IsToken(e);
    }
  }

  lemma SentFits(cfg: Config, p: Proc)
    requires Fits(cfg, p) && p.pc.Emit?
    ensures Fits(cfg, Sent(p)) && Sent(p).req == p.req
  {
    var rest := p.pc.todo[1..];
    assert forall e :: e in rest ==> e in p.pc.todo;
  }
}
