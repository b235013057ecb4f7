/** How much of which resource is billed: what the upstream reported for each answered call,
    no more and no less, over every interleaving. */
module Amounts {
  import opened Store
  import opened Lifecycle
  import opened System
  import opened EventIds
  import opened Outcomes
  import Usage

  /** The quantities of one resource of one organization. */
  function Amount(events: seq<Event>, org: string, resource: Resource): nat {
    if events == [] then 0
    else (if events[0].org == org && events[0].resource == resource then events[0].quantity else 0)
         + Amount(events[1..], org, resource)
  }

  function Reported(count: Option<nat>): nat {
    if count.Some? then count.value else 0
  }

  /** What one call is to be billed for: one unit of its resource and the reported token counts,
      if the last thing it heard was a response with a status from 200 to 299. */
  function Due(p: Proc, org: string, resource: Resource): nat {
    if p.req.org != org || p.heard == [] || !p.heard[|p.heard| - 1].Responded? then 0
    else
      var response := p.heard[|p.heard| - 1];
      if !(200 <= response.status < 300) then 0
      else match resource
           case TokensInput => Reported(response.inputTokens)
           case TokensOutput => Reported(response.outputTokens)
           case _ => Bit(p.req.resource == resource)
  }

  /** The events that a request has still to send. */
  function Unsent(p: Proc): seq<Event> {
    match p.pc
    case Settle(_, todo) => todo
    case Emit(_, todo) => todo
    case _ => []
  }

  /** What is due of a call and has been sent. */
  function SentOf(org: string, resource: Resource): Proc -> int {
    (p: Proc) => Due(p, org, resource) - Amount(Unsent(p), org, resource)
  }

  ghost predicate AmountInv(s: State, org: string, resource: Resource) {
    Amount(s.usage.emitted, org, resource) == Sum(SentOf(org, resource), s.procs)
  }

  lemma AmountAppend(events: seq<Event>, e: Event, org: string, resource: Resource)
    ensures Amount(events + [e], org, resource)
            == Amount(events, org, resource) + (if e.org == org && e.resource == resource then e.quantity else 0)
  {
    AmountSplit(events, [e], org, resource);
    OneAmount([e], org, resource);
  }

  /** The events of one answer are worth exactly what is due. */
  lemma EventsDue(p: Proc, input: Input, org: string, resource: Resource)
    requires Billable(p.req.resource) && input.Responded? && 200 <= input.status < 300
    requires p.heard != [] && p.heard[|p.heard| - 1] == input
    ensures Amount(Events(p.req, input), org, resource) == Due(p, org, resource)
  {
    var bill := [Usage.Event(DedupKey(p.req), p.req.org, p.req.resource, 1)];
    var tokensIn := if input.inputTokens.None? then []
      else [Usage.Event(DedupKey(p.req) + ":tokens:input", p.req.org, TokensInput, input.inputTokens.value)];
    var tokensOut := if input.outputTokens.None? then []
      else [Usage.Event(DedupKey(p.req) + ":tokens:output", p.req.org, TokensOutput, input.outputTokens.value)];
    assert Events(p.req, input) == bill + tokensIn + tokensOut;
    AmountSplit(bill + tokensIn, tokensOut, org, resource);
    AmountSplit(bill, tokensIn, org, resource);
    OneAmount(bill, org, resource);
    OneAmount(tokensIn, org, resource);
    OneAmount(tokensOut, org, resource);
  }

  lemma OneAmount(events: seq<Event>, org: string, resource: Resource)
    requires |events| <= 1
    ensures Amount(events, org, resource)
            == if events != [] && events[0].org == org && events[0].resource == resource then events[0].quantity else 0
  {
    if events != [] { assert events[1..] == []; }
  }

  lemma {:induction false} AmountSplit(a: seq<Event>, b: seq<Event>, org: string, resource: Resource)
    ensures Amount(a + b, org, resource) == Amount(a, org, resource) + Amount(b, org, resource)
  {
    if a == [] {
      assert a + b == b;
    } else {
      AmountSplit(a[1..], b, org, resource);
      assert (a + b)[1..] == a[1..] + b;
    }
  }

  // ---------------------------------------------------------------- every step keeps the account

  lemma ResumeSent(cfg: Config, p: Proc, reply: Reply, applied: bool, now: real, org: string, resource: Resource)
    requires Fits(cfg, p) && Ask(cfg, p).Some?
    ensures SentOf(org, resource)(Resume(cfg, p, reply, applied, now)) == SentOf(org, resource)(p)
  {
    ResumeKeepsUnsent(cfg, p, reply, applied, now);
  }

  lemma ResumeKeepsUnsent(cfg: Config, p: Proc, reply: Reply, applied: bool, now: real)
    requires Fits(cfg, p) && Ask(cfg, p).Some?
    ensures var q := Resume(cfg, p, reply, applied, now);
            q.req == p.req && q.heard == p.heard && Unsent(q) == Unsent(p)
  {
  }

  lemma HearSent(cfg: Config, p: Proc, input: Input, org: string, resource: Resource)
    requires Fits(cfg, p) && Explained(p) && Expects(p, input)
    ensures SentOf(org, resource)(Hear(p, input)) == SentOf(org, resource)(p)
  {
    var q := Hear(p, input);
    assert q.heard[|q.heard| - 1] == input;
    assert p.heard == [] || !p.heard[|p.heard| - 1].Responded?;
    if input.Responded? && 200 <= input.status < 300 {
      EventsDue(q, input, org, resource);
      assert Unsent(q) == Events(p.req, input);
    }
  }

  lemma SentSent(cfg: Config, p: Proc, org: string, resource: Resource)
    requires Fits(cfg, p) && p.pc.Emit?
    ensures var e := p.pc.todo[0];
            SentOf(org, resource)(Sent(p))
            == SentOf(org, resource)(p) + (if e.org == org && e.resource == resource then e.quantity else 0)
  {
    assert Unsent(Sent(p)) == p.pc.todo[1..];
  }

  lemma MovedKeeps(s: State, i: nat, q: Proc, org: string, resource: Resource)
    requires AmountInv(s, org, resource) && i < |s.procs|
    requires SentOf(org, resource)(q) == SentOf(org, resource)(s.procs[i])
    ensures AmountInv(s.(procs := s.procs[i := q]), org, resource)
  {
    SumUpdate(SentOf(org, resource), s.procs, i, q);
  }

  lemma IssueKeeps(cfg: Config, s: State, i: nat, fault: Fault, org: string, resource: Resource)
    requires AllFit(cfg, s) && AmountInv(s, org, resource) && Enabled(cfg, s, Issue(i, fault))
    ensures AmountInv(Next(cfg, s, Issue(i, fault)), org, resource)
  {
    var reply := Perform(s.store, Ask(cfg, s.procs[i]).value, fault, s.now).1;
    ResumeSent(cfg, s.procs[i], reply, fault != Skipped, s.now, org, resource);
    MovedKeeps(s, i, Resumed(cfg, s, i, fault), org, resource);
  }

  lemma SendKeeps(cfg: Config, s: State, i: nat, delivery: Usage.Delivery, org: string, resource: Resource)
    requires AllFit(cfg, s) && AmountInv(s, org, resource) && Enabled(cfg, s, Send(i, delivery))
    ensures AmountInv(Next(cfg, s, Send(i, delivery)), org, resource)
  {
    var e := s.procs[i].pc.todo[0];
    SentSent(cfg, s.procs[i], org, resource);
    SumUpdate(SentOf(org, resource), s.procs, i, Sent(s.procs[i]));
    AmountAppend(s.usage.emitted, e, org, resource);
    assert Usage.Next(s.usage, Usage.Emit(e, delivery)).emitted == s.usage.emitted + [e];
  }

  lemma ArriveKeeps(s: State, req: Request, org: string, resource: Resource)
    requires AmountInv(s, org, resource)
    ensures AmountInv(s.(procs := s.procs + [Spawn(req)]), org, resource)
  {
    assert (s.procs + [Spawn(req)])[..|s.procs|] == s.procs;
  }

  lemma AmountNext(cfg: Config, s: State, a: Action, org: string, resource: Resource)
    requires AllFit(cfg, s) && AllExplained(s) && AmountInv(s, org, resource) && Enabled(cfg, s, a)
    ensures AmountInv(Next(cfg, s, a), org, resource)
  {
    match a {
      case Arrive(req) => ArriveKeeps(s, req, org, resource);
      case Issue(i, fault) => IssueKeeps(cfg, s, i, fault, org, resource);
      case Receive(i, input) =>
        HearSent(cfg, s.procs[i], input, org, resource);
        MovedKeeps(s, i, Hear(s.procs[i], input), org, resource);
      case Send(i, delivery) => SendKeeps(cfg, s, i, delivery, org, resource);
      case _ =>
    }
  }

  // ---------------------------------------------------------------- in the end

  function DueOf(org: string, resource: Resource): Proc -> int {
    (p: Proc) => Due(p, org, resource)
  }

  lemma {:induction false} NothingUnsent(ps: seq<Proc>, org: string, resource: Resource)
    requires forall p :: p in ps ==> Unsent(p) == []
    ensures Sum(SentOf(org, resource), ps) == Sum(DueOf(org, resource), ps)
  {
    if ps != [] {
      assert ps[|ps| - 1] in ps && forall p :: p in ps[..|ps| - 1] ==> p in ps;
      NothingUnsent(ps[..|ps| - 1], org, resource);
    }
  }
}
