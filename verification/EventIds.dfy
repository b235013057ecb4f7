/** Whose events an event id can belong to: no id is emitted more often than there are
    answered calls that derive it, and each is emitted at least once for every billed call
    whose own id it is. */
module EventIds {
  import opened Store
  import opened Lifecycle
  import opened System
  import Usage
  import Billing

  const INPUT := ":tokens:input"
  const OUTPUT := ":tokens:output"

  /** The three ids that the events of a call can have. */
  predicate Derives(req: Request, id: string) {
    id == DedupKey(req) || id == DedupKey(req) + INPUT || id == DedupKey(req) + OUTPUT
  }

  function Times(events: seq<Event>, id: string): nat {
    if events == [] then 0 else Bit(events[0].id == id) + Times(events[1..], id)
  }

  /** The call was answered by the upstream, and its claim, if it has one, is settled. */
  predicate Charged(p: Proc) {
    match p.pc
    case Emit(out, _) => out.Answered?
    case FreeKey(out) => out.Answered?
    case FreeOrg(out) => out.Answered?
    case Done(out) => out.Answered?
    case _ => false
  }

  predicate Owes(p: Proc, id: string) {
    Charged(p) && Derives(p.req, id)
  }

  /** How often a request may still owe an id it derives, beyond what it is about to emit. */
  function Slack(p: Proc, id: string): int {
    Bit(Owes(p, id)) - if p.pc.Emit? then Times(p.pc.todo, id) else 0
  }

  function SlackOf(id: string): Proc -> int {
    (p: Proc) => Slack(p, id)
  }

  /** The call has been billed under this very id. */
  function BillOf(id: string): Proc -> int {
    (p: Proc) => Bit(HasBilled(p) && DedupKey(p.req) == id)
  }

  function Sum(f: Proc -> int, ps: seq<Proc>): int {
    if ps == [] then 0 else Sum(f, ps[..|ps| - 1]) + f(ps[|ps| - 1])
  }

  /** How many events with this id are worth something. */
  function Worthy(events: seq<Event>, id: string): nat {
    if events == [] then 0 else Bit(events[0].id == id && events[0].quantity > 0) + Worthy(events[1..], id)
  }

  /** Before its claim is settled, a call has each id it derives to emit at most once. */
  predicate Sized(p: Proc, id: string) {
    p.pc.Settle? ==> Times(p.pc.todo, id) <= Bit(Derives(p.req, id))
  }

  ghost predicate IdInv(s: State, id: string) {
    && Times(s.usage.emitted, id) <= Sum(SlackOf(id), s.procs)
    && Sum(BillOf(id), s.procs) <= Worthy(s.usage.emitted, id)
    && (forall i :: 0 <= i < |s.procs| ==> Sized(s.procs[i], id))
  }

  // ---------------------------------------------------------------- sums and counts

  lemma {:induction false} SumUpdate(f: Proc -> int, ps: seq<Proc>, i: nat, q: Proc)
    requires i < |ps|
    ensures Sum(f, ps[i := q]) == Sum(f, ps) - f(ps[i]) + f(q)
  {
    var qs := ps[i := q];
    if i == |ps| - 1 {
      assert qs[..|qs| - 1] == ps[..|ps| - 1];
    } else {
      assert qs[..|qs| - 1] == ps[..|ps| - 1][i := q];
      SumUpdate(f, ps[..|ps| - 1], i, q);
    }
  }

  lemma {:induction false} TimesAppend(events: seq<Event>, e: Event, id: string)
    ensures Times(events + [e], id) == Times(events, id) + Bit(e.id == id)
  {
    if events == [] {
      assert ([] + [e])[1..] == [];
    } else {
      TimesAppend(events[1..], e, id);
      assert (events + [e])[1..] == events[1..] + [e];
    }
  }

  lemma {:induction false} WorthyAppend(events: seq<Event>, e: Event, id: string)
    ensures Worthy(events + [e], id) == Worthy(events, id) + Bit(e.id == id && e.quantity > 0)
  {
    if events == [] {
      assert ([] + [e])[1..] == [];
    } else {
      WorthyAppend(events[1..], e, id);
      assert (events + [e])[1..] == events[1..] + [e];
    }
  }

  /** The events of one answer have different ids. */
  lemma EventsSized(req: Request, input: Input, id: string)
    requires input.Responded?
    ensures Times(Events(req, input), id) <= Bit(Derives(req, id))
  {
    var events := Events(req, input);
    var a, b := DedupKey(req) + INPUT, DedupKey(req) + OUTPUT;
    assert |a| == |DedupKey(req)| + 13 && |b| == |DedupKey(req)| + 14;
    assert events[0].id != a && events[0].id != b && a != b;
    assert Times(events, id) == Bit(events[0].id == id) + Times(events[1..], id);
    if |events| > 1 {
      assert events[1..][1..] == events[2..];
      assert Times(events[1..], id) == Bit(events[1].id == id) + Times(events[2..], id);
      if |events| > 2 {
        assert events[2..][1..] == [];
        assert Times(events[2..], id) == Bit(events[2].id == id);
      }
    }
  }

  // ---------------------------------------------------------------- every action

  lemma ResumeSlack(cfg: Config, p: Proc, reply: Reply, applied: bool, now: real, id: string)
    requires Fits(cfg, p) && Ask(cfg, p).Some? && Sized(p, id)
    ensures Slack(p, id) <= Slack(Resume(cfg, p, reply, applied, now), id)
    ensures Sized(Resume(cfg, p, reply, applied, now), id)
  {
  }

  lemma HearSlack(cfg: Config, p: Proc, input: Input, id: string)
    requires Fits(cfg, p) && Expects(p, input)
    ensures Slack(p, id) <= Slack(Hear(p, input), id) && Sized(Hear(p, input), id)
  {
    if input.Responded? { EventsSized(p.req, input, id); }
  }

  lemma SentSlack(cfg: Config, p: Proc, id: string)
    requires Fits(cfg, p) && p.pc.Emit?
    ensures Slack(Sent(p), id) == Slack(p, id) + Bit(p.pc.todo[0].id == id) && Sized(Sent(p), id)
  {
    assert Times(p.pc.todo, id) == Bit(p.pc.todo[0].id == id) + Times(p.pc.todo[1..], id);
    if |p.pc.todo| == 1 { assert p.pc.todo[1..] == []; }
  }

  /** The event that bills a call carries the call's own id and is worth something. */
  lemma SentBilled(cfg: Config, p: Proc, id: string)
    requires Fits(cfg, p) && p.pc.Emit?
    ensures BillOf(id)(Sent(p)) <= BillOf(id)(p) + Bit(p.pc.todo[0].id == id && p.pc.todo[0].quantity > 0)
  {
    assert IsToken(p.pc.todo[0]) ==> HasBilled(p);
    assert !IsToken(p.pc.todo[0]) ==> IsBill(p.req, p.pc.todo);
  }

  lemma LocalKeeps(s: State, i: nat, q: Proc, id: string)
    requires IdInv(s, id) && i < |s.procs| && Slack(s.procs[i], id) <= Slack(q, id) && Sized(q, id)
    requires q.req == s.procs[i].req && HasBilled(q) == HasBilled(s.procs[i])
    ensures IdInv(s.(procs := s.procs[i := q]), id)
  {
    SumUpdate(SlackOf(id), s.procs, i, q);
    SumUpdate(BillOf(id), s.procs, i, q);
  }

  lemma SendKeeps(cfg: Config, s: State, i: nat, delivery: Usage.Delivery, id: string)
    requires AllFit(cfg, s) && IdInv(s, id) && Enabled(cfg, s, Send(i, delivery))
    ensures IdInv(Next(cfg, s, Send(i, delivery)), id)
  {
    var e := s.procs[i].pc.todo[0];
    SentSlack(cfg, s.procs[i], id);
    SentBilled(cfg, s.procs[i], id);
    SentSums(s, i, Sent(s.procs[i]), e, id);
    assert Usage.Next(s.usage, Usage.Emit(e, delivery)).emitted == s.usage.emitted + [e];
  }

  lemma SentSums(s: State, i: nat, q: Proc, e: Event, id: string)
    requires IdInv(s, id) && i < |s.procs| && Slack(q, id) == Slack(s.procs[i], id) + Bit(e.id == id)
    requires BillOf(id)(q) <= BillOf(id)(s.procs[i]) + Bit(e.id == id && e.quantity > 0)
    ensures Times(s.usage.emitted + [e], id) <= Sum(SlackOf(id), s.procs[i := q])
    ensures Sum(BillOf(id), s.procs[i := q]) <= Worthy(s.usage.emitted + [e], id)
  {
    SumUpdate(SlackOf(id), s.procs, i, q);
    SumUpdate(BillOf(id), s.procs, i, q);
    TimesAppend(s.usage.emitted, e, id);
    WorthyAppend(s.usage.emitted, e, id);
  }

  lemma IssueKeeps(cfg: Config, s: State, i: nat, fault: Fault, id: string)
    requires AllFit(cfg, s) && IdInv(s, id) && Enabled(cfg, s, Issue(i, fault))
    ensures IdInv(Next(cfg, s, Issue(i, fault)), id)
  {
    var reply := Perform(s.store, Ask(cfg, s.procs[i]).value, fault, s.now).1;
    ResumeSlack(cfg, s.procs[i], reply, fault != Skipped, s.now, id);
    Billing.ResumeBills(cfg, s.procs[i], reply, fault != Skipped, s.now);
    LocalKeeps(s, i, Resumed(cfg, s, i, fault), id);
  }

  lemma ReceiveKeeps(cfg: Config, s: State, i: nat, input: Input, id: string)
    requires AllFit(cfg, s) && IdInv(s, id) && Enabled(cfg, s, Receive(i, input))
    ensures IdInv(Next(cfg, s, Receive(i, input)), id)
  {
    HearSlack(cfg, s.procs[i], input, id);
    Billing.HearBills(cfg, s.procs[i], input);
    LocalKeeps(s, i, Hear(s.procs[i], input), id);
  }

  lemma ArriveKeeps(s: State, req: Request, id: string)
    requires IdInv(s, id)
    ensures IdInv(s.(procs := s.procs + [Spawn(req)]), id)
  {
    assert (s.procs + [Spawn(req)])[..|s.procs|] == s.procs;
  }

  lemma IdNext(cfg: Config, s: State, a: Action, id: string)
    requires AllFit(cfg, s) && IdInv(s, id) && Enabled(cfg, s, a)
    ensures IdInv(Next(cfg, s, a), id)
  {
    match a {
      case Arrive(req) => ArriveKeeps(s, req, id);
      case Issue(i, fault) => IssueKeeps(cfg, s, i, fault, id);
      case Receive(i, input) => ReceiveKeeps(cfg, s, i, input, id);
      case Send(i, delivery) => SendKeeps(cfg, s, i, delivery, id);
      case _ =>
    }
  }

  // ---------------------------------------------------------------- distinct ids

  /** No id is derived by two different answered requests. */
  ghost predicate Unshared(ps: seq<Proc>) {
    forall i, j, id: string :: 0 <= i < |ps| && 0 <= j < |ps| && Owes(ps[i], id) && Owes(ps[j], id) ==> i == j
  }

  lemma {:induction false} SumAtMost(ps: seq<Proc>, id: string)
    requires Unshared(ps)
    ensures Sum(SlackOf(id), ps) <= 1
    ensures (forall i :: 0 <= i < |ps| ==> !Owes(ps[i], id)) ==> Sum(SlackOf(id), ps) <= 0
  {
    if ps != [] {
      SumAtMost(ps[..|ps| - 1], id);
    }
  }

  lemma {:induction false} TimesOne(events: seq<Event>, i: nat)
    requires i < |events|
    ensures Times(events, events[i].id) >= 1
  {
    if i > 0 { TimesOne(events[1..], i - 1); }
  }

  lemma {:induction false} TimesTwo(events: seq<Event>, i: nat, j: nat)
    requires i < j < |events| && events[i].id == events[j].id
    ensures Times(events, events[i].id) >= 2
  {
    if i == 0 { TimesOne(events[1..], j - 1); } else { TimesTwo(events[1..], i - 1, j - 1); }
  }

  /** When no two answered requests derive a common id, every event emitted has its own. */
  lemma OwnIds(s: State)
    requires Unshared(s.procs) && forall id :: IdInv(s, id)
    ensures Usage.DistinctIds(s.usage.emitted)
  {
    var events := s.usage.emitted;
    forall i, j | 0 <= i < j < |events| ensures events[i].id != events[j].id {
      assert IdInv(s, events[i].id);
      SumAtMost(s.procs, events[i].id);
      if events[i].id == events[j].id { TimesTwo(events, i, j); }
    }
  }

  // ---------------------------------------------------------------- shared ids

  lemma {:induction false} SumNatural(id: string, ps: seq<Proc>)
    ensures Sum(BillOf(id), ps) >= 0
  {
    if ps != [] { SumNatural(id, ps[..|ps| - 1]); }
  }

  lemma {:induction false} SumOne(id: string, ps: seq<Proc>, i: nat)
    requires i < |ps|
    ensures BillOf(id)(ps[i]) <= Sum(BillOf(id), ps)
  {
    if i < |ps| - 1 { SumOne(id, ps[..|ps| - 1], i); } else { SumNatural(id, ps[..|ps| - 1]); }
  }

  lemma {:induction false} SumTwo(id: string, ps: seq<Proc>, i: nat, j: nat)
    requires i < j < |ps|
    ensures BillOf(id)(ps[i]) + BillOf(id)(ps[j]) <= Sum(BillOf(id), ps)
  {
    if j < |ps| - 1 { SumTwo(id, ps[..|ps| - 1], i, j); } else { SumOne(id, ps[..|ps| - 1], i); }
  }

  lemma {:induction false} WorthyOne(events: seq<Event>, id: string) returns (i: nat)
    requires Worthy(events, id) >= 1
    ensures i < |events| && events[i].id == id && events[i].quantity > 0
  {
    if events[0].id == id && events[0].quantity > 0 { i := 0; }
    else {
      i := WorthyOne(events[1..], id);
      i := i + 1;
    }
  }

  lemma {:induction false} WorthyTwo(events: seq<Event>, id: string) returns (i: nat, j: nat)
    requires Worthy(events, id) >= 2
    ensures i < j < |events| && events[i].id == id && events[j].id == id && events[i].quantity > 0
            && events[j].quantity > 0
  {
    if events[0].id == id && events[0].quantity > 0 {
      j := WorthyOne(events[1..], id);
      i, j := 0, j + 1;
    } else {
      i, j := WorthyTwo(events[1..], id);
      i, j := i + 1, j + 1;
    }
  }

  /** Two billed calls with one id leave two events of that id that are both worth something. */
  lemma SharedId(s: State, i: nat, j: nat)
    requires i < j < |s.procs| && HasBilled(s.procs[i]) && HasBilled(s.procs[j])
    requires DedupKey(s.procs[i].req) == DedupKey(s.procs[j].req) && forall id :: IdInv(s, id)
    ensures !Usage.Separate(s.usage.stream, {}, s.usage.emitted)
  {
    var id := DedupKey(s.procs[i].req);
    SumTwo(id, s.procs, i, j);
    assert IdInv(s, id);
    var a, b := WorthyTwo(s.usage.emitted, id);
    assert Usage.Owed(s.usage.emitted[a], {}) && Usage.Owed(s.usage.emitted[b], {});
  }
}
