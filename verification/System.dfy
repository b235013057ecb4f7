/** Any number of requests running interleaved over the shared store, one store command a
    step, each of which may fail. */
module System {
  import opened Store
  import opened Lifecycle
  import Usage

  /** A store command succeeds, fails without effect, or takes effect but reports failure. */
  datatype Fault = NoFault | Skipped | Applied

  datatype State = State(now: real, store: Plain, procs: seq<Proc>, faults: map<Key, nat>, usage: Usage.Ledger)

  datatype Action =
    | Arrive(req: Request)
    | Pass(until: real)
    | Issue(i: nat, fault: Fault)
    | Receive(i: nat, input: Input)
    | Send(i: nat, delivery: Usage.Delivery)
    | Drain(step: Usage.Step)
    | Foreign(cmd: Command, fault: Fault)

  function FaultsOn(s: State, key: Key): nat {
    if key in s.faults then s.faults[key] else 0
  }

  /** INCR and EXPIRE fall into one clock tick, a claim is settled within its 120 seconds,
      and a slot is given back within its 300 seconds. */
  predicate Tolerates(p: Proc, now: real, until: real) {
    && (p.pc.KeyExpire? || p.pc.OrgExpire? ==> until == now)
    && (p.claim.Owner? ==> until < p.claim.since + CLAIM_TTL as real)
    && (!p.keySlot.Vacant? ==> until < p.keySlot.at + SLOT_TTL as real)
    && (!p.orgSlot.Vacant? ==> until < p.orgSlot.at + SLOT_TTL as real)
  }

  ghost predicate Enabled(cfg: Config, s: State, a: Action) {
    match a
    case Arrive(req) => Billable(req.resource)
    case Pass(until) => s.now <= until && forall p :: p in s.procs ==> Tolerates(p, s.now, until)
    case Issue(i, _) => i < |s.procs| && Ask(cfg, s.procs[i]).Some?
    case Receive(i, input) => i < |s.procs| && Expects(s.procs[i], input)
    case Send(i, _) => i < |s.procs| && s.procs[i].pc.Emit? && s.procs[i].pc.todo != []
    case Drain(step) => !step.Emit? && Usage.Enabled(s.usage, step)
    case Foreign(c, _) => c.key.BucketKey? || c.key.LimitKey?
  }

  function Perform(store: Plain, c: Command, fault: Fault, now: real): (Plain, Reply) {
    match fault
    case NoFault => PlainStep(store, c, At(now))
    case Skipped => (store, Raised)
    case Applied => (PlainStep(store, c, At(now)).0, Raised)
  }

  function Blame(s: State, key: Key, fault: Fault): map<Key, nat> {
    if fault == NoFault then s.faults else s.faults[key := FaultsOn(s, key) + 1]
  }

  ghost function Next(cfg: Config, s: State, a: Action): State
    requires Enabled(cfg, s, a)
  {
    match a
    case Arrive(req) => s.(procs := s.procs + [Spawn(req)])
    case Pass(until) => s.(now := until)
    case Issue(i, fault) =>
      var c := Ask(cfg, s.procs[i]).value;
      var (store, reply) := Perform(s.store, c, fault, s.now);
      s.(store := store, faults := Blame(s, c.key, fault),
         procs := s.procs[i := Resume(cfg, s.procs[i], reply, fault != Skipped, s.now)])
    case Receive(i, input) => s.(procs := s.procs[i := Hear(s.procs[i], input)])
    case Send(i, delivery) =>
      s.(usage := Usage.Next(s.usage, Usage.Emit(s.procs[i].pc.todo[0], delivery)),
         procs := s.procs[i := Sent(s.procs[i])])
    case Drain(step) => s.(usage := Usage.Next(s.usage, step))
    case Foreign(c, fault) =>
      s.(store := Perform(s.store, c, fault, s.now).0, faults := Blame(s, c.key, fault))
  }

  ghost predicate Legal(cfg: Config, s: State, run: seq<Action>)
    decreases |run|
  {
    run == [] || (Enabled(cfg, s, run[0]) && Legal(cfg, Next(cfg, s, run[0]), run[1..]))
  }

  ghost function Run(cfg: Config, s: State, run: seq<Action>): State
    requires Legal(cfg, s, run)
    decreases |run|
  {
    if run == [] then s else Run(cfg, Next(cfg, s, run[0]), run[1..])
  }

  /** A run starts with no requests, no slot counters and no idempotency records; quota
      counters are what billing has set them to. */
  ghost predicate Startable(start: Plain) {
    forall k :: k in start ==>
      !k.SlotKey? && !k.IdemKey?
          && (k.QuotaKey? ==> start[k].value.Num? && start[k].value.n >= 0 && start[k].expires.None?)
  }

  function Init(start: Plain, now: real): State {
    State(now, start, [], map[], Usage.IDLE)
  }

  /** Request `i` after its next command. */
  function Resumed(cfg: Config, s: State, i: nat, fault: Fault): Proc
    requires i < |s.procs| && Ask(cfg, s.procs[i]).Some?
  {
    Resume(cfg, s.procs[i], Perform(s.store, Ask(cfg, s.procs[i]).value, fault, s.now).1, fault != Skipped, s.now)
  }

  // ---------------------------------------------------------------- counting over all requests

  function Bit(b: bool): nat { if b then 1 else 0 }

  datatype Meter =
    | SlotsOut(key: Key) | SlotsGranted(key: Key) | SlotsLoose(key: Key)
    | UnitsReserved(key: Key) | UnitsOverdrawn(key: Key) | UnitsRefused(key: Key)
    | UnitsReturned(key: Key) | UnitsLost(key: Key)
    | Bills(key: Key) | Answers(key: Key)

  function SlotWeight(m: Meter, slot: Slot): nat {
    match m
    case SlotsOut(_) => if slot.Vacant? then 0 else 1
    case SlotsGranted(_) => if slot.Granted? then 1 else 0
    case SlotsLoose(_) => if !slot.Vacant? && slot.grip.Loose? then 1 else 0
    case _ => 0
  }

  /** A decrement that took effect although it was reported as failed, or a compensation that
      may not have. */
  predicate Unaccounted(u: QuotaUnit) {
    (u.Reserved? && u.blind) || (u.Refused? && u.leaked) || (u.Returned? && u.blind)
  }

  predicate UnitCounts(m: Meter, p: Proc) {
    match m
    case UnitsReserved(_) => p.unit.Reserved?
    case UnitsOverdrawn(_) => p.unit.Overdrawn?
    case UnitsRefused(_) => p.unit.Refused?
    case UnitsReturned(_) => p.unit.Returned?
    case UnitsLost(_) => Unaccounted(p.unit)
    case Bills(_) => HasBilled(p)
    case Answers(_) => p.pc.Done? && p.pc.out.Answered?
    case _ => false
  }

  /** The event that bills the call itself has been sent. */
  predicate HasBilled(p: Proc) {
    match p.pc
    case Emit(_, todo) => todo != [] && IsToken(todo[0])
    case FreeKey(out) => out.Answered?
    case FreeOrg(out) => out.Answered?
    case Done(out) => out.Answered?
    case _ => false
  }

  function Weight(m: Meter, p: Proc): nat {
    if m.SlotsOut? || m.SlotsGranted? || m.SlotsLoose? then
      (if KeySlot(p.req) == m.key then SlotWeight(m, p.keySlot) else 0)
      + (if OrgSlot(p.req) == m.key then SlotWeight(m, p.orgSlot) else 0)
    else if Quota(p.req) == m.key && UnitCounts(m, p) then 1 else 0
  }

  function Total(m: Meter, ps: seq<Proc>): nat {
    if ps == [] then 0 else Total(m, ps[..|ps| - 1]) + Weight(m, ps[|ps| - 1])
  }

  lemma {:induction false} TotalUpdate(m: Meter, ps: seq<Proc>, i: nat, p: Proc)
    requires i < |ps|
    ensures Total(m, ps[i := p]) + Weight(m, ps[i]) == Total(m, ps) + Weight(m, p)
  {
    var qs := ps[i := p];
    if i == |ps| - 1 {
      assert qs[..|qs| - 1] == ps[..|ps| - 1];
    } else {
      assert qs[..|qs| - 1] == ps[..|ps| - 1][i := p];
      TotalUpdate(m, ps[..|ps| - 1], i, p);
    }
  }

  lemma TotalAppend(m: Meter, ps: seq<Proc>, p: Proc)
    ensures Total(m, ps + [p]) == Total(m, ps) + Weight(m, p)
  {
    assert (ps + [p])[..|ps|] == ps;
  }

  lemma {:induction false} TotalCovers(m: Meter, ps: seq<Proc>, i: nat)
    requires i < |ps|
    ensures Weight(m, ps[i]) <= Total(m, ps)
  {
    if i < |ps| - 1 { TotalCovers(m, ps[..|ps| - 1], i); }
  }

  /** A command changes nothing under any other key. */
  lemma KeyUntouched(store: Plain, c: Command, fault: Fault, now: real, key: Key)
    requires c.key != key
    ensures var after := Perform(store, c, fault, now).0;
            (key in after <==> key in store) && (key in store ==> after[key] == store[key])
  {
  }

  /** What holds of every request's weights holds of the totals. */
  lemma {:induction false} TotalAtMost(m: Meter, n: Meter, ps: seq<Proc>)
    requires forall p :: p in ps ==> Weight(m, p) <= Weight(n, p)
    ensures Total(m, ps) <= Total(n, ps)
  {
    if ps != [] {
      TotalAtMost(m, n, ps[..|ps| - 1]);
    }
  }

  // ---------------------------------------------------------------- the local invariant, of everyone, always

  ghost predicate AllFit(cfg: Config, s: State) {
    forall i :: 0 <= i < |s.procs| ==> Fits(cfg, s.procs[i])
  }

  lemma NextFit(cfg: Config, s: State, a: Action)
    requires AllFit(cfg, s) && Enabled(cfg, s, a)
    ensures AllFit(cfg, Next(cfg, s, a))
  {
    match a {
      case Issue(i, fault) =>
        var (store, reply) := Perform(s.store, Ask(cfg, s.procs[i]).value, fault, s.now);
        ResumeFits(cfg, s.procs[i], reply, fault != Skipped, s.now);
      case Receive(i, input) => HearFits(cfg, s.procs[i], input);
      case Send(i, _) => SentFits(cfg, s.procs[i]);
      case _ =>
    }
  }
}
