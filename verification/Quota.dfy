/** The prepaid quota counter, over every interleaving of reservations, compensations and
    refunds, with and without store failures. */
module Quota {
  import opened Store
  import opened Lifecycle
  import opened System

  /** The tallies of one quota key. `start` is what billing had set the counter to. */
  datatype Tally = Tally(start: int, counter: int, faults: int, reserved: int, overdrawn: int, refused: int,
        returned: int, lost: int)

  /** Units are conserved; failures can only let `faults` more reservations through. */
  predicate Conserved(t: Tally) {
    && t.counter + t.reserved + t.overdrawn + t.lost <= t.start + t.faults
    && 0 <= t.counter + t.overdrawn + t.lost
    && (t.faults == 0 ==> t.lost == 0)
    && (t.faults == 0 ==> t.counter + t.reserved + t.overdrawn == t.start)
    && (t.faults == 0 && t.returned == 0 && t.overdrawn + t.refused > 0 ==> t.reserved == t.start)
  }

  /** A counter billing has set: a number that never expires. */
  predicate Metered(store: Plain, key: Key) {
    key in store && store[key].value.Num? && store[key].expires.None?
  }

  ghost function TallyOf(start: int, store: Plain, ps: seq<Proc>, faults: nat, key: Key): Tally
    requires Metered(store, key)
  {
    Tally(start, store[key].value.n, faults, Total(UnitsReserved(key), ps), Total(UnitsOverdrawn(key), ps),
          Total(UnitsRefused(key), ps), Total(UnitsReturned(key), ps), Total(UnitsLost(key), ps))
  }

  ghost predicate QuotaInv(start: int, s: State, key: Key) {
    Metered(s.store, key) && Conserved(TallyOf(start, s.store, s.procs, FaultsOn(s, key), key))
  }

  /** An organization without a quota key: nobody ever creates it. */
  ghost predicate UnmeteredInv(s: State, key: Key) {
    && key !in s.store
    && (forall i :: 0 <= i < |s.procs| && Lifecycle.Quota(s.procs[i].req) == key ==> !AtCounter(s.procs[i].pc))
  }

  predicate AtCounter(pc: Pc) {
    pc.QuotaDecr? || pc.QuotaUndo? || pc.RefundIncr?
  }

  // ---------------------------------------------------------------- one unit, one command

  /** What becomes of a request's unit when it goes on from `pc`. */
  function MoveUnit(pc: Pc, unit: QuotaUnit, reply: Reply, applied: bool): QuotaUnit {
    match pc
    case QuotaGet => if reply.Found? then unit else Reserved(false)
    case QuotaDecr => if !reply.Count? then Reserved(applied) else if reply.n < 0 then Overdrawn else Reserved(false)
    case QuotaUndo => Refused(reply.Raised?)
    case RefundGet(_) => if reply.Found? then unit else Returned(unit.Reserved? && unit.blind)
    case RefundIncr(_) => Returned(unit.Reserved? && unit.blind)
    case _ => unit
  }

  predicate UnitCommand(pc: Pc, c: Command) {
    match pc
    case QuotaGet => c.Get?
    case QuotaDecr => c.Decr?
    case QuotaUndo => c.Incr?
    case RefundGet(_) => c.Get?
    case RefundIncr(_) => c.Incr?
    case _ => false
  }

  predicate UnitShape(pc: Pc, unit: QuotaUnit) {
    match pc
    case QuotaGet => unit.Untouched?
    case QuotaDecr => unit.Untouched?
    case QuotaUndo => unit.Overdrawn?
    case RefundGet(_) => unit.Reserved?
    case RefundIncr(_) => unit.Reserved?
    case _ => false
  }

  lemma UnitStep(cfg: Config, p: Proc, reply: Reply, applied: bool, now: real)
    requires Fits(cfg, p) && Ask(cfg, p).Some?
    ensures var c, q := Ask(cfg, p).value, Resume(cfg, p, reply, applied, now);
            && q.req == p.req && q.unit == MoveUnit(p.pc, p.unit, reply, applied)
            && (AtQuota(p.pc) ==> c.key == Lifecycle.Quota(p.req) && UnitCommand(p.pc, c) && UnitShape(p.pc, p.unit))
            && (!AtQuota(p.pc) ==> !c.key.QuotaKey?)
  {
  }

  function Turn(t: Tally, from: QuotaUnit, to: QuotaUnit, counter: int, faults: int): Tally {
    Tally(t.start, counter, faults,
          t.reserved - Bit(from.Reserved?) + Bit(to.Reserved?),
          t.overdrawn - Bit(from.Overdrawn?) + Bit(to.Overdrawn?),
          t.refused - Bit(from.Refused?) + Bit(to.Refused?),
          t.returned - Bit(from.Returned?) + Bit(to.Returned?),
          t.lost - Bit(Unaccounted(from)) + Bit(Unaccounted(to)))
  }

  predicate Natural(t: Tally) {
    0 <= t.faults && 0 <= t.reserved && 0 <= t.overdrawn && 0 <= t.refused && 0 <= t.returned && 0 <= t.lost
  }

  /** One quota command of one request conserves the units. */
  lemma TurnConserved(store: Plain, key: Key, now: real, pc: Pc, c: Command, fault: Fault, unit: QuotaUnit, t: Tally)
    requires Metered(store, key) && c.key == key && UnitCommand(pc, c) && UnitShape(pc, unit)
    requires t.counter == store[key].value.n && Natural(t) && Conserved(t)
    requires Bit(unit.Overdrawn?) <= t.overdrawn && Bit(unit.Reserved?) <= t.reserved
    ensures var (after, reply) := Perform(store, c, fault, now);
            && Metered(after, key)
            && Conserved(Turn(t, unit, MoveUnit(pc, unit, reply, fault != Skipped), after[key].value.n,
                              t.faults + Bit(fault != NoFault)))
  {
  }

  // ---------------------------------------------------------------- every step conserves

  lemma UnitShift(ps: seq<Proc>, i: nat, q: Proc, start: int, store: Plain, after: Plain, faults: nat, faults': nat,
        key: Key)
    requires i < |ps| && Metered(store, key) && Metered(after, key)
    requires q.req == ps[i].req && Lifecycle.Quota(q.req) == key
    ensures TallyOf(start, after, ps[i := q], faults', key)
            == Turn(TallyOf(start, store, ps, faults, key), ps[i].unit, q.unit, after[key].value.n, faults')
  {
    TotalUpdate(UnitsReserved(key), ps, i, q);
    TotalUpdate(UnitsOverdrawn(key), ps, i, q);
    TotalUpdate(UnitsRefused(key), ps, i, q);
    TotalUpdate(UnitsReturned(key), ps, i, q);
    TotalUpdate(UnitsLost(key), ps, i, q);
  }

  lemma UnitSame(ps: seq<Proc>, i: nat, q: Proc, start: int, store: Plain, after: Plain, faults: nat, key: Key)
    requires i < |ps| && Metered(store, key) && Metered(after, key) && after[key] == store[key]
    requires q.req == ps[i].req && (q.unit == ps[i].unit || Lifecycle.Quota(q.req) != key)
    ensures TallyOf(start, after, ps[i := q], faults, key) == TallyOf(start, store, ps, faults, key)
  {
    TotalUpdate(UnitsReserved(key), ps, i, q);
    TotalUpdate(UnitsOverdrawn(key), ps, i, q);
    TotalUpdate(UnitsRefused(key), ps, i, q);
    TotalUpdate(UnitsReturned(key), ps, i, q);
    TotalUpdate(UnitsLost(key), ps, i, q);
  }

  /** A quota command of request `i` on the counter itself. */
  lemma MovedConserved(start: int, store: Plain, now: real, ps: seq<Proc>, i: nat, q: Proc, c: Command, fault: Fault,
                       faults: nat, key: Key)
    requires i < |ps| && Metered(store, key) && Conserved(TallyOf(start, store, ps, faults, key))
    requires c.key == key && q.req == ps[i].req && Lifecycle.Quota(q.req) == key
    requires UnitCommand(ps[i].pc, c) && UnitShape(ps[i].pc, ps[i].unit)
    requires q.unit == MoveUnit(ps[i].pc, ps[i].unit, Perform(store, c, fault, now).1, fault != Skipped)
    ensures var after := Perform(store, c, fault, now).0;
            Metered(after, key)
            && Conserved(TallyOf(start, after, ps[i := q], faults + (if fault == NoFault then 0 else 1), key))
  {
    var t := TallyOf(start, store, ps, faults, key);
    TotalCovers(UnitsReserved(key), ps, i);
    TotalCovers(UnitsOverdrawn(key), ps, i);
    TurnConserved(store, key, now, ps[i].pc, c, fault, ps[i].unit, t);
    UnitShift(ps, i, q, start, store, Perform(store, c, fault, now).0, faults,
              faults + (if fault == NoFault then 0 else 1), key);
  }

  lemma IssueHere(cfg: Config, start: int, s: State, i: nat, fault: Fault, key: Key)
    requires AllFit(cfg, s) && key.QuotaKey? && QuotaInv(start, s, key) && Enabled(cfg, s, Issue(i, fault))
    requires Ask(cfg, s.procs[i]).value.key == key
    ensures QuotaInv(start, Next(cfg, s, Issue(i, fault)), key)
  {
    var p, c := s.procs[i], Ask(cfg, s.procs[i]).value;
    UnitStep(cfg, p, Perform(s.store, c, fault, s.now).1, fault != Skipped, s.now);
    MovedConserved(start, s.store, s.now, s.procs, i, Resumed(cfg, s, i, fault), c, fault, FaultsOn(s, key), key);
  }

  lemma IssueElsewhere(cfg: Config, start: int, s: State, i: nat, fault: Fault, key: Key)
    requires AllFit(cfg, s) && key.QuotaKey? && QuotaInv(start, s, key) && Enabled(cfg, s, Issue(i, fault))
    requires Ask(cfg, s.procs[i]).value.key != key
    ensures QuotaInv(start, Next(cfg, s, Issue(i, fault)), key)
  {
    var p, c := s.procs[i], Ask(cfg, s.procs[i]).value;
    var (after, reply) := Perform(s.store, c, fault, s.now);
    UnitElsewhere(cfg, p, reply, fault != Skipped, s.now, key);
    KeyUntouched(s.store, c, fault, s.now, key);
    ElsewhereKeeps(start, s, i, Resumed(cfg, s, i, fault), after, Blame(s, c.key, fault), key);
  }

  /** A step that touches neither the counter nor anybody's unit of it. */
  lemma ElsewhereKeeps(start: int, s: State, i: nat, q: Proc, after: Plain, faults: map<Key, nat>, key: Key)
    requires QuotaInv(start, s, key) && i < |s.procs| && key in after && after[key] == s.store[key]
    requires q.req == s.procs[i].req && (q.unit == s.procs[i].unit || Lifecycle.Quota(q.req) != key)
    requires FaultsOn(s.(faults := faults), key) == FaultsOn(s, key)
    ensures QuotaInv(start, s.(store := after, faults := faults, procs := s.procs[i := q]), key)
  {
    UnitSame(s.procs, i, q, start, s.store, after, FaultsOn(s, key), key);
  }

  /** A command on another key is about no unit of this one. */
  lemma UnitElsewhere(cfg: Config, p: Proc, reply: Reply, applied: bool, now: real, key: Key)
    requires Fits(cfg, p) && Ask(cfg, p).Some? && key.QuotaKey? && Ask(cfg, p).value.key != key
    ensures var q := Resume(cfg, p, reply, applied, now);
            q.req == p.req && (q.unit == p.unit || Lifecycle.Quota(q.req) != key)
  {
    UnitStep(cfg, p, reply, applied, now);
  }

  lemma ArriveKeeps(s: State, req: Request, start: int, key: Key)
    requires QuotaInv(start, s, key)
    ensures QuotaInv(start, s.(procs := s.procs + [Spawn(req)]), key)
  {
    TotalAppend(UnitsReserved(key), s.procs, Spawn(req));
    TotalAppend(UnitsOverdrawn(key), s.procs, Spawn(req));
    TotalAppend(UnitsRefused(key), s.procs, Spawn(req));
    TotalAppend(UnitsReturned(key), s.procs, Spawn(req));
    TotalAppend(UnitsLost(key), s.procs, Spawn(req));
  }

  lemma QuotaNext(cfg: Config, start: int, s: State, a: Action, key: Key)
    requires AllFit(cfg, s) && key.QuotaKey? && QuotaInv(start, s, key) && Enabled(cfg, s, a)
    ensures QuotaInv(start, Next(cfg, s, a), key)
  {
    match a {
      case Arrive(req) => ArriveKeeps(s, req, start, key);
      case Pass(until) =>
      case Issue(i, fault) =>
        if Ask(cfg, s.procs[i]).value.key == key { IssueHere(cfg, start, s, i, fault, key); }
        else { IssueElsewhere(cfg, start, s, i, fault, key); }
      case Receive(i, input) =>
        UnitSame(s.procs, i, Hear(s.procs[i], input), start, s.store, s.store, FaultsOn(s, key), key);
      case Send(i, delivery) =>
        UnitSame(s.procs, i, Sent(s.procs[i]), start, s.store, s.store, FaultsOn(s, key), key);
      case Drain(step) =>
      case Foreign(c, fault) => KeyUntouched(s.store, c, fault, s.now, key);
    }
  }

  lemma UnmeteredIssue(cfg: Config, s: State, i: nat, fault: Fault, key: Key)
    requires AllFit(cfg, s) && key.QuotaKey? && UnmeteredInv(s, key) && Enabled(cfg, s, Issue(i, fault))
    ensures UnmeteredInv(Next(cfg, s, Issue(i, fault)), key)
  {
    var p, c := s.procs[i], Ask(cfg, s.procs[i]).value;
    var (after, reply) := Perform(s.store, c, fault, s.now);
    var q := Resume(cfg, p, reply, fault != Skipped, s.now);
    UnitStep(cfg, p, reply, fault != Skipped, s.now);
    if c.key != key { KeyUntouched(s.store, c, fault, s.now, key); }
    if Lifecycle.Quota(p.req) == key { UnmeteredStep(cfg, p, reply, fault != Skipped, s.now); }
  }

  /** Only a value found under the key leads a request to change it. */
  lemma UnmeteredStep(cfg: Config, p: Proc, reply: Reply, applied: bool, now: real)
    requires Fits(cfg, p) && Ask(cfg, p).Some? && !AtCounter(p.pc)
    requires AtQuota(p.pc) ==> !reply.Found?
    ensures !AtCounter(Resume(cfg, p, reply, applied, now).pc)
  {
  }

  lemma UnmeteredNext(cfg: Config, s: State, a: Action, key: Key)
    requires AllFit(cfg, s) && key.QuotaKey? && UnmeteredInv(s, key) && Enabled(cfg, s, a)
    ensures UnmeteredInv(Next(cfg, s, a), key)
  {
    match a {
      case Issue(i, fault) => UnmeteredIssue(cfg, s, i, fault, key);
      case Receive(i, input) =>
      case Foreign(c, fault) => KeyUntouched(s.store, c, fault, s.now, key);
      case _ =>
    }
  }
}
