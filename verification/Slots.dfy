/** The concurrency slots, over every interleaving, through expiry and store failures. */
module Slots {
  import opened Store
  import opened Lifecycle
  import opened System

  function Level(store: Plain, key: Key, now: real): int {
    if Live(store, key, now) && store[key].value.Num? then store[key].value.n else 0
  }

  /** A slot that is out protects the counter it was counted on: while the holder is inside
      its 300 seconds the counter is live, unless a command of the holder itself failed. */
  predicate Protects(store: Plain, key: Key, now: real, slot: Slot) {
    slot.Vacant? ||
    (&& slot.at <= now < slot.at + SLOT_TTL as real
     && (slot.grip.Fresh? ==> Live(store, key, now))
     && (slot.grip.Timed? ==> key in store && Outlasts(store[key], slot.at + SLOT_TTL as real)))
  }

  predicate Outlasts(item: Item, until: real) {
    item.expires.None? || until <= item.expires.value
  }

  predicate Safe(store: Plain, key: Key, now: real, p: Proc) {
    && (KeySlot(p.req) == key ==> Protects(store, key, now, p.keySlot))
    && (OrgSlot(p.req) == key ==> Protects(store, key, now, p.orgSlot))
  }

  function Cap(cfg: Config): nat {
    if cfg.slotLimit > 0 then cfg.slotLimit else 0
  }

  /** `level` is the live counter, `faults` the number of commands on it that failed. */
  predicate Balanced(cfg: Config, level: int, faults: nat, out: nat, granted: nat, loose: nat) {
    && out <= level + faults
    && (faults == 0 ==> out == level)
    && granted <= Cap(cfg) + faults
    && loose <= faults
  }

  ghost predicate InvAt(cfg: Config, store: Plain, now: real, ps: seq<Proc>, faults: nat, key: Key) {
    && (key in store ==> store[key].value.Num?)
    && Balanced(cfg, Level(store, key, now), faults, Total(SlotsOut(key), ps),
                Total(SlotsGranted(key), ps), Total(SlotsLoose(key), ps))
    && (forall i :: 0 <= i < |ps| ==> Safe(store, key, now, ps[i]))
  }

  ghost predicate SlotInv(cfg: Config, s: State, key: Key) {
    InvAt(cfg, s.store, s.now, s.procs, FaultsOn(s, key), key)
  }

  // ---------------------------------------------------------------- one slot, one command

  /** What a store command on a slot counter does to the slot it is about. */
  function Move(cfg: Config, c: Command, slot: Slot, reply: Reply, now: real): Slot {
    match c
    case Incr(_) => if reply.Count? then Counted(cfg, reply.n, now) else Granted(now, Loose)
    case Expire(_, _) => if slot.Vacant? then slot
                         else if reply.Raised? then Granted(slot.at, Loose) else slot.(grip := Timed)
    case _ => Vacant
  }

  predicate Movable(c: Command, slot: Slot) {
    match c
    case Incr(_) => slot.Vacant?
    case Expire(_, seconds) => !slot.Vacant? && slot.grip.Fresh? && seconds == SLOT_TTL
    case Decr(_) => !slot.Vacant? && !slot.grip.Fresh?
    case _ => false
  }

  predicate OnKeySlot(pc: Pc) {
    pc.KeyIncr? || pc.KeyExpire? || pc.KeyUndo? || pc.KeyBack? || pc.FreeKey?
  }

  predicate OnOrgSlot(pc: Pc) {
    pc.OrgIncr? || pc.OrgExpire? || pc.OrgUndo? || pc.FreeOrg?
  }

  predicate SameSlots(p: Proc, q: Proc) {
    q.req == p.req && q.keySlot == p.keySlot && q.orgSlot == p.orgSlot
  }

  predicate MovesKeySlot(cfg: Config, p: Proc, q: Proc, c: Command, reply: Reply, now: real) {
    && c.key == KeySlot(p.req) && Movable(c, p.keySlot)
    && q == p.(keySlot := Move(cfg, c, p.keySlot, reply, now), pc := q.pc)
  }

  predicate MovesOrgSlot(cfg: Config, p: Proc, q: Proc, c: Command, reply: Reply, now: real) {
    && c.key == OrgSlot(p.req) && Movable(c, p.orgSlot)
    && q == p.(orgSlot := Move(cfg, c, p.orgSlot, reply, now), pc := q.pc)
  }

  /** Which of its two slots a request's next command is about, and what becomes of it. */
  lemma SlotStep(cfg: Config, p: Proc, reply: Reply, applied: bool, now: real)
    requires Fits(cfg, p) && Ask(cfg, p).Some?
    ensures var c, q := Ask(cfg, p).value, Resume(cfg, p, reply, applied, now);
            if OnKeySlot(p.pc) then MovesKeySlot(cfg, p, q, c, reply, now)
            else if OnOrgSlot(p.pc) then MovesOrgSlot(cfg, p, q, c, reply, now)
            else !c.key.SlotKey? && SameSlots(p, q)
  {
  }

  /** The counter, the fault count and the slot change so that the balance is kept. */
  lemma MoveBalanced(cfg: Config, store: Plain, key: Key, now: real, c: Command, fault: Fault, slot: Slot,
                     faults: nat, out: nat, granted: nat, loose: nat)
    requires key in store ==> store[key].value.Num?
    requires c.key == key && Movable(c, slot) && Protects(store, key, now, slot)
    requires Balanced(cfg, Level(store, key, now), faults, out, granted, loose) && granted <= out
    requires SlotWeight(SlotsOut(key), slot) <= out
    requires SlotWeight(SlotsGranted(key), slot) <= granted
    requires SlotWeight(SlotsLoose(key), slot) <= loose
    ensures var (store', reply) := Perform(store, c, fault, now);
            var slot' := Move(cfg, c, slot, reply, now);
            && (key in store' ==> store'[key].value.Num?)
            && Balanced(cfg, Level(store', key, now), faults + (if fault == NoFault then 0 else 1),
                        out - SlotWeight(SlotsOut(key), slot) + SlotWeight(SlotsOut(key), slot'),
                        granted - SlotWeight(SlotsGranted(key), slot) + SlotWeight(SlotsGranted(key), slot'),
                        loose - SlotWeight(SlotsLoose(key), slot) + SlotWeight(SlotsLoose(key), slot'))
            && Protects(store', key, now, slot')
  {
  }

  /** No command on a slot counter takes protection away from another holder. */
  lemma MoveProtects(cfg: Config, store: Plain, key: Key, now: real, c: Command, fault: Fault, slot: Slot, other: Slot)
    requires key in store ==> store[key].value.Num?
    requires c.key == key && Movable(c, slot) && Protects(store, key, now, slot)
    requires Protects(store, key, now, other)
    ensures Protects(Perform(store, c, fault, now).0, key, now, other)
  {
  }

  // ---------------------------------------------------------------- every step keeps the balance

  lemma OutWeights(key: Key, ps: seq<Proc>)
    ensures Total(SlotsGranted(key), ps) <= Total(SlotsOut(key), ps)
  {
    TotalAtMost(SlotsGranted(key), SlotsOut(key), ps);
  }

  /** A step that leaves the counter and everyone's slots alone. */
  lemma InvSame(cfg: Config, store: Plain, after: Plain, now: real, ps: seq<Proc>, i: nat, q: Proc, faults: nat,
        key: Key)
    requires InvAt(cfg, store, now, ps, faults, key)
    requires (key in after <==> key in store) && (key in store ==> after[key] == store[key])
    requires i < |ps|
    requires forall m: Meter :: (m.SlotsOut? || m.SlotsGranted? || m.SlotsLoose?) && m.key == key ==>
             Weight(m, q) == Weight(m, ps[i])
    requires Safe(after, key, now, q)
    ensures InvAt(cfg, after, now, ps[i := q], faults, key)
  {
    TotalUpdate(SlotsOut(key), ps, i, q);
    TotalUpdate(SlotsGranted(key), ps, i, q);
    TotalUpdate(SlotsLoose(key), ps, i, q);
  }

  /** Exactly one of the two slots changes. */
  lemma WeightShift(m: Meter, p: Proc, q: Proc, slot: Slot, slot': Slot)
    requires m.SlotsOut? || m.SlotsGranted? || m.SlotsLoose?
    requires q.req == p.req
    requires (KeySlot(p.req) == m.key && p.keySlot == slot && q.keySlot == slot' && q.orgSlot == p.orgSlot)
          || (OrgSlot(p.req) == m.key && p.orgSlot == slot && q.orgSlot == slot' && q.keySlot == p.keySlot)
    ensures Weight(m, q) + SlotWeight(m, slot) == Weight(m, p) + SlotWeight(m, slot')
    ensures SlotWeight(m, slot) <= Weight(m, p)
  {
  }

  lemma TotalShift(m: Meter, ps: seq<Proc>, i: nat, q: Proc, slot: Slot, slot': Slot)
    requires i < |ps|
    requires Weight(m, q) + SlotWeight(m, slot) == Weight(m, ps[i]) + SlotWeight(m, slot')
    requires SlotWeight(m, slot) <= Weight(m, ps[i])
    ensures SlotWeight(m, slot) <= Total(m, ps)
    ensures Total(m, ps[i := q]) == Total(m, ps) - SlotWeight(m, slot) + SlotWeight(m, slot')
  {
    TotalUpdate(m, ps, i, q);
    TotalCovers(m, ps, i);
  }

  /** A step that moves one slot on the counter. */
  lemma InvMoved(cfg: Config, store: Plain, now: real, ps: seq<Proc>, i: nat, q: Proc, c: Command, fault: Fault,
                 slot: Slot, faults: nat, key: Key)
    requires InvAt(cfg, store, now, ps, faults, key) && i < |ps|
    requires c.key == key && Movable(c, slot) && q.req == ps[i].req
    requires var slot' := Move(cfg, c, slot, Perform(store, c, fault, now).1, now);
             || (KeySlot(q.req) == key && ps[i].keySlot == slot && q.keySlot == slot' && q.orgSlot == ps[i].orgSlot)
             || (OrgSlot(q.req) == key && ps[i].orgSlot == slot && q.orgSlot == slot' && q.keySlot == ps[i].keySlot)
    ensures InvAt(cfg, Perform(store, c, fault, now).0, now, ps[i := q],
                  faults + (if fault == NoFault then 0 else 1), key)
  {
    var (after, reply) := Perform(store, c, fault, now);
    var slot' := Move(cfg, c, slot, reply, now);
    assert Safe(store, key, now, ps[i]);
    MovedTotals(cfg, store, now, ps, i, q, c, fault, slot, faults, key);
    var qs := ps[i := q];
    forall j | 0 <= j < |qs| ensures Safe(after, key, now, qs[j]) {
      MovedSafe(cfg, store, now, ps[j], c, fault, slot, key);
    }
  }

  lemma MovedSafe(cfg: Config, store: Plain, now: real, p: Proc, c: Command, fault: Fault, slot: Slot, key: Key)
    requires key in store ==> store[key].value.Num?
    requires c.key == key && Movable(c, slot) && Protects(store, key, now, slot)
    requires Safe(store, key, now, p)
    ensures Safe(Perform(store, c, fault, now).0, key, now, p)
  {
    if KeySlot(p.req) == key { MoveProtects(cfg, store, key, now, c, fault, slot, p.keySlot); }
    if OrgSlot(p.req) == key { MoveProtects(cfg, store, key, now, c, fault, slot, p.orgSlot); }
  }

  lemma MovedTotals(cfg: Config, store: Plain, now: real, ps: seq<Proc>, i: nat, q: Proc, c: Command, fault: Fault,
                    slot: Slot, faults: nat, key: Key)
    requires InvAt(cfg, store, now, ps, faults, key) && i < |ps|
    requires c.key == key && Movable(c, slot) && q.req == ps[i].req
    requires var slot' := Move(cfg, c, slot, Perform(store, c, fault, now).1, now);
             || (KeySlot(q.req) == key && ps[i].keySlot == slot && q.keySlot == slot' && q.orgSlot == ps[i].orgSlot)
             || (OrgSlot(q.req) == key && ps[i].orgSlot == slot && q.orgSlot == slot' && q.keySlot == ps[i].keySlot)
    ensures var (after, reply) := Perform(store, c, fault, now);
            && (key in after ==> after[key].value.Num?)
            && Balanced(cfg, Level(after, key, now), faults + (if fault == NoFault then 0 else 1),
                        Total(SlotsOut(key), ps[i := q]), Total(SlotsGranted(key), ps[i := q]),
                        Total(SlotsLoose(key), ps[i := q]))
            && Protects(after, key, now, Move(cfg, c, slot, reply, now))
            && Protects(store, key, now, slot)
  {
    var (after, reply) := Perform(store, c, fault, now);
    var slot' := Move(cfg, c, slot, reply, now);
    assert Safe(store, key, now, ps[i]);
    WeightShift(SlotsOut(key), ps[i], q, slot, slot');
    WeightShift(SlotsGranted(key), ps[i], q, slot, slot');
    WeightShift(SlotsLoose(key), ps[i], q, slot, slot');
    TotalShift(SlotsOut(key), ps, i, q, slot, slot');
    TotalShift(SlotsGranted(key), ps, i, q, slot, slot');
    TotalShift(SlotsLoose(key), ps, i, q, slot, slot');
    OutWeights(key, ps);
    MoveBalanced(cfg, store, key, now, c, fault, slot, faults, Total(SlotsOut(key), ps),
                 Total(SlotsGranted(key), ps), Total(SlotsLoose(key), ps));
  }

  // ---------------------------------------------------------------- every action

  lemma SameWeights(p: Proc, q: Proc, key: Key, store: Plain, now: real)
    requires SameSlots(p, q)
    ensures forall m: Meter :: (m.SlotsOut? || m.SlotsGranted? || m.SlotsLoose?) && m.key == key ==>
            Weight(m, q) == Weight(m, p)
    ensures Safe(store, key, now, p) ==> Safe(store, key, now, q)
  {
  }

  lemma IssueKeeps(cfg: Config, s: State, i: nat, fault: Fault, key: Key)
    requires AllFit(cfg, s) && key.SlotKey? && SlotInv(cfg, s, key) && Enabled(cfg, s, Issue(i, fault))
    ensures SlotInv(cfg, Next(cfg, s, Issue(i, fault)), key)
  {
    if Ask(cfg, s.procs[i]).value.key == key { IssueHere(cfg, s, i, fault, key); }
    else { IssueElsewhere(cfg, s, i, fault, key); }
  }

  lemma IssueHere(cfg: Config, s: State, i: nat, fault: Fault, key: Key)
    requires AllFit(cfg, s) && key.SlotKey? && SlotInv(cfg, s, key) && Enabled(cfg, s, Issue(i, fault))
    requires Ask(cfg, s.procs[i]).value.key == key
    ensures SlotInv(cfg, Next(cfg, s, Issue(i, fault)), key)
  {
    var p, c := s.procs[i], Ask(cfg, s.procs[i]).value;
    SlotStep(cfg, p, Perform(s.store, c, fault, s.now).1, fault != Skipped, s.now);
    InvMoved(cfg, s.store, s.now, s.procs, i, Resumed(cfg, s, i, fault), c, fault,
             if OnKeySlot(p.pc) then p.keySlot else p.orgSlot, FaultsOn(s, key), key);
  }

  lemma IssueElsewhere(cfg: Config, s: State, i: nat, fault: Fault, key: Key)
    requires AllFit(cfg, s) && key.SlotKey? && SlotInv(cfg, s, key) && Enabled(cfg, s, Issue(i, fault))
    requires Ask(cfg, s.procs[i]).value.key != key
    ensures SlotInv(cfg, Next(cfg, s, Issue(i, fault)), key)
  {
    var p, c, q := s.procs[i], Ask(cfg, s.procs[i]).value, Resumed(cfg, s, i, fault);
    var (after, reply) := Perform(s.store, c, fault, s.now);
    SlotStep(cfg, p, reply, fault != Skipped, s.now);
    KeyUntouched(s.store, c, fault, s.now, key);
    ElsewhereKeeps(cfg, s, i, q, c, reply, after, Blame(s, c.key, fault), key);
  }

  /** A step that touches another counter, or none. */
  lemma ElsewhereKeeps(cfg: Config, s: State, i: nat, q: Proc, c: Command, reply: Reply, after: Plain,
        faults: map<Key, nat>, key: Key)
    requires SlotInv(cfg, s, key) && i < |s.procs| && c.key != key
    requires (key in after <==> key in s.store) && (key in s.store ==> after[key] == s.store[key])
    requires || MovesKeySlot(cfg, s.procs[i], q, c, reply, s.now) || MovesOrgSlot(cfg, s.procs[i], q, c, reply, s.now)
             || SameSlots(s.procs[i], q)
    requires FaultsOn(s.(faults := faults), key) == FaultsOn(s, key)
    ensures SlotInv(cfg, s.(store := after, faults := faults, procs := s.procs[i := q]), key)
  {
    assert Safe(s.store, key, s.now, s.procs[i]);
    OtherSlot(cfg, s.procs[i], q, c, reply, s.store, after, s.now, key);
    InvSame(cfg, s.store, after, s.now, s.procs, i, q, FaultsOn(s, key), key);
  }

  /** A command on another counter changes none of the weights on this one, and protects it
      no less. */
  lemma OtherSlot(cfg: Config, p: Proc, q: Proc, c: Command, reply: Reply, store: Plain, after: Plain, now: real,
        key: Key)
    requires c.key != key && Safe(store, key, now, p)
    requires (key in after <==> key in store) && (key in store ==> after[key] == store[key])
    requires MovesKeySlot(cfg, p, q, c, reply, now) || MovesOrgSlot(cfg, p, q, c, reply, now) || SameSlots(p, q)
    ensures forall m: Meter :: (m.SlotsOut? || m.SlotsGranted? || m.SlotsLoose?) && m.key == key ==>
            Weight(m, q) == Weight(m, p)
    ensures Safe(after, key, now, q)
  {
  }

  /** When the counter expires, only requests whose own commands failed can still hold a slot. */
  lemma PassKeeps(cfg: Config, s: State, until: real, key: Key)
    requires key.SlotKey? && SlotInv(cfg, s, key) && Enabled(cfg, s, Pass(until)) && AllFit(cfg, s)
    ensures SlotInv(cfg, Next(cfg, s, Pass(until)), key)
  {
    forall i | 0 <= i < |s.procs| ensures Safe(s.store, key, until, s.procs[i]) {
      PassSafe(cfg, s.store, s.now, until, key, s.procs[i]);
    }
    if Live(s.store, key, s.now) && !Live(s.store, key, until) {
      forall p | p in s.procs ensures Weight(SlotsOut(key), p) <= Weight(SlotsLoose(key), p) {
        var i :| 0 <= i < |s.procs| && s.procs[i] == p;
        PassSafe(cfg, s.store, s.now, until, key, p);
      }
      TotalAtMost(SlotsOut(key), SlotsLoose(key), s.procs);
    }
  }

  lemma PassSafe(cfg: Config, store: Plain, now: real, until: real, key: Key, p: Proc)
    requires Fits(cfg, p) && Safe(store, key, now, p) && now <= until && Tolerates(p, now, until)
    ensures Safe(store, key, until, p)
    ensures !Live(store, key, until) ==> Weight(SlotsOut(key), p) <= Weight(SlotsLoose(key), p)
  {
  }

  lemma ArriveKeeps(cfg: Config, s: State, req: Request, key: Key)
    requires key.SlotKey? && SlotInv(cfg, s, key)
    ensures InvAt(cfg, s.store, s.now, s.procs + [Spawn(req)], FaultsOn(s, key), key)
  {
    TotalAppend(SlotsOut(key), s.procs, Spawn(req));
    TotalAppend(SlotsGranted(key), s.procs, Spawn(req));
    TotalAppend(SlotsLoose(key), s.procs, Spawn(req));
    SpawnVacant(req, s.store, key, s.now);
    var ps := s.procs + [Spawn(req)];
    forall i | 0 <= i < |ps| ensures Safe(s.store, key, s.now, ps[i]) {
      assert i < |s.procs| ==> ps[i] == s.procs[i];
    }
  }

  lemma SpawnVacant(req: Request, store: Plain, key: Key, now: real)
    ensures forall m: Meter :: m.SlotsOut? || m.SlotsGranted? || m.SlotsLoose? ==> Weight(m, Spawn(req)) == 0
    ensures Safe(store, key, now, Spawn(req))
  {
  }

  lemma LocalKeeps(cfg: Config, s: State, i: nat, q: Proc, key: Key)
    requires key.SlotKey? && SlotInv(cfg, s, key) && i < |s.procs| && SameSlots(s.procs[i], q)
    ensures InvAt(cfg, s.store, s.now, s.procs[i := q], FaultsOn(s, key), key)
  {
    SameWeights(s.procs[i], q, key, s.store, s.now);
    InvSame(cfg, s.store, s.store, s.now, s.procs, i, q, FaultsOn(s, key), key);
  }

  lemma ForeignKeeps(cfg: Config, s: State, c: Command, fault: Fault, key: Key)
    requires SlotInv(cfg, s, key) && c.key != key
    ensures InvAt(cfg, Perform(s.store, c, fault, s.now).0, s.now, s.procs, FaultsOn(s, key), key)
  {
    KeyUntouched(s.store, c, fault, s.now, key);
  }

  lemma SlotNext(cfg: Config, s: State, a: Action, key: Key)
    requires AllFit(cfg, s) && key.SlotKey? && SlotInv(cfg, s, key) && Enabled(cfg, s, a)
    ensures SlotInv(cfg, Next(cfg, s, a), key)
  {
    match a {
      case Arrive(req) => ArriveKeeps(cfg, s, req, key);
      case Pass(until) => PassKeeps(cfg, s, until, key);
      case Issue(i, fault) => IssueKeeps(cfg, s, i, fault, key);
      case Receive(i, input) => LocalKeeps(cfg, s, i, Hear(s.procs[i], input), key);
      case Send(i, delivery) => LocalKeeps(cfg, s, i, Sent(s.procs[i]), key);
      case Drain(step) =>
      case Foreign(c, fault) => ForeignKeeps(cfg, s, c, fault, key);
    }
  }
}
