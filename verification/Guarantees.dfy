/** What every run guarantees: any number of requests, interleaved command by command, with
    any command failing at any time unless a statement says otherwise. */
module Guarantees {
  import opened Store
  import opened Lifecycle
  import opened System
  import Slots
  import Q = Quota
  import Idempotency
  import Billing
  import Usage
  import EventIds
  import DedupKeys
  import Outcomes
  import Amounts

  ghost predicate QuotaHolds(start: Plain, s: State, key: Key) {
    if key in start then start[key].value.Num? && Q.QuotaInv(start[key].value.n, s, key) else Q.UnmeteredInv(s, key)
  }

  ghost predicate Inv(cfg: Config, start: Plain, s: State) {
    && AllFit(cfg, s) && Outcomes.AllExplained(s)
    && (forall key: Key :: key.SlotKey? ==> Slots.SlotInv(cfg, s, key))
    && (forall key: Key :: key.QuotaKey? ==> QuotaHolds(start, s, key))
    && (forall key: Key :: key.IdemKey? ==> Idempotency.IdemInv(cfg, s, key))
    && (forall key: Key :: Billing.BillInv(s, key))
    && (forall id: string :: EventIds.IdInv(s, id))
    && (forall org: string, resource: Resource :: Amounts.AmountInv(s, org, resource))
    && Usage.Kept(s.usage) && Usage.Exact(s.usage)
  }

  lemma NextQuotaHolds(cfg: Config, start: Plain, s: State, a: Action, key: Key)
    requires AllFit(cfg, s) && key.QuotaKey? && QuotaHolds(start, s, key) && Enabled(cfg, s, a)
    ensures QuotaHolds(start, Next(cfg, s, a), key)
  {
    if key in start { Q.QuotaNext(cfg, start[key].value.n, s, a, key); } else { Q.UnmeteredNext(cfg, s, a, key); }
  }

  lemma InvNext(cfg: Config, start: Plain, s: State, a: Action)
    requires Inv(cfg, start, s) && Enabled(cfg, s, a)
    ensures Inv(cfg, start, Next(cfg, s, a))
  {
    var s' := Next(cfg, s, a);
    NextFit(cfg, s, a);
    forall key: Key | key.SlotKey? ensures Slots.SlotInv(cfg, s', key) { Slots.SlotNext(cfg, s, a, key); }
    forall key: Key | key.QuotaKey? ensures QuotaHolds(start, s', key) { NextQuotaHolds(cfg, start, s, a, key); }
    forall key: Key | key.IdemKey? ensures Idempotency.IdemInv(cfg, s', key) { Idempotency.IdemNext(cfg, s, a, key); }
    forall key: Key ensures Billing.BillInv(s', key) { Billing.BillNext(cfg, s, a, key); }
    forall id: string ensures EventIds.IdInv(s', id) { EventIds.IdNext(cfg, s, a, id); }
    Outcomes.NextExplained(cfg, s, a);
    forall org: string, resource: Resource ensures Amounts.AmountInv(s', org, resource) {
      Amounts.AmountNext(cfg, s, a, org, resource);
    }
    Billing.UsageNext(cfg, s, a);
  }

  lemma InvInit(cfg: Config, start: Plain, now: real)
    requires Startable(start)
    ensures Inv(cfg, start, Init(start, now))
  {
    var s := Init(start, now);
    forall key: Key | key.SlotKey? ensures Slots.SlotInv(cfg, s, key) {}
    forall key: Key | key.QuotaKey? ensures QuotaHolds(start, s, key) {}
    forall key: Key | key.IdemKey? ensures Idempotency.IdemInv(cfg, s, key) { NoRecords(cfg, start, now, key); }
    forall key: Key ensures Billing.BillInv(s, key) {}
    forall id: string ensures EventIds.IdInv(s, id) {}
    forall org: string, resource: Resource ensures Amounts.AmountInv(s, org, resource) {}
  }

  lemma NoRecords(cfg: Config, start: Plain, now: real, key: Key)
    requires Startable(start) && key.IdemKey?
    ensures Idempotency.IdemInv(cfg, Init(start, now), key)
  {
  }

  lemma {:induction false} InvRun(cfg: Config, start: Plain, s: State, run: seq<Action>)
    requires Inv(cfg, start, s) && Legal(cfg, s, run)
    ensures Inv(cfg, start, Run(cfg, s, run))
    decreases |run|
  {
    if run != [] {
      InvNext(cfg, start, s, run[0]);
      InvRun(cfg, start, Next(cfg, s, run[0]), run[1..]);
    }
  }

  ghost predicate Reached(cfg: Config, start: Plain, now: real, run: seq<Action>, s: State) {
    Startable(start) && Legal(cfg, Init(start, now), run) && s == Run(cfg, Init(start, now), run)
  }

  lemma InvReached(cfg: Config, start: Plain, now: real, run: seq<Action>, s: State)
    requires Reached(cfg, start, now, run, s)
    ensures Inv(cfg, start, s)
  {
    InvInit(cfg, start, now);
    InvRun(cfg, start, Init(start, now), run);
  }

  // ---------------------------------------------------------------- quota

  ghost predicate Quiescent(s: State) {
    forall i :: 0 <= i < |s.procs| ==> s.procs[i].pc.Done?
  }

  function Counter(s: State, key: Key): int
    requires key in s.store && s.store[key].value.Num?
  {
    s.store[key].value.n
  }

  /** At every moment the counter, the units reserved or billed, and the denials not yet
      compensated add up to what billing had set. So the counter is below zero exactly while
      the reservations and the pending denials together exceed what there was, it is never
      further below than the denials are many, and no more units are reserved than there
      were. */
  lemma QuotaConservation(cfg: Config, start: Plain, now: real, run: seq<Action>, s: State, key: Key)
    requires Reached(cfg, start, now, run, s) && key.QuotaKey? && key in start && FaultsOn(s, key) == 0
    ensures key in s.store && s.store[key].value.Num? && start[key].value.Num?
    ensures Counter(s, key) + Total(UnitsReserved(key), s.procs) + Total(UnitsOverdrawn(key), s.procs)
            == start[key].value.n
    ensures Counter(s, key) < 0
            <==> Total(UnitsReserved(key), s.procs) + Total(UnitsOverdrawn(key), s.procs) > start[key].value.n
    ensures -(Total(UnitsOverdrawn(key), s.procs) as int) <= Counter(s, key)
    ensures Total(UnitsReserved(key), s.procs) <= start[key].value.n
  {
    InvReached(cfg, start, now, run, s);
    assert QuotaHolds(start, s, key);
  }

  /** Once every request has ended, the counter has dropped by exactly the number of calls
      answered by the upstream (test-mode answers and replays are not among them), and that
      many billing events for the resource were emitted. If no confirmation was lost and no
      drain is under way, they are all in the stream or in the outbox, each exactly once. */
  lemma QuotaMatchesBilling(cfg: Config, start: Plain, now: real, run: seq<Action>, s: State, key: Key)
    requires Reached(cfg, start, now, run, s) && Quiescent(s)
    requires key.QuotaKey? && key in start && FaultsOn(s, key) == 0
    ensures key in s.store && s.store[key].value.Num? && start[key].value.Num?
    ensures start[key].value.n - Counter(s, key) == Total(Answers(key), s.procs)
    ensures Total(Answers(key), s.procs) == Billing.BillCount(s.usage.emitted, key)
    ensures s.usage.doubts == 0 && !s.usage.flushing ==>
      Billing.BillCount(s.usage.stream, key) + Billing.BillCount(s.usage.outbox, key) == Total(Answers(key), s.procs)
  {
    InvReached(cfg, start, now, run, s);
    assert QuotaHolds(start, s, key) && Billing.BillInv(s, key);
    DoneTotals(cfg, s, key);
    if s.usage.doubts == 0 && !s.usage.flushing { EventsAccounted(s.usage, key); }
  }

  lemma DoneTotals(cfg: Config, s: State, key: Key)
    requires AllFit(cfg, s) && Quiescent(s)
    ensures Total(UnitsOverdrawn(key), s.procs) == 0
    ensures Total(UnitsReserved(key), s.procs) == Total(Answers(key), s.procs) == Total(Bills(key), s.procs)
  {
    forall p | p in s.procs
      ensures Weight(UnitsOverdrawn(key), p) == 0
      ensures Weight(UnitsReserved(key), p) == Weight(Answers(key), p) == Weight(Bills(key), p)
    {
      var i :| 0 <= i < |s.procs| && s.procs[i] == p;
      DoneWeights(cfg, s.procs[i], key);
    }
    TotalSame(UnitsReserved(key), Answers(key), s.procs);
    TotalSame(Bills(key), Answers(key), s.procs);
    TotalNone(UnitsOverdrawn(key), s.procs);
  }

  lemma DoneWeights(cfg: Config, p: Proc, key: Key)
    requires Fits(cfg, p) && p.pc.Done?
    ensures Weight(UnitsOverdrawn(key), p) == 0
    ensures Weight(UnitsReserved(key), p) == Weight(Answers(key), p) == Weight(Bills(key), p)
  {
  }

  lemma EventsAccounted(u: Usage.Ledger, key: Key)
    requires Usage.Exact(u) && u.doubts == 0 && !u.flushing
    ensures Billing.BillCount(u.stream, key) + Billing.BillCount(u.outbox, key) == Billing.BillCount(u.emitted, key)
  {
    assert multiset(u.stream + u.outbox) == multiset(u.emitted);
    Billing.BillCountMultiset(u.stream + u.outbox, u.emitted, key);
    Billing.BillCountSplit(u.stream, u.outbox, key);
  }

  lemma TotalSame(m: Meter, n: Meter, ps: seq<Proc>)
    requires forall p :: p in ps ==> Weight(m, p) == Weight(n, p)
    ensures Total(m, ps) == Total(n, ps)
  {
    TotalAtMost(m, n, ps);
    TotalAtMost(n, m, ps);
  }

  lemma {:induction false} TotalNone(m: Meter, ps: seq<Proc>)
    requires forall p :: p in ps ==> Weight(m, p) == 0
    ensures Total(m, ps) == 0
  {
    if ps != [] { TotalNone(m, ps[..|ps| - 1]); }
  }

  /** With no refunds and no failures, the attempts that are over (granted or refused)
      granted exactly as many units as there were, up to their own number: a race never
      refuses a unit that could have been granted. */
  lemma NoWastedQuota(cfg: Config, start: Plain, now: real, run: seq<Action>, s: State, key: Key)
    requires Reached(cfg, start, now, run, s) && key.QuotaKey? && key in start && FaultsOn(s, key) == 0
    requires Total(UnitsReturned(key), s.procs) == 0 && Total(UnitsOverdrawn(key), s.procs) == 0
    ensures key in s.store && s.store[key].value.Num? && start[key].value.Num?
    ensures var n := Total(UnitsReserved(key), s.procs) + Total(UnitsRefused(key), s.procs);
            && Total(UnitsReserved(key), s.procs) == (if n <= start[key].value.n then n else start[key].value.n)
            && Counter(s, key) == start[key].value.n - (if n <= start[key].value.n then n else start[key].value.n)
  {
    InvReached(cfg, start, now, run, s);
    assert QuotaHolds(start, s, key);
  }

  /** An organization without a quota key is never given one. */
  lemma NeverCreated(cfg: Config, start: Plain, now: real, run: seq<Action>, s: State, key: Key)
    requires Reached(cfg, start, now, run, s) && key.QuotaKey? && key !in start
    ensures key !in s.store
  {
    InvReached(cfg, start, now, run, s);
    assert QuotaHolds(start, s, key);
  }

  /** Whatever fails, each failed command lets at most one reservation and one slot too many
      through. */
  lemma FaultBudget(cfg: Config, start: Plain, now: real, run: seq<Action>, s: State, quota: Key, slot: Key)
    requires Reached(cfg, start, now, run, s) && quota.QuotaKey? && quota in start && slot.SlotKey?
    ensures start[quota].value.Num?
    ensures Total(UnitsReserved(quota), s.procs) <= start[quota].value.n + FaultsOn(s, quota)
    ensures Total(SlotsGranted(slot), s.procs) <= Slots.Cap(cfg) + FaultsOn(s, slot)
  {
    InvReached(cfg, start, now, run, s);
    assert QuotaHolds(start, s, quota);
    assert Slots.SlotInv(cfg, s, slot);
  }

  // ---------------------------------------------------------------- slots

  /** At every moment, and through expiry, a key's or an organization's counter is exactly
      the number of its slots that are out, held or about to be given back, and no more are
      held than the limit. */
  lemma SlotSafety(cfg: Config, start: Plain, now: real, run: seq<Action>, s: State, key: Key)
    requires Reached(cfg, start, now, run, s) && key.SlotKey? && FaultsOn(s, key) == 0
    ensures Slots.Level(s.store, key, s.now) == Total(SlotsOut(key), s.procs)
    ensures Total(SlotsGranted(key), s.procs) <= Slots.Cap(cfg)
  {
    InvReached(cfg, start, now, run, s);
    assert Slots.SlotInv(cfg, s, key);
  }

  predicate RanUnder(p: Proc, key: Key) {
    p.pc.Done? && Idempotency.Named(p, key) && Executes(p.pc.out)
  }

  /** Every request that ran under the key kept its result exactly if it succeeded, and
      released its claim otherwise. */
  ghost predicate ClaimsSettled(s: State, key: Key) {
    forall i :: 0 <= i < |s.procs| && RanUnder(s.procs[i], key) ==>
      if Succeeded(s.procs[i].pc.out) then s.procs[i].claim.Kept? else s.procs[i].claim.Released?
  }

  /** A record still live is the kept result of a successful request. */
  ghost predicate NothingInProgress(cfg: Config, s: State, key: Key) {
    Live(s.store, key, s.now) ==>
      exists i :: 0 <= i < |s.procs| && KeptHere(cfg, s, key, s.procs[i])
  }

  predicate KeptHere(cfg: Config, s: State, key: Key, p: Proc) {
    Idempotency.Keeps(p, key) && p.pc.Done? && Succeeded(p.pc.out)
    && key in s.store && s.store[key] == Idempotency.KeptRecord(cfg, p)
  }

  /** Once every request has ended: no slot is out and every slot counter reads zero; every
      claim was settled, as kept exactly for a success and released otherwise; and no record
      is left in progress. */
  lemma Quiescence(cfg: Config, start: Plain, now: real, run: seq<Action>, s: State, slot: Key, idem: Key)
    requires Reached(cfg, start, now, run, s) && Quiescent(s) && slot.SlotKey? && idem.IdemKey?
    ensures forall i :: 0 <= i < |s.procs| ==> s.procs[i].keySlot.Vacant? && s.procs[i].orgSlot.Vacant?
    ensures FaultsOn(s, slot) == 0 ==> Slots.Level(s.store, slot, s.now) == 0
    ensures FaultsOn(s, idem) == 0 ==> ClaimsSettled(s, idem) && NothingInProgress(cfg, s, idem)
  {
    InvReached(cfg, start, now, run, s);
    QuiescentSlots(cfg, s, slot);
    assert Slots.SlotInv(cfg, s, slot) && Idempotency.IdemInv(cfg, s, idem);
    QuiescentClaims(cfg, s, idem);
  }

  lemma QuiescentSlots(cfg: Config, s: State, slot: Key)
    requires AllFit(cfg, s) && Quiescent(s)
    ensures forall i :: 0 <= i < |s.procs| ==> s.procs[i].keySlot.Vacant? && s.procs[i].orgSlot.Vacant?
    ensures Total(SlotsOut(slot), s.procs) == 0
  {
    forall i | 0 <= i < |s.procs| ensures s.procs[i].keySlot.Vacant? && s.procs[i].orgSlot.Vacant? {
      assert Fits(cfg, s.procs[i]);
    }
    TotalNone(SlotsOut(slot), s.procs);
  }

  lemma QuiescentClaims(cfg: Config, s: State, idem: Key)
    requires AllFit(cfg, s) && Quiescent(s) && Idempotency.IdemInv(cfg, s, idem)
    ensures FaultsOn(s, idem) == 0 ==> ClaimsSettled(s, idem) && NothingInProgress(cfg, s, idem)
  {
    if FaultsOn(s, idem) == 0 {
      forall i | 0 <= i < |s.procs| && RanUnder(s.procs[i], idem)
        ensures if Succeeded(s.procs[i].pc.out) then s.procs[i].claim.Kept? else s.procs[i].claim.Released?
      {
        ClaimSettled(cfg, s.procs[i], idem);
      }
      if Live(s.store, idem, s.now) {
        var i :| 0 <= i < |s.procs| && Idempotency.Backs(cfg, s.procs[i], idem, s.store[idem]);
        RecordKept(cfg, s.procs[i], idem, s.store[idem]);
        assert KeptHere(cfg, s, idem, s.procs[i]);
      }
    }
  }

  lemma ClaimSettled(cfg: Config, p: Proc, key: Key)
    requires Fits(cfg, p) && RanUnder(p, key) && !p.claim.Lost?
    ensures if Succeeded(p.pc.out) then p.claim.Kept? else p.claim.Released?
  {
  }

  lemma RecordKept(cfg: Config, p: Proc, key: Key, item: Item)
    requires Fits(cfg, p) && p.pc.Done? && Idempotency.Backs(cfg, p, key, item)
    ensures Idempotency.Keeps(p, key) && Succeeded(p.pc.out) && item == Idempotency.KeptRecord(cfg, p)
  {
  }

  // ---------------------------------------------------------------- idempotency

  /** The request is past its claim and has not settled it. */
  predicate Executing(p: Proc) {
    match p.pc
    case Gate => false
    case ClaimSet => false
    case ClaimGet => false
    case Emit(_, _) => false
    case FreeKey(_) => false
    case FreeOrg(_) => false
    case Done(_) => false
    case _ => true
  }

  /** At any moment at most one request per Idempotency-Key is between claim and settlement. */
  lemma OneAtATime(cfg: Config, start: Plain, now: real, run: seq<Action>, s: State, key: Key, i: nat, j: nat)
    requires Reached(cfg, start, now, run, s) && key.IdemKey? && FaultsOn(s, key) == 0
    requires i < |s.procs| && j < |s.procs|
    requires Idempotency.Named(s.procs[i], key) && Executing(s.procs[i])
    requires Idempotency.Named(s.procs[j], key) && Executing(s.procs[j])
    ensures i == j
  {
    InvReached(cfg, start, now, run, s);
    assert Idempotency.IdemInv(cfg, s, key);
    assert Fits(cfg, s.procs[i]) && Fits(cfg, s.procs[j]);
    ExecutingOwns(cfg, s.procs[i], key);
    ExecutingOwns(cfg, s.procs[j], key);
  }

  lemma ExecutingOwns(cfg: Config, p: Proc, key: Key)
    requires Fits(cfg, p) && Idempotency.Named(p, key) && Executing(p) && !p.claim.Unowned?
    ensures Idempotency.Owns(p, key)
  {
  }

  /** The request ran to a success that was kept for replay. */
  predicate Executed(p: Proc, key: Key) {
    Idempotency.Keeps(p, key)
  }

  /** Two successful executions under one Idempotency-Key never share a record lifetime: the
      later one was claimed only after the record of the earlier had run out, so with a
      positive lifetime they are at least that long apart. */
  lemma OnePerLifetime(cfg: Config, start: Plain, now: real, run: seq<Action>, s: State, key: Key, i: nat, j: nat)
    requires Reached(cfg, start, now, run, s) && key.IdemKey? && FaultsOn(s, key) == 0
    requires i < |s.procs| && j < |s.procs| && i != j && Executed(s.procs[i], key) && Executed(s.procs[j], key)
    ensures cfg.recordTtl != 0
    ensures || s.procs[i].claim.finished + cfg.recordTtl as real <= s.procs[j].claim.since
            || s.procs[j].claim.finished + cfg.recordTtl as real <= s.procs[i].claim.since
  {
    InvReached(cfg, start, now, run, s);
    assert Idempotency.IdemInv(cfg, s, key);
    assert Idempotency.OverBy(cfg, s.procs[i], s.procs[j].claim.since)
        || Idempotency.OverBy(cfg, s.procs[j], s.procs[i].claim.since);
  }

  /** Every replay returns the status and body of a successful execution of the same request
      body under the same key. */
  lemma ReplayIsExecution(cfg: Config, start: Plain, now: real, run: seq<Action>, s: State, key: Key, i: nat)
    requires Reached(cfg, start, now, run, s) && key.IdemKey? && FaultsOn(s, key) == 0
    requires i < |s.procs| && Idempotency.Replays(s.procs[i], key)
    ensures exists j :: 0 <= j < |s.procs| && Executed(s.procs[j], key)
                        && s.procs[j].req.subject == s.procs[i].req.subject
                        && s.procs[j].req.idem == s.procs[i].req.idem
                        && s.procs[j].req.fingerprint == s.procs[i].req.fingerprint
                        && s.procs[j].claim.status == s.procs[i].pc.out.status
                        && s.procs[j].claim.body == s.procs[i].pc.out.body
  {
    InvReached(cfg, start, now, run, s);
    assert Idempotency.IdemInv(cfg, s, key);
    var j :| 0 <= j < |s.procs| && Idempotency.ReplayOf(s.procs[i], s.procs[j], key);
    assert Executed(s.procs[j], key);
  }

  /** The record under the key is that of request `j`: its pending claim or its kept result. */
  predicate Holds(cfg: Config, s: State, j: nat, key: Key)
    requires j < |s.procs|
  {
    Idempotency.Owns(s.procs[j], key)
    || (Idempotency.Keeps(s.procs[j], key) && !Idempotency.OverBy(cfg, s.procs[j], s.now))
  }

  /** A duplicate that finds a record is told of a mismatch if and only if its fingerprint
      differs from that of the request that holds the record. Otherwise it waits or gets the
      result, whichever endpoint either request was sent to. */
  lemma DuplicateExact(cfg: Config, start: Plain, now: real, run: seq<Action>, s: State, key: Key, i: nat, j: nat)
    requires Reached(cfg, start, now, run, s) && key.IdemKey? && FaultsOn(s, key) == 0
    requires i < |s.procs| && s.procs[i].pc.ClaimGet? && Idempotency.Named(s.procs[i], key)
    requires j < |s.procs| && Holds(cfg, s, j, key)
    ensures var p, q := Next(cfg, s, Issue(i, NoFault)).procs[i], s.procs[j];
            p.pc == Done(if p.req.fingerprint != q.req.fingerprint then Mismatch
                         else if q.claim.Kept? then Replayed(q.claim.status, q.claim.body) else InProgress)
  {
    InvReached(cfg, start, now, run, s);
    HeldRecord(cfg, s, key, j);
    ReadRecord(cfg, s, i);
  }

  /** The record of the request that holds it, live under the key. */
  lemma HeldRecord(cfg: Config, s: State, key: Key, j: nat)
    requires Idempotency.IdemInv(cfg, s, key) && FaultsOn(s, key) == 0 && j < |s.procs| && Holds(cfg, s, j, key)
    ensures Live(s.store, key, s.now)
    ensures var q := s.procs[j];
            s.store[key].value == if q.claim.Kept? then Finished(q.req.fingerprint, q.claim.status, q.claim.body)
                                  else Running(q.req.fingerprint)
  {
  }

  /** How a request goes on with the record it reads. */
  lemma ReadRecord(cfg: Config, s: State, i: nat)
    requires i < |s.procs| && s.procs[i].pc.ClaimGet? && Live(s.store, IdemOf(s.procs[i].req), s.now)
    ensures var p, q := s.procs[i], Next(cfg, s, Issue(i, NoFault)).procs[i];
            match s.store[IdemOf(p.req)].value
            case Finished(fp, status, body) =>
              q.pc == Done(if fp != p.req.fingerprint then Mismatch else Replayed(status, body))
            case Running(fp) => q.pc == Done(if fp != p.req.fingerprint then Mismatch else InProgress)
            case _ => true
  {
  }

  // ---------------------------------------------------------------- billing

  /** Whatever fails, every event emitted so far is in the stream or in the outbox and
      nothing else is; a consumer that counts each event id once never bills more than was
      emitted. Once the outbox is empty it bills exactly that if and only if the events that
      are worth something are apart, which distinct ids ensure. */
  lemma NothingLostNothingInvented(cfg: Config, start: Plain, now: real, run: seq<Action>, s: State)
    requires Reached(cfg, start, now, run, s)
    ensures forall e :: e in s.usage.emitted <==> e in s.usage.stream || e in s.usage.outbox
    ensures Usage.Billed(s.usage.stream, {}) <= Usage.Total(s.usage.emitted, {})
    ensures s.usage.outbox == [] ==>
      (Usage.Billed(s.usage.stream, {}) == Usage.Total(s.usage.emitted, {})
       <==> Usage.Separate(s.usage.stream, {}, s.usage.emitted))
    ensures s.usage.outbox == [] && Usage.DistinctIds(s.usage.emitted) ==>
      Usage.Billed(s.usage.stream, {}) == Usage.Total(s.usage.emitted, {})
  {
    InvReached(cfg, start, now, run, s);
    Usage.BilledAtMost(s.usage.stream, {}, s.usage.emitted);
    if s.usage.outbox == [] {
      Usage.BilledExact(s.usage);
      if Usage.DistinctIds(s.usage.emitted) { Usage.BilledAll(s.usage.stream, {}, s.usage.emitted); }
    }
  }

  /** The upstream answered the call. */
  predicate GotAnswer(p: Proc) {
    p.pc.Done? && p.pc.out.Answered?
  }

  /** No answered call's id is that of another with a token suffix. */
  ghost predicate NoSuffixes(ps: seq<Proc>) {
    forall i, j :: 0 <= i < |ps| && 0 <= j < |ps| && GotAnswer(ps[i]) && GotAnswer(ps[j]) ==>
      DedupKeys.Near(DedupKey(ps[i].req), DedupKey(ps[j].req)) ==> DedupKey(ps[i].req) == DedupKey(ps[j].req)
  }

  ghost predicate DistinctCalls(ps: seq<Proc>) {
    forall i, j :: 0 <= i < j < |ps| && GotAnswer(ps[i]) && GotAnswer(ps[j]) ==>
      DedupKey(ps[i].req) != DedupKey(ps[j].req)
  }

  /** Two answered calls that derive their id from the same text: something stays unbilled. */
  lemma SharedTextUnderbills(cfg: Config, start: Plain, now: real, run: seq<Action>, s: State, i: nat, j: nat)
    requires Reached(cfg, start, now, run, s) && Quiescent(s) && s.usage.outbox == []
    requires i < j < |s.procs| && GotAnswer(s.procs[i]) && GotAnswer(s.procs[j])
    requires DedupKey(s.procs[i].req) == DedupKey(s.procs[j].req)
    ensures Usage.Billed(s.usage.stream, {}) < Usage.Total(s.usage.emitted, {})
  {
    InvReached(cfg, start, now, run, s);
    Usage.BilledExact(s.usage);
    Usage.BilledAtMost(s.usage.stream, {}, s.usage.emitted);
    EventIds.SharedId(s, i, j);
  }

  /** No two answered calls derive their ids from texts that are the same or differ by a token
      suffix. */
  ghost predicate ApartCalls(ps: seq<Proc>) {
    forall i, j :: 0 <= i < j < |ps| && GotAnswer(ps[i]) && GotAnswer(ps[j]) ==>
      !DedupKeys.Near(DedupKey(ps[i].req), DedupKey(ps[j].req))
  }

  /** Then everything is billed. */
  lemma ApartCallsBilled(cfg: Config, start: Plain, now: real, run: seq<Action>, s: State)
    requires Reached(cfg, start, now, run, s) && Quiescent(s) && s.usage.outbox == [] && ApartCalls(s.procs)
    ensures Usage.Billed(s.usage.stream, {}) == Usage.Total(s.usage.emitted, {})
  {
    InvReached(cfg, start, now, run, s);
    CallsUnshared(s);
    EventIds.OwnIds(s);
    Usage.BilledAll(s.usage.stream, {}, s.usage.emitted);
  }

  /** Once every request has ended and the outbox is empty, and token suffixes aside, everything
      emitted has been billed if and only if no two answered calls derive their id from the same
      text, be it their caller and Idempotency-Key or their request id. */
  lemma BilledExactly(cfg: Config, start: Plain, now: real, run: seq<Action>, s: State)
    requires Reached(cfg, start, now, run, s) && Quiescent(s) && s.usage.outbox == [] && NoSuffixes(s.procs)
    ensures Usage.Billed(s.usage.stream, {}) == Usage.Total(s.usage.emitted, {}) <==> DistinctCalls(s.procs)
  {
    if DistinctCalls(s.procs) {
      ApartCallsBilled(cfg, start, now, run, s);
    } else {
      var i, j :| 0 <= i < j < |s.procs| && GotAnswer(s.procs[i]) && GotAnswer(s.procs[j])
        && DedupKey(s.procs[i].req) == DedupKey(s.procs[j].req);
      SharedTextUnderbills(cfg, start, now, run, s, i, j);
    }
  }

  lemma CallsUnshared(s: State)
    requires Quiescent(s) && ApartCalls(s.procs)
    ensures EventIds.Unshared(s.procs)
  {
    forall i, j, id: string | 0 <= i < |s.procs| && 0 <= j < |s.procs| && EventIds.Owes(s.procs[i], id)
        && EventIds.Owes(s.procs[j], id)
      ensures i == j
    {
      DedupKeys.SharedExact(s.procs[i].req, s.procs[j].req);
    }
  }

  /** Two requests carry one caller's Idempotency-Key, no command on its record failed, and
      neither was claimed after the other's record had run out. */
  ghost predicate Retries(cfg: Config, s: State, p: Proc, q: Proc) {
    && p.req.idem.Some? && q.req.idem.Some? && IdemOf(p.req) == IdemOf(q.req) && FaultsOn(s, IdemOf(p.req)) == 0
    && (p.claim.Kept? && q.claim.Kept? && cfg.recordTtl != 0 ==>
          && p.claim.since < q.claim.finished + cfg.recordTtl as real
          && q.claim.since < p.claim.finished + cfg.recordTtl as real)
  }

  /** So of all the retries under one Idempotency-Key at most one is answered by the upstream. */
  lemma RetriesServedOnce(cfg: Config, start: Plain, now: real, run: seq<Action>, s: State, i: nat, j: nat)
    requires Reached(cfg, start, now, run, s) && i < |s.procs| && j < |s.procs|
    requires EventIds.Charged(s.procs[i]) && EventIds.Charged(s.procs[j]) && Retries(cfg, s, s.procs[i], s.procs[j])
    ensures i == j
  {
    InvReached(cfg, start, now, run, s);
    var key := IdemOf(s.procs[i].req);
    assert Idempotency.IdemInv(cfg, s, key);
    assert Fits(cfg, s.procs[i]) && Fits(cfg, s.procs[j]);
    assert Executed(s.procs[i], key) && Executed(s.procs[j], key);
    if i != j { OnePerLifetime(cfg, start, now, run, s, key, i, j); }
  }

  ghost predicate OnlyRetriesShareIds(cfg: Config, s: State) {
    forall i, j, id: string ::
      0 <= i < j < |s.procs| && EventIds.Owes(s.procs[i], id) && EventIds.Owes(s.procs[j], id) ==>
        Retries(cfg, s, s.procs[i], s.procs[j])
  }

  /** A caller may retry as often as it likes, and any usage command may fail: as long as
      calls other than retries derive different event ids, every event has its own id, and
      once the outbox is empty the consumer bills exactly what was emitted. */
  lemma RetriesBilledOnce(cfg: Config, start: Plain, now: real, run: seq<Action>, s: State)
    requires Reached(cfg, start, now, run, s) && OnlyRetriesShareIds(cfg, s)
    ensures Usage.DistinctIds(s.usage.emitted)
    ensures s.usage.outbox == [] ==> Usage.Billed(s.usage.stream, {}) == Usage.Total(s.usage.emitted, {})
  {
    InvReached(cfg, start, now, run, s);
    forall i, j, id: string | 0 <= i < |s.procs| && 0 <= j < |s.procs| && EventIds.Owes(s.procs[i], id)
        && EventIds.Owes(s.procs[j], id)
      ensures i == j
    {
      if i < j { RetriesServedOnce(cfg, start, now, run, s, i, j); }
      if j < i { RetriesServedOnce(cfg, start, now, run, s, j, i); }
    }
    EventIds.OwnIds(s);
    NothingLostNothingInvented(cfg, start, now, run, s);
  }
}
