/** Idempotency records, over every interleaving: one request at a time per key, and replays
    of exactly the execution that was kept. */
module Idempotency {
  import opened Store
  import opened Lifecycle
  import opened System

  /** The request was sent with the Idempotency-Key that `key` records. */
  predicate Named(p: Proc, key: Key) {
    p.req.idem.Some? && IdemOf(p.req) == key
  }

  predicate Owns(p: Proc, key: Key) {
    Named(p, key) && p.claim.Owner?
  }

  predicate Keeps(p: Proc, key: Key) {
    Named(p, key) && p.claim.Kept?
  }

  function ClaimRecord(p: Proc): Item
    requires p.claim.Owner?
  {
    Item(Running(p.req.fingerprint), Some(p.claim.since + CLAIM_TTL as real))
  }

  function KeptRecord(cfg: Config, p: Proc): Item
    requires p.claim.Kept?
  {
    Item(Finished(p.req.fingerprint, p.claim.status, p.claim.body), Deadline(Some(cfg.recordTtl), p.claim.finished))
  }

  /** The kept record of `p` had run out by `t`. */
  predicate OverBy(cfg: Config, p: Proc, t: real)
    requires p.claim.Kept?
  {
    !Alive(KeptRecord(cfg, p), t)
  }

  // The clauses of the invariant, for a key whose commands have not failed.

  ghost predicate NoneLost(ps: seq<Proc>, key: Key) {
    forall i :: 0 <= i < |ps| && Named(ps[i], key) ==> !ps[i].claim.Unowned? && !ps[i].claim.Lost?
  }

  ghost predicate OneOwner(ps: seq<Proc>, key: Key) {
    forall i, j :: 0 <= i < |ps| && 0 <= j < |ps| && Owns(ps[i], key) && Owns(ps[j], key) ==> i == j
  }

  ghost predicate ClaimsStored(store: Plain, now: real, ps: seq<Proc>, key: Key) {
    forall i :: 0 <= i < |ps| && Owns(ps[i], key) ==>
      ps[i].claim.since <= now < ps[i].claim.since + CLAIM_TTL as real && key in store
          && store[key] == ClaimRecord(ps[i])
  }

  ghost predicate KeptStored(cfg: Config, store: Plain, now: real, ps: seq<Proc>, key: Key) {
    forall i :: 0 <= i < |ps| && Keeps(ps[i], key) ==>
      ps[i].claim.finished <= now && (OverBy(cfg, ps[i], now) || (key in store && store[key] == KeptRecord(cfg, ps[i])))
  }

  /** A live record belongs to the request that claims it or to one that kept it. */
  ghost predicate RecordBacked(cfg: Config, store: Plain, now: real, ps: seq<Proc>, key: Key) {
    Live(store, key, now) ==>
      exists i :: 0 <= i < |ps| && Backs(cfg, ps[i], key, store[key])
  }

  predicate Backs(cfg: Config, p: Proc, key: Key, item: Item) {
    (Owns(p, key) && item == ClaimRecord(p)) || (Keeps(p, key) && item == KeptRecord(cfg, p))
  }

  /** Of two kept executions, one was claimed only after the other's record had run out. */
  ghost predicate KeptApart(cfg: Config, ps: seq<Proc>, key: Key) {
    forall i, j :: 0 <= i < |ps| && 0 <= j < |ps| && i != j && Keeps(ps[i], key) && Keeps(ps[j], key) ==>
      OverBy(cfg, ps[i], ps[j].claim.since) || OverBy(cfg, ps[j], ps[i].claim.since)
  }

  ghost predicate OwnerApart(cfg: Config, ps: seq<Proc>, key: Key) {
    forall i, j :: 0 <= i < |ps| && 0 <= j < |ps| && Keeps(ps[i], key) && Owns(ps[j], key) ==>
      OverBy(cfg, ps[i], ps[j].claim.since)
  }

  predicate Replays(p: Proc, key: Key) {
    Named(p, key) && p.pc.Done? && p.pc.out.Replayed?
  }

  /** `q` is the execution whose result `p` replays. */
  predicate ReplayOf(p: Proc, q: Proc, key: Key) {
    && Replays(p, key) && Keeps(q, key)
    && p.req.fingerprint == q.req.fingerprint
    && p.pc.out.status == q.claim.status && p.pc.out.body == q.claim.body
  }

  ghost predicate ReplaysBacked(ps: seq<Proc>, key: Key) {
    forall i :: 0 <= i < |ps| && Replays(ps[i], key) ==> exists j :: 0 <= j < |ps| && ReplayOf(ps[i], ps[j], key)
  }

  ghost predicate Sound(cfg: Config, store: Plain, now: real, ps: seq<Proc>, key: Key) {
    && NoneLost(ps, key) && OneOwner(ps, key)
    && ClaimsStored(store, now, ps, key) && KeptStored(cfg, store, now, ps, key)
    && RecordBacked(cfg, store, now, ps, key)
    && KeptApart(cfg, ps, key) && OwnerApart(cfg, ps, key) && ReplaysBacked(ps, key)
  }

  ghost predicate IdemInv(cfg: Config, s: State, key: Key) {
    FaultsOn(s, key) == 0 ==> Sound(cfg, s.store, s.now, s.procs, key)
  }

  // ---------------------------------------------------------------- one request

  /** What a request's own step does to its claim. */
  lemma ClaimStep(cfg: Config, p: Proc, reply: Reply, applied: bool, now: real)
    requires Fits(cfg, p) && Ask(cfg, p).Some?
    ensures var c, q := Ask(cfg, p).value, Resume(cfg, p, reply, applied, now);
            && q.req == p.req
            && (!p.pc.ClaimSet? && !p.pc.ClaimGet? && !p.pc.Settle? ==> !c.key.IdemKey? && Quiet(p, q))
            && (p.pc.ClaimSet? || p.pc.ClaimGet? || p.pc.Settle? ==> c.key == IdemOf(p.req) && p.req.idem.Some?)
  {
  }

  /** The claim stays as it is and no replay is answered. */
  predicate Quiet(p: Proc, q: Proc) {
    q.req == p.req && q.claim == p.claim && (q.pc == p.pc || !q.pc.Done? || !q.pc.out.Replayed?)
    && (p.pc.Done? ==> q.pc == p.pc)
  }

  /** `qs` has the same claims and replays as `ps`, and possibly one more request. */
  ghost predicate Carries(ps: seq<Proc>, qs: seq<Proc>, key: Key) {
    && |ps| <= |qs|
    && (forall j :: 0 <= j < |ps| ==> qs[j].req == ps[j].req && (Named(ps[j], key) ==> qs[j].claim == ps[j].claim))
    && (forall j :: 0 <= j < |qs| && Replays(qs[j], key) ==> j < |ps| && qs[j].pc == ps[j].pc)
    && (forall j :: |ps| <= j < |qs| ==> qs[j].claim.Unclaimed?)
  }

  lemma BackingStays(cfg: Config, store: Plain, after: Plain, now: real, ps: seq<Proc>, qs: seq<Proc>, key: Key)
    requires Carries(ps, qs, key) && RecordBacked(cfg, store, now, ps, key) && ReplaysBacked(ps, key)
    requires (key in after <==> key in store) && (key in store ==> after[key] == store[key])
    ensures RecordBacked(cfg, after, now, qs, key) && ReplaysBacked(qs, key)
  {
    if Live(after, key, now) {
      var j :| 0 <= j < |ps| && Backs(cfg, ps[j], key, store[key]);
      assert Backs(cfg, qs[j], key, after[key]);
    }
    forall a | 0 <= a < |qs| && Replays(qs[a], key) ensures exists j :: 0 <= j < |qs| && ReplayOf(qs[a], qs[j], key) {
      assert Replays(ps[a], key);
      var j :| 0 <= j < |ps| && ReplayOf(ps[a], ps[j], key);
      assert ReplayOf(qs[a], qs[j], key);
    }
  }

  /** A step that leaves the record, the claims and the replays alone. */
  lemma CarryKeeps(cfg: Config, store: Plain, after: Plain, now: real, ps: seq<Proc>, qs: seq<Proc>, key: Key)
    requires Carries(ps, qs, key) && Sound(cfg, store, now, ps, key)
    requires (key in after <==> key in store) && (key in store ==> after[key] == store[key])
    ensures Sound(cfg, after, now, qs, key)
  {
    BackingStays(cfg, store, after, now, ps, qs, key);
    OwnersCarry(store, after, now, ps, qs, key);
    KeptCarry(cfg, store, after, now, ps, qs, key);
  }

  lemma OwnersCarry(store: Plain, after: Plain, now: real, ps: seq<Proc>, qs: seq<Proc>, key: Key)
    requires Carries(ps, qs, key) && NoneLost(ps, key) && OneOwner(ps, key) && ClaimsStored(store, now, ps, key)
    requires (key in after <==> key in store) && (key in store ==> after[key] == store[key])
    ensures NoneLost(qs, key) && OneOwner(qs, key) && ClaimsStored(after, now, qs, key)
  {
    assert forall j :: 0 <= j < |qs| && Owns(qs[j], key) ==> j < |ps| && Owns(ps[j], key) && qs[j].claim == ps[j].claim;
  }

  lemma KeptCarry(cfg: Config, store: Plain, after: Plain, now: real, ps: seq<Proc>, qs: seq<Proc>, key: Key)
    requires Carries(ps, qs, key) && KeptStored(cfg, store, now, ps, key) && KeptApart(cfg, ps, key)
             && OwnerApart(cfg, ps, key)
    requires (key in after <==> key in store) && (key in store ==> after[key] == store[key])
    ensures KeptStored(cfg, after, now, qs, key) && KeptApart(cfg, qs, key) && OwnerApart(cfg, qs, key)
  {
    assert forall j :: 0 <= j < |qs| && (Owns(qs[j], key) || Keeps(qs[j], key)) ==>
      j < |ps| && qs[j].claim == ps[j].claim;
  }

  lemma QuietKeeps(cfg: Config, store: Plain, after: Plain, now: real, ps: seq<Proc>, i: nat, q: Proc, key: Key)
    requires i < |ps| && Sound(cfg, store, now, ps, key)
    requires Quiet(ps[i], q) || (q.req == ps[i].req && !Named(q, key))
    requires (key in after <==> key in store) && (key in store ==> after[key] == store[key])
    ensures Sound(cfg, after, now, ps[i := q], key)
  {
    CarryKeeps(cfg, store, after, now, ps, ps[i := q], key);
  }

  /** Replays stay backed when nobody's kept result or answered replay is taken away. */
  lemma ReplaysStay(ps: seq<Proc>, i: nat, q: Proc, key: Key)
    requires i < |ps| && ReplaysBacked(ps, key)
    requires q.req == ps[i].req && !Keeps(ps[i], key) && !Replays(q, key)
    ensures ReplaysBacked(ps[i := q], key)
  {
    var qs := ps[i := q];
    forall a | 0 <= a < |qs| && Replays(qs[a], key) ensures exists j :: 0 <= j < |qs| && ReplayOf(qs[a], qs[j], key) {
      var j :| 0 <= j < |ps| && ReplayOf(ps[a], ps[j], key);
      assert ReplayOf(qs[a], qs[j], key);
    }
  }

  /** SET NX succeeds only when no claim is pending and every kept record has run out. */
  lemma TakeClaim(cfg: Config, store: Plain, now: real, ps: seq<Proc>, i: nat, q: Proc, key: Key)
    requires i < |ps| && Sound(cfg, store, now, ps, key) && !Live(store, key, now)
    requires Named(ps[i], key) && ps[i].claim.Unclaimed? && q == ps[i].(claim := Owner(now), pc := q.pc)
    requires !Replays(q, key)
    ensures Sound(cfg, store[key := ClaimRecord(q)], now, ps[i := q], key)
  {
    var qs, after := ps[i := q], store[key := ClaimRecord(q)];
    ReplaysStay(ps, i, q, key);
    assert forall j :: 0 <= j < |ps| ==> !Owns(ps[j], key);
    assert forall j :: 0 <= j < |ps| && Keeps(ps[j], key) ==> OverBy(cfg, ps[j], now);
    assert RecordBacked(cfg, after, now, qs, key) by { assert Backs(cfg, qs[i], key, after[key]); }
  }

  /** The owner is alone, and every kept record had run out when it took the claim. */
  lemma OwnerAlone(cfg: Config, store: Plain, now: real, ps: seq<Proc>, i: nat, key: Key)
    requires i < |ps| && Sound(cfg, store, now, ps, key) && Owns(ps[i], key)
    ensures forall j :: 0 <= j < |ps| && j != i ==> !Owns(ps[j], key)
    ensures forall j :: 0 <= j < |ps| && Keeps(ps[j], key) ==>
            OverBy(cfg, ps[j], now) && OverBy(cfg, ps[j], ps[i].claim.since)
  {
  }

  lemma KeepClaim(cfg: Config, store: Plain, now: real, ps: seq<Proc>, i: nat, q: Proc, key: Key)
    requires i < |ps| && Sound(cfg, store, now, ps, key) && Owns(ps[i], key)
    requires q.req == ps[i].req && q.claim.Kept? && q.claim.since == ps[i].claim.since && q.claim.finished == now
    requires !Replays(q, key)
    ensures Sound(cfg, store[key := KeptRecord(cfg, q)], now, ps[i := q], key)
  {
    var qs, after := ps[i := q], store[key := KeptRecord(cfg, q)];
    OwnerAlone(cfg, store, now, ps, i, key);
    ReplaysStay(ps, i, q, key);
    assert RecordBacked(cfg, after, now, qs, key) by { assert Backs(cfg, qs[i], key, after[key]); }
  }

  lemma DropClaim(cfg: Config, store: Plain, now: real, ps: seq<Proc>, i: nat, q: Proc, key: Key)
    requires i < |ps| && Sound(cfg, store, now, ps, key) && Owns(ps[i], key)
    requires q.req == ps[i].req && q.claim.Released? && !Replays(q, key)
    ensures Sound(cfg, store - {key}, now, ps[i := q], key)
  {
    OwnerAlone(cfg, store, now, ps, i, key);
    ReplaysStay(ps, i, q, key);
  }

  /** A stored result found under the key is replayed. */
  lemma AnswerReplay(cfg: Config, store: Plain, now: real, ps: seq<Proc>, i: nat, q: Proc, key: Key)
    requires i < |ps| && Sound(cfg, store, now, ps, key) && Live(store, key, now)
    requires q == ps[i].(pc := q.pc) && Replays(q, key) && !Replays(ps[i], key) && !Keeps(ps[i], key)
    requires store[key].value == Finished(q.req.fingerprint, q.pc.out.status, q.pc.out.body)
    ensures Sound(cfg, store, now, ps[i := q], key)
  {
    var qs := ps[i := q];
    var k :| 0 <= k < |ps| && Backs(cfg, ps[k], key, store[key]);
    assert Backs(cfg, qs[k], key, store[key]) && ReplayOf(q, qs[k], key);
    forall a | 0 <= a < |qs| && Replays(qs[a], key) ensures exists j :: 0 <= j < |qs| && ReplayOf(qs[a], qs[j], key) {
      if a != i {
        var j :| 0 <= j < |ps| && ReplayOf(ps[a], ps[j], key);
        assert ReplayOf(qs[a], qs[j], key);
      }
    }
  }

  // ---------------------------------------------------------------- every action

  lemma IssueClaimSet(cfg: Config, s: State, i: nat, key: Key)
    requires AllFit(cfg, s) && i < |s.procs| && s.procs[i].pc.ClaimSet? && IdemOf(s.procs[i].req) == key
    requires Sound(cfg, s.store, s.now, s.procs, key)
    ensures var c := Ask(cfg, s.procs[i]).value;
            Sound(cfg, Perform(s.store, c, NoFault, s.now).0, s.now, s.procs[i := Resumed(cfg, s, i, NoFault)], key)
  {
    var q := Resumed(cfg, s, i, NoFault);
    if Live(s.store, key, s.now) {
      QuietKeeps(cfg, s.store, s.store, s.now, s.procs, i, q, key);
    } else {
      TakeClaim(cfg, s.store, s.now, s.procs, i, q, key);
    }
  }

  lemma IssueClaimGet(cfg: Config, s: State, i: nat, key: Key)
    requires AllFit(cfg, s) && i < |s.procs| && s.procs[i].pc.ClaimGet? && IdemOf(s.procs[i].req) == key
    requires Sound(cfg, s.store, s.now, s.procs, key)
    ensures var c := Ask(cfg, s.procs[i]).value;
            Sound(cfg, Perform(s.store, c, NoFault, s.now).0, s.now, s.procs[i := Resumed(cfg, s, i, NoFault)], key)
  {
    var q := Resumed(cfg, s, i, NoFault);
    if Replays(q, key) {
      AnswerReplay(cfg, s.store, s.now, s.procs, i, q, key);
    } else {
      QuietKeeps(cfg, s.store, s.store, s.now, s.procs, i, q, key);
    }
  }

  lemma IssueSettle(cfg: Config, s: State, i: nat, key: Key)
    requires AllFit(cfg, s) && i < |s.procs| && s.procs[i].pc.Settle? && IdemOf(s.procs[i].req) == key
    requires Sound(cfg, s.store, s.now, s.procs, key)
    ensures var c := Ask(cfg, s.procs[i]).value;
            Sound(cfg, Perform(s.store, c, NoFault, s.now).0, s.now, s.procs[i := Resumed(cfg, s, i, NoFault)], key)
  {
    var q := Resumed(cfg, s, i, NoFault);
    assert Owns(s.procs[i], key);
    if Succeeded(s.procs[i].pc.out) {
      KeepClaim(cfg, s.store, s.now, s.procs, i, q, key);
    } else {
      DropClaim(cfg, s.store, s.now, s.procs, i, q, key);
    }
  }

  lemma IssueKeeps(cfg: Config, s: State, i: nat, fault: Fault, key: Key)
    requires AllFit(cfg, s) && key.IdemKey? && IdemInv(cfg, s, key) && Enabled(cfg, s, Issue(i, fault))
    ensures IdemInv(cfg, Next(cfg, s, Issue(i, fault)), key)
  {
    var p, c := s.procs[i], Ask(cfg, s.procs[i]).value;
    if FaultsOn(s, key) > 0 || (c.key == key && fault != NoFault) { return; }
    var (after, reply) := Perform(s.store, c, fault, s.now);
    ClaimStep(cfg, p, reply, fault != Skipped, s.now);
    if c.key != key {
      KeyUntouched(s.store, c, fault, s.now, key);
      QuietKeeps(cfg, s.store, after, s.now, s.procs, i, Resumed(cfg, s, i, fault), key);
    } else if p.pc.ClaimSet? {
      IssueClaimSet(cfg, s, i, key);
    } else if p.pc.ClaimGet? {
      IssueClaimGet(cfg, s, i, key);
    } else {
      IssueSettle(cfg, s, i, key);
    }
  }

  lemma PassKeeps(cfg: Config, s: State, until: real, key: Key)
    requires Sound(cfg, s.store, s.now, s.procs, key) && Enabled(cfg, s, Pass(until))
    ensures Sound(cfg, s.store, until, s.procs, key)
  {
    forall i | 0 <= i < |s.procs| ensures Tolerates(s.procs[i], s.now, until) {
      assert s.procs[i] in s.procs;
    }
  }

  lemma ArriveKeeps(cfg: Config, s: State, req: Request, key: Key)
    requires Sound(cfg, s.store, s.now, s.procs, key)
    ensures Sound(cfg, s.store, s.now, s.procs + [Spawn(req)], key)
  {
    CarryKeeps(cfg, s.store, s.store, s.now, s.procs, s.procs + [Spawn(req)], key);
  }

  lemma HearQuiet(cfg: Config, p: Proc, input: Input)
    requires Fits(cfg, p) && Expects(p, input)
    ensures Quiet(p, Hear(p, input))
  {
  }

  lemma SentQuiet(cfg: Config, p: Proc)
    requires Fits(cfg, p) && p.pc.Emit?
    ensures Quiet(p, Sent(p))
  {
  }

  lemma IdemNext(cfg: Config, s: State, a: Action, key: Key)
    requires AllFit(cfg, s) && key.IdemKey? && IdemInv(cfg, s, key) && Enabled(cfg, s, a)
    ensures IdemInv(cfg, Next(cfg, s, a), key)
  {
    if FaultsOn(s, key) == 0 {
      match a {
        case Arrive(req) => ArriveKeeps(cfg, s, req, key);
        case Pass(until) => PassKeeps(cfg, s, until, key);
        case Issue(i, fault) => IssueKeeps(cfg, s, i, fault, key);
        case Receive(i, input) =>
          HearQuiet(cfg, s.procs[i], input);
          QuietKeeps(cfg, s.store, s.store, s.now, s.procs, i, Hear(s.procs[i], input), key);
        case Send(i, delivery) =>
          SentQuiet(cfg, s.procs[i]);
          QuietKeeps(cfg, s.store, s.store, s.now, s.procs, i, Sent(s.procs[i]), key);
        case Drain(step) =>
        case Foreign(c, fault) => ForeignKeeps(cfg, s, c, fault, key);
      }
    }
  }

  lemma ForeignKeeps(cfg: Config, s: State, c: Command, fault: Fault, key: Key)
    requires Sound(cfg, s.store, s.now, s.procs, key) && c.key != key
    ensures Sound(cfg, Perform(s.store, c, fault, s.now).0, s.now, s.procs, key)
  {
    KeyUntouched(s.store, c, fault, s.now, key);
  }
}
