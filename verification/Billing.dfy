/** Exactly one billing event for every answered call, over every interleaving. */
module Billing {
  import opened Store
  import opened Lifecycle
  import opened System
  import Usage

  /** How many events bill one unit of the resource that `key` meters. */
  function BillCount(events: seq<Event>, key: Key): nat {
    if events == [] then 0
    else BillCount(events[..|events| - 1], key) + (if BillOn(events[|events| - 1], key) then 1 else 0)
  }

  predicate BillOn(e: Event, key: Key) {
    Billable(e.resource) && QuotaKey(e.org, e.resource) == key
  }

  ghost predicate BillInv(s: State, key: Key) {
    BillCount(s.usage.emitted, key) == Total(Bills(key), s.procs)
  }

  lemma BillAppend(events: seq<Event>, e: Event, key: Key)
    ensures BillCount(events + [e], key) == BillCount(events, key) + (if BillOn(e, key) then 1 else 0)
  {
    assert (events + [e])[..|events|] == events;
  }

  /** No step but a send bills a call. */
  lemma ResumeBills(cfg: Config, p: Proc, reply: Reply, applied: bool, now: real)
    requires Fits(cfg, p) && Ask(cfg, p).Some?
    ensures HasBilled(Resume(cfg, p, reply, applied, now)) == HasBilled(p)
    ensures Resume(cfg, p, reply, applied, now).req == p.req
  {
  }

  lemma HearBills(cfg: Config, p: Proc, input: Input)
    requires Fits(cfg, p) && Expects(p, input)
    ensures HasBilled(Hear(p, input)) == HasBilled(p) && Hear(p, input).req == p.req
  {
  }

  /** A send bills the call if and only if it had not been billed and the event is its bill. */
  lemma SentBills(cfg: Config, p: Proc, key: Key)
    requires Fits(cfg, p) && p.pc.Emit?
    ensures Weight(Bills(key), Sent(p)) == Weight(Bills(key), p) + (if BillOn(p.pc.todo[0], key) then 1 else 0)
  {
    if IsToken(p.pc.todo[0]) {
      assert forall e :: e in p.pc.todo[1..] ==> e in p.pc.todo;
      assert !IsBill(p.req, p.pc.todo);
    }
  }

  lemma BillSame(s: State, i: nat, q: Proc, key: Key)
    requires i < |s.procs| && BillInv(s, key) && q.req == s.procs[i].req && HasBilled(q) == HasBilled(s.procs[i])
    ensures BillInv(s.(procs := s.procs[i := q]), key)
  {
    TotalUpdate(Bills(key), s.procs, i, q);
  }

  lemma BillIssue(cfg: Config, s: State, i: nat, fault: Fault, key: Key)
    requires AllFit(cfg, s) && BillInv(s, key) && Enabled(cfg, s, Issue(i, fault))
    ensures BillInv(Next(cfg, s, Issue(i, fault)), key)
  {
    ResumeBills(cfg, s.procs[i], Perform(s.store, Ask(cfg, s.procs[i]).value, fault, s.now).1, fault != Skipped, s.now);
    BillSame(s, i, Resumed(cfg, s, i, fault), key);
  }

  lemma BillSentAt(events: seq<Event>, e: Event, ps: seq<Proc>, i: nat, q: Proc, key: Key)
    requires i < |ps| && BillCount(events, key) == Total(Bills(key), ps)
    requires Weight(Bills(key), q) == Weight(Bills(key), ps[i]) + (if BillOn(e, key) then 1 else 0)
    ensures BillCount(events + [e], key) == Total(Bills(key), ps[i := q])
  {
    TotalUpdate(Bills(key), ps, i, q);
    BillAppend(events, e, key);
  }

  lemma BillSend(cfg: Config, s: State, i: nat, delivery: Usage.Delivery, key: Key)
    requires AllFit(cfg, s) && BillInv(s, key) && Enabled(cfg, s, Send(i, delivery))
    ensures BillInv(Next(cfg, s, Send(i, delivery)), key)
  {
    var e := s.procs[i].pc.todo[0];
    SentBills(cfg, s.procs[i], key);
    BillSentAt(s.usage.emitted, e, s.procs, i, Sent(s.procs[i]), key);
    assert Usage.Next(s.usage, Usage.Emit(e, delivery)).emitted == s.usage.emitted + [e];
  }

  lemma BillNext(cfg: Config, s: State, a: Action, key: Key)
    requires AllFit(cfg, s) && BillInv(s, key) && Enabled(cfg, s, a)
    ensures BillInv(Next(cfg, s, a), key)
  {
    match a {
      case Arrive(req) => TotalAppend(Bills(key), s.procs, Spawn(req));
      case Issue(i, fault) => BillIssue(cfg, s, i, fault, key);
      case Receive(i, input) =>
        HearBills(cfg, s.procs[i], input);
        BillSame(s, i, Hear(s.procs[i], input), key);
      case Send(i, delivery) => BillSend(cfg, s, i, delivery, key);
      case _ =>
    }
  }

  // ---------------------------------------------------------------- events are kept, wherever they are

  lemma UsageNext(cfg: Config, s: State, a: Action)
    requires Enabled(cfg, s, a) && Usage.Kept(s.usage) && Usage.Exact(s.usage)
    ensures Usage.Kept(Next(cfg, s, a).usage) && Usage.Exact(Next(cfg, s, a).usage)
  {
    match a {
      case Send(i, delivery) =>
        Usage.NextKept(s.usage, Usage.Emit(s.procs[i].pc.todo[0], delivery));
        Usage.NextExact(s.usage, Usage.Emit(s.procs[i].pc.todo[0], delivery));
      case Drain(step) =>
        Usage.NextKept(s.usage, step);
        Usage.NextExact(s.usage, step);
      case _ =>
    }
  }

  /** Taking one event out of the middle. */
  lemma BillRemove(b: seq<Event>, j: nat, key: Key)
    requires j < |b|
    ensures BillCount(b, key) == BillCount(b[..j] + b[j + 1..], key) + (if BillOn(b[j], key) then 1 else 0)
  {
    assert b == (b[..j] + [b[j]]) + b[j + 1..];
    BillCountSplit(b[..j] + [b[j]], b[j + 1..], key);
    BillCountSplit(b[..j], b[j + 1..], key);
    BillAppend(b[..j], b[j], key);
  }

  lemma MultisetRemove(b: seq<Event>, j: nat)
    requires j < |b|
    ensures multiset(b[..j] + b[j + 1..]) == multiset(b) - multiset{b[j]}
  {
    assert b == (b[..j] + [b[j]]) + b[j + 1..];
  }

  /** The count depends only on how often each event occurs. */
  lemma {:induction false} BillCountMultiset(a: seq<Event>, b: seq<Event>, key: Key)
    requires multiset(a) == multiset(b)
    ensures BillCount(a, key) == BillCount(b, key)
    decreases |a|
  {
    if a == [] {
      assert |multiset(b)| == 0;
    } else {
      var front, e := a[..|a| - 1], a[|a| - 1];
      assert a == front + [e];
      assert e in multiset(b);
      var j :| 0 <= j < |b| && b[j] == e;
      MultisetRemove(b, j);
      assert multiset(front) == multiset(a) - multiset{e};
      BillCountMultiset(front, b[..j] + b[j + 1..], key);
      BillRemove(b, j, key);
    }
  }

  lemma {:induction false} BillCountSplit(a: seq<Event>, b: seq<Event>, key: Key)
    ensures BillCount(a + b, key) == BillCount(a, key) + BillCount(b, key)
    decreases |b|
  {
    if b == [] {
      assert a + b == a;
    } else {
      var front, e := b[..|b| - 1], b[|b| - 1];
      assert a + b == (a + front) + [e] && b == front + [e];
      BillCountSplit(a, front, key);
      BillAppend(a + front, e, key);
    }
  }
}
