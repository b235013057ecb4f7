/** Billable usage events on their way to the billing consumer: a stream that may refuse an
    event, or take it and still report a failure, and a local outbox that keeps what the
    stream did not confirm until a drain re-sends it. */
module Usage {
  import opened Store

  datatype Event = Event(id: string, org: string, resource: Resource, quantity: nat)

  /** What one XADD does: taken and confirmed, refused, or taken but reported as failed. */
  datatype Delivery = Accepted | Dropped | Doubtful

  /** `flushing` says that a drain has re-sent the oldest outbox row and not yet removed it.
      `emitted` and `doubts` are the history: every event ever emitted, and how many times a
      confirmation or a row removal was lost. */
  datatype Ledger = Ledger(stream: seq<Event>, outbox: seq<Event>, flushing: bool, emitted: seq<Event>, doubts: nat)

  datatype Step =
    | Emit(event: Event, delivery: Delivery)
    | Resend(delivery: Delivery)
    | Remove(ok: bool)

  const IDLE: Ledger := Ledger([], [], false, [], 0)

  predicate Enabled(u: Ledger, s: Step) {
    match s
    case Emit(_, _) => true
    case Resend(_) => !u.flushing && u.outbox != []
    case Remove(_) => u.flushing
  }

  function Next(u: Ledger, s: Step): Ledger
    requires Enabled(u, s)
  {
    match s
    case Emit(e, Accepted) => u.(stream := u.stream + [e], emitted := u.emitted + [e])
    case Emit(e, Dropped) => u.(outbox := u.outbox + [e], emitted := u.emitted + [e])
    case Emit(e, Doubtful) =>
      u.(stream := u.stream + [e], outbox := u.outbox + [e], emitted := u.emitted + [e], doubts := u.doubts + 1)
    case Resend(Accepted) => u.(stream := u.stream + [u.outbox[0]], flushing := true)
    case Resend(Dropped) => u
    case Resend(Doubtful) => u.(stream := u.stream + [u.outbox[0]], doubts := u.doubts + 1)
    case Remove(ok) =>
      if ok && u.outbox != [] then u.(outbox := u.outbox[1..], flushing := false)
      else u.(flushing := false, doubts := u.doubts + 1)
  }

  predicate Legal(u: Ledger, steps: seq<Step>)
    decreases |steps|
  {
    steps == [] || (Enabled(u, steps[0]) && Legal(Next(u, steps[0]), steps[1..]))
  }

  function Run(u: Ledger, steps: seq<Step>): Ledger
    requires Legal(u, steps)
    decreases |steps|
  {
    if steps == [] then u else Run(Next(u, steps[0]), steps[1..])
  }

  lemma {:induction false} RunAppend(u: Ledger, a: seq<Step>, b: seq<Step>)
    requires Legal(u, a) && Legal(Run(u, a), b)
    ensures Legal(u, a + b) && Run(u, a + b) == Run(Run(u, a), b)
    decreases |a|
  {
    if a == [] {
      assert a + b == b;
    } else {
      RunAppend(Next(u, a[0]), a[1..], b);
      assert (a + b)[1..] == a[1..] + b;
    }
  }

  // ---------------------------------------------------------------- oldest first

  /** What a step writes to the outbox, and what it takes out of it. */
  function WrittenBy(s: Step): seq<Event> {
    if s.Emit? && s.delivery != Accepted then [s.event] else []
  }

  function RemovedBy(u: Ledger, s: Step): seq<Event> {
    if s == Remove(true) && u.outbox != [] then [u.outbox[0]] else []
  }

  function Written(steps: seq<Step>): seq<Event> {
    if steps == [] then [] else WrittenBy(steps[0]) + Written(steps[1..])
  }

  function Removed(u: Ledger, steps: seq<Step>): seq<Event>
    requires Legal(u, steps)
    decreases |steps|
  {
    if steps == [] then [] else RemovedBy(u, steps[0]) + Removed(Next(u, steps[0]), steps[1..])
  }

  lemma StepOrder(u: Ledger, s: Step)
    requires Enabled(u, s) && Kept(u)
    ensures u.outbox + WrittenBy(s) == RemovedBy(u, s) + Next(u, s).outbox
    ensures forall e :: e in RemovedBy(u, s) ==> e in Next(u, s).stream
  {
    if u.outbox != [] {
      assert u.outbox == [u.outbox[0]] + u.outbox[1..];
    }
  }

  lemma Regroup(a: seq<Event>, w: seq<Event>, ws: seq<Event>, r: seq<Event>, b: seq<Event>, rs: seq<Event>,
        c: seq<Event>)
    requires a + w == r + b && b + ws == rs + c
    ensures a + (w + ws) == (r + rs) + c
  {
    assert a + (w + ws) == (a + w) + ws == r + (b + ws);
  }

  /** Over any run, what has been taken out is a prefix of what was written, in the order
      of writing; the outbox holds exactly the rest; and whatever was taken out had been
      accepted by the stream. */
  lemma {:induction false} OldestFirst(u: Ledger, steps: seq<Step>)
    requires Legal(u, steps) && Kept(u)
    ensures u.outbox + Written(steps) == Removed(u, steps) + Run(u, steps).outbox
    ensures forall e :: e in Removed(u, steps) ==> e in Run(u, steps).stream
    decreases |steps|
  {
    if steps != [] {
      var s, rest, v := steps[0], steps[1..], Next(u, steps[0]);
      NextKept(u, s);
      StepOrder(u, s);
      OldestFirst(v, rest);
      StreamGrows(v, rest);
      Regroup(u.outbox, WrittenBy(s), Written(rest), RemovedBy(u, s), v.outbox, Removed(v, rest), Run(v, rest).outbox);
    }
  }

  lemma {:induction false} StreamGrows(u: Ledger, steps: seq<Step>)
    requires Legal(u, steps)
    ensures u.stream <= Run(u, steps).stream
    decreases |steps|
  {
    if steps != [] { StreamGrows(Next(u, steps[0]), steps[1..]); }
  }

  // ---------------------------------------------------------------- nothing is lost, nothing is invented

  ghost predicate Kept(u: Ledger) {
    && (forall e :: e in u.emitted <==> e in u.stream || e in u.outbox)
    && (u.flushing ==> u.outbox != [] && u.outbox[0] in u.stream)
  }

  /** Without lost confirmations the stream and the outbox together hold exactly the
      emitted events; the row a drain is removing is counted on both sides. */
  ghost predicate Exact(u: Ledger) {
    u.doubts == 0 ==> multiset(u.stream) + multiset(u.outbox) == multiset(u.emitted) + InHand(u)
  }

  ghost function InHand(u: Ledger): multiset<Event> {
    if u.flushing && u.outbox != [] then multiset{u.outbox[0]} else multiset{}
  }

  lemma NextKept(u: Ledger, s: Step)
    requires Kept(u) && Enabled(u, s)
    ensures Kept(Next(u, s))
  {
    var v := Next(u, s);
    if u.outbox != [] {
      assert u.outbox == [u.outbox[0]] + u.outbox[1..];
    }
    forall e ensures e in v.emitted <==> e in v.stream || e in v.outbox {
      assert e in u.emitted <==> e in u.stream || e in u.outbox;
    }
  }

  lemma Swap(a: multiset<Event>, b: multiset<Event>, c: multiset<Event>)
    ensures (a + b) + c == (a + c) + b
    ensures (a + b) + c == a + (b + c)
  {
  }

  lemma Cancel(a: multiset<Event>, b: multiset<Event>, c: multiset<Event>)
    requires a + c == b + c
    ensures a == b
  {
    assert (a + c) - c == a && (b + c) - c == b;
  }

  lemma EmitExact(u: Ledger, e: Event, d: Delivery)
    requires Kept(u) && Exact(u)
    ensures Exact(Next(u, Emit(e, d)))
  {
    var v := Next(u, Emit(e, d));
    Swap(multiset(u.stream), multiset(u.outbox), multiset{e});
    Swap(multiset(u.emitted), InHand(u), multiset{e});
    assert InHand(v) == InHand(u);
  }

  lemma ResendExact(u: Ledger, d: Delivery)
    requires Kept(u) && Exact(u) && Enabled(u, Resend(d))
    ensures Exact(Next(u, Resend(d)))
  {
    Swap(multiset(u.stream), multiset(u.outbox), multiset{u.outbox[0]});
  }

  lemma RemoveExact(u: Ledger, ok: bool)
    requires Kept(u) && Exact(u) && Enabled(u, Remove(ok))
    ensures Exact(Next(u, Remove(ok)))
  {
    var head := multiset{u.outbox[0]};
    assert u.outbox == [u.outbox[0]] + u.outbox[1..];
    if ok && u.doubts == 0 {
      Swap(multiset(u.stream), multiset(u.outbox[1..]), head);
      assert multiset(u.outbox) == multiset(u.outbox[1..]) + head;
      Cancel(multiset(u.stream) + multiset(u.outbox[1..]), multiset(u.emitted), head);
    }
  }

  lemma NextExact(u: Ledger, s: Step)
    requires Kept(u) && Exact(u) && Enabled(u, s)
    ensures Exact(Next(u, s))
  {
    match s {
      case Emit(e, d) => EmitExact(u, e, d);
      case Resend(d) => ResendExact(u, d);
      case Remove(ok) => RemoveExact(u, ok);
    }
  }

  /** For every run of emits and drains: each emitted event is in the stream or in the
      outbox, nothing else is, and without lost confirmations each is there exactly as
      often as it was emitted. */
  lemma {:induction false} NothingLost(u: Ledger, steps: seq<Step>)
    requires Kept(u) && Exact(u) && Legal(u, steps)
    ensures Kept(Run(u, steps)) && Exact(Run(u, steps))
    decreases |steps|
  {
    if steps != [] {
      NextKept(u, steps[0]);
      NextExact(u, steps[0]);
      NothingLost(Next(u, steps[0]), steps[1..]);
    }
  }

  // ---------------------------------------------------------------- the consumer counts each id once

  /** What a consumer bills that skips every event id it has already seen. */
  function Billed(stream: seq<Event>, seen: set<string>): nat {
    if stream == [] then 0
    else if stream[0].id in seen then Billed(stream[1..], seen)
    else stream[0].quantity + Billed(stream[1..], seen + {stream[0].id})
  }

  /** The quantities of the events whose id is not in `seen`. */
  function Total(events: seq<Event>, seen: set<string>): nat {
    if events == [] then 0
    else (if events[0].id in seen then 0 else events[0].quantity) + Total(events[1..], seen)
  }

  lemma {:induction false} TotalDrop(events: seq<Event>, seen: set<string>, e: Event)
    requires e.id !in seen
    ensures Total(events, seen + {e.id}) <= Total(events, seen)
    ensures e in events ==> e.quantity + Total(events, seen + {e.id}) <= Total(events, seen)
  {
    if events != [] {
      TotalDrop(events[1..], seen, e);
      assert events == [events[0]] + events[1..];
    }
  }

  lemma {:induction false} BilledAtMost(stream: seq<Event>, seen: set<string>, events: seq<Event>)
    requires forall e :: e in stream ==> e in events
    ensures Billed(stream, seen) <= Total(events, seen)
    decreases |stream|
  {
    if stream != [] {
      var e := stream[0];
      if e.id in seen {
        BilledAtMost(stream[1..], seen, events);
      } else {
        BilledAtMost(stream[1..], seen + {e.id}, events);
        TotalDrop(events, seen, e);
      }
    }
  }

  ghost predicate DistinctIds(events: seq<Event>) {
    forall i, j :: 0 <= i < j < |events| ==> events[i].id != events[j].id
  }

  lemma {:induction false} TotalTake(events: seq<Event>, seen: set<string>, e: Event)
    requires DistinctIds(events) && e.id !in seen
    ensures e in events ==> Total(events, seen) == e.quantity + Total(events, seen + {e.id})
    ensures (forall d :: d in events ==> d.id != e.id) ==> Total(events, seen) == Total(events, seen + {e.id})
  {
    if events != [] {
      var head, rest := events[0], events[1..];
      assert events == [head] + rest;
      assert DistinctIds(rest);
      TotalTake(rest, seen, e);
      if head == e {
        forall d | d in rest ensures d.id != e.id {
          var j :| 0 <= j < |rest| && rest[j] == d;
          assert events[j + 1] == d;
        }
      } else if e in rest {
        var j :| 0 <= j < |rest| && rest[j] == e;
        assert events[j + 1] == e;
      }
    }
  }

  /** When every event still unseen is in the stream, all of it is billed. */
  lemma {:induction false} BilledAll(stream: seq<Event>, seen: set<string>, events: seq<Event>)
    requires DistinctIds(events)
    requires forall e :: e in stream ==> e in events
    requires forall e :: e in events && e.id !in seen ==> e in stream
    ensures Billed(stream, seen) == Total(events, seen)
    decreases |stream|
  {
    if stream == [] {
      TotalNone(events, seen);
    } else {
      var e := stream[0];
      assert stream == [e] + stream[1..];
      if e.id in seen {
        BilledAll(stream[1..], seen, events);
      } else {
        BilledAll(stream[1..], seen + {e.id}, events);
        TotalTake(events, seen, e);
      }
    }
  }

  lemma {:induction false} TotalNone(events: seq<Event>, seen: set<string>)
    requires forall e :: e in events ==> e.id in seen
    ensures Total(events, seen) == 0
  {
    if events != [] { TotalNone(events[1..], seen); }
  }

  // ---------------------------------------------------------------- when exactly everything is billed

  /** The first event of the stream with the id of `e` is `e` itself. */
  predicate FirstIn(stream: seq<Event>, e: Event) {
    stream != [] && if stream[0].id == e.id then stream[0] == e else FirstIn(stream[1..], e)
  }

  /** The event is worth something and its id has not been seen. */
  predicate Owed(e: Event, seen: set<string>) {
    e.quantity > 0 && e.id !in seen
  }

  /** No two events that are worth something share an id, and none comes in the stream after
      another event of its id. */
  ghost predicate Separate(stream: seq<Event>, seen: set<string>, events: seq<Event>) {
    && (forall i, j :: 0 <= i < j < |events| && Owed(events[i], seen) && Owed(events[j], seen) ==>
      events[i].id != events[j].id)
    && (forall e :: e in events && Owed(e, seen) ==> FirstIn(stream, e))
  }

  /** What the events of one id are worth. */
  function Worth(events: seq<Event>, id: string): nat {
    if events == [] then 0 else (if events[0].id == id then events[0].quantity else 0) + Worth(events[1..], id)
  }

  lemma {:induction false} TotalSplit(events: seq<Event>, seen: set<string>, id: string)
    requires id !in seen
    ensures Total(events, seen) == Worth(events, id) + Total(events, seen + {id})
  {
    if events != [] { TotalSplit(events[1..], seen, id); }
  }

  lemma {:induction false} WorthNothing(events: seq<Event>, id: string)
    ensures Worth(events, id) == 0 <==> forall e :: e in events && e.id == id ==> e.quantity == 0
  {
    if events != [] {
      WorthNothing(events[1..], id);
      assert events == [events[0]] + events[1..];
    }
  }

  /** One event is all that its id is worth exactly when every other is worth nothing. */
  ghost predicate Alone(events: seq<Event>, e: Event) {
    && (forall i, j :: 0 <= i < j < |events| && events[i].id == e.id && events[j].id == e.id ==>
          events[i].quantity == 0 || events[j].quantity == 0)
    && (forall d :: d in events && d.id == e.id && d.quantity > 0 ==> d == e)
  }

  lemma {:induction false} WorthAlone(events: seq<Event>, e: Event)
    requires e in events
    ensures Worth(events, e.id) >= e.quantity
    ensures Worth(events, e.id) == e.quantity <==> Alone(events, e)
  {
    var head, rest := events[0], events[1..];
    assert events == [head] + rest;
    WorthNothing(rest, e.id);
    AloneTail(events, e);
    if head != e { WorthAlone(rest, e); }
    else if e in rest { WorthAlone(rest, e); }
  }

  lemma AloneTail(events: seq<Event>, e: Event)
    requires events != []
    ensures Alone(events, e) <==>
      && Alone(events[1..], e)
      && (events[0].id == e.id && events[0].quantity > 0 ==>
            events[0] == e && forall d :: d in events[1..] && d.id == e.id ==> d.quantity == 0)
  {
    var head, rest := events[0], events[1..];
    assert events == [head] + rest;
    if Alone(events, e) {
      forall i, j | 0 <= i < j < |rest| && rest[i].id == e.id && rest[j].id == e.id
        ensures rest[i].quantity == 0 || rest[j].quantity == 0
      {
        assert events[i + 1] == rest[i] && events[j + 1] == rest[j];
      }
      if head.id == e.id && head.quantity > 0 {
        forall d | d in rest && d.id == e.id ensures d.quantity == 0 {
          var j :| 0 <= j < |rest| && rest[j] == d;
          assert events[0] == head && events[j + 1] == d;
        }
      }
    }
    if && Alone(rest, e)
       && (head.id == e.id && head.quantity > 0 ==>
             head == e && forall d :: d in rest && d.id == e.id ==> d.quantity == 0) {
      forall i, j | 0 <= i < j < |events| && events[i].id == e.id && events[j].id == e.id
        ensures events[i].quantity == 0 || events[j].quantity == 0
      {
        assert events[j] == rest[j - 1] && (i > 0 ==> events[i] == rest[i - 1]);
      }
    }
  }

  lemma SeparateStep(stream: seq<Event>, seen: set<string>, events: seq<Event>)
    requires stream != [] && stream[0].id !in seen && stream[0] in events
    ensures Separate(stream, seen, events)
            <==> Alone(events, stream[0]) && Separate(stream[1..], seen + {stream[0].id}, events)
  {
    var e, later := stream[0], seen + {stream[0].id};
    forall d: Event | d.id != e.id ensures FirstIn(stream, d) <==> FirstIn(stream[1..], d) {}
    forall d: Event | d.id == e.id ensures FirstIn(stream, d) <==> d == e {}
    if Separate(stream, seen, events) {
      forall i, j | 0 <= i < j < |events| && events[i].id == e.id && events[j].id == e.id
        ensures events[i].quantity == 0 || events[j].quantity == 0
      {
        assert Owed(events[i], seen) && Owed(events[j], seen) ==> false;
      }
    }
  }

  lemma SeparateSkip(stream: seq<Event>, seen: set<string>, events: seq<Event>)
    requires stream != [] && stream[0].id in seen
    ensures Separate(stream, seen, events) <==> Separate(stream[1..], seen, events)
  {
    forall d: Event | d.id !in seen ensures FirstIn(stream, d) <==> FirstIn(stream[1..], d) {}
  }

  lemma {:induction false} BilledExactFrom(stream: seq<Event>, seen: set<string>, events: seq<Event>)
    requires forall e :: e in stream ==> e in events
    requires forall e :: e in events && e.id !in seen ==> e in stream
    ensures Billed(stream, seen) == Total(events, seen) <==> Separate(stream, seen, events)
    decreases |stream|
  {
    if stream == [] {
      TotalNone(events, seen);
    } else {
      var e, rest := stream[0], stream[1..];
      assert stream == [e] + rest;
      if e.id in seen {
        BilledExactFrom(rest, seen, events);
        SeparateSkip(stream, seen, events);
      } else {
        BilledExactFrom(rest, seen + {e.id}, events);
        BilledAtMost(rest, seen + {e.id}, events);
        TotalSplit(events, seen, e.id);
        WorthAlone(events, e);
        SeparateStep(stream, seen, events);
      }
    }
  }

  /** Once the outbox is empty, everything emitted is billed if and only if no two events that
      are worth something share an id and none is preceded in the stream by a worthless one of
      its id. */
  lemma BilledExact(u: Ledger)
    requires Kept(u) && u.outbox == []
    ensures Billed(u.stream, {}) == Total(u.emitted, {}) <==> Separate(u.stream, {}, u.emitted)
  {
    BilledExactFrom(u.stream, {}, u.emitted);
  }

  /** When every event is worth something: if and only if the ids are distinct. */
  lemma BilledExactPositive(u: Ledger)
    requires Kept(u) && u.outbox == [] && forall e :: e in u.emitted ==> e.quantity > 0
    ensures Billed(u.stream, {}) == Total(u.emitted, {}) <==> DistinctIds(u.emitted)
  {
    BilledExact(u);
    if DistinctIds(u.emitted) {
      BilledAll(u.stream, {}, u.emitted);
    } else {
      var i, j :| 0 <= i < j < |u.emitted| && u.emitted[i].id == u.emitted[j].id;
      assert Owed(u.emitted[i], {}) && Owed(u.emitted[j], {});
    }
  }

  /** Whatever fails along the way, a consumer that counts each event id once never bills
      more than was emitted. Once the outbox is empty it bills exactly what was emitted if and
      only if the emitted ids are apart. */
  lemma CountOnce(steps: seq<Step>)
    requires Legal(IDLE, steps)
    ensures var u := Run(IDLE, steps);
            && Billed(u.stream, {}) <= Total(u.emitted, {})
            && (u.outbox == [] ==> (Billed(u.stream, {}) == Total(u.emitted, {})
                <==> Separate(u.stream, {}, u.emitted)))
            && (u.outbox == [] && DistinctIds(u.emitted) ==> Billed(u.stream, {}) == Total(u.emitted, {}))
            && (u.outbox == [] && (forall e :: e in u.emitted ==> e.quantity > 0) ==>
                  (Billed(u.stream, {}) == Total(u.emitted, {}) <==> DistinctIds(u.emitted)))
  {
    NothingLost(IDLE, steps);
    var u := Run(IDLE, steps);
    BilledAtMost(u.stream, {}, u.emitted);
    if u.outbox == [] {
      BilledExact(u);
      if DistinctIds(u.emitted) { BilledAll(u.stream, {}, u.emitted); }
      if forall e :: e in u.emitted ==> e.quantity > 0 { BilledExactPositive(u); }
    }
  }
}
