/** The local outbox of usage events, drained oldest first, and the emission of one event. */
module UsageOutbox {
  import opened Usage

  datatype Row = Row(id: nat, payload: Event)

  function Payloads(rows: seq<Row>): seq<Event> {
    seq(|rows|, i requires 0 <= i < |rows| => rows[i].payload)
  }

  /** The rows left by DELETE ... WHERE id = `id`. */
  function WithoutId(rows: seq<Row>, id: nat): seq<Row> {
    if rows == [] then [] else (if rows[0].id == id then [] else [rows[0]]) + WithoutId(rows[1..], id)
  }

  lemma {:induction false} WithoutAbsent(rows: seq<Row>, id: nat)
    requires forall r :: r in rows ==> r.id != id
    ensures WithoutId(rows, id) == rows
  {
    if rows != [] { WithoutAbsent(rows[1..], id); }
  }

  ghost predicate Numbered(rows: seq<Row>) {
    forall i, j :: 0 <= i < j < |rows| ==> rows[i].id < rows[j].id
  }

  /** Deleting the oldest row by its id leaves the others. */
  lemma DeleteFirst(rows: seq<Row>)
    requires rows != [] && Numbered(rows)
    ensures WithoutId(rows, rows[0].id) == rows[1..]
  {
    WithoutAbsent(rows[1..], rows[0].id);
  }

  lemma PayloadsFirst(rows: seq<Row>)
    requires rows != []
    ensures Payloads(rows) == [rows[0].payload] + Payloads(rows[1..])
  {
  }

  /** The usage stream: an XADD is taken and confirmed, refused, or taken without confirmation. */
  class UsageStream {
    var log: seq<Event>

    constructor ()
      ensures log == []
    {
      log := [];
    }

    method Xadd(e: Event) returns (ok: bool, ghost how: Delivery)
      modifies this
      ensures ok == (how == Accepted)
      ensures log == if how == Dropped then old(log) else old(log) + [e]
    {
      if * { return false, Dropped; }
      log := log + [e];
      if * { return false, Doubtful; }
      return true, Accepted;
    }
  }

  /** The steps take the ledger `u` to one that mirrors the stream and the table, with
      nothing newly emitted. */
  ghost predicate Leads(u: Ledger, steps: seq<Step>, log: seq<Event>, rows: seq<Row>) {
    Legal(u, steps) && Run(u, steps) == Ledger(log, Payloads(rows), false, u.emitted, Run(u, steps).doubts)
  }

  /** The stream has received the first `count` pending events, and perhaps the next one
      without the drain learning of it. */
  predicate Resent(before: seq<Event>, pending: seq<Event>, count: nat, log: seq<Event>) {
    count <= |pending| &&
    (log == before + pending[..count] || (count < |pending| && log == before + pending[..count + 1]))
  }

  /** The step re-sends or removes an event and is confirmed. */
  predicate Confirmed(s: Step) {
    s == Resend(Accepted) || s == Remove(true)
  }

  ghost predicate AllConfirmed(steps: seq<Step>) {
    forall s :: s in steps ==> Confirmed(s)
  }

  predicate Refused(s: Step) {
    s == Resend(Dropped) || s == Resend(Doubtful) || s == Remove(false)
  }

  /** Everything went well up to the last step, which was refused. */
  ghost predicate StoppedAt(steps: seq<Step>) {
    steps != [] && AllConfirmed(steps[..|steps| - 1]) && Refused(steps[|steps| - 1])
  }

  /** A drain flushes everything, or stops at the first refusal and nowhere else. */
  ghost predicate Drained(steps: seq<Step>, everything: bool) {
    if everything then AllConfirmed(steps) else StoppedAt(steps)
  }

  class Outbox {
    var rows: seq<Row>
    var nextId: nat
    ghost var written: seq<Event>
    ghost var flushed: seq<Event>

    /** Rows are numbered in the order of writing; what was written is what has been flushed
        followed by what is still in the table. */
    ghost predicate Valid()
      reads this
    {
      && Numbered(rows)
      && (forall i :: 0 <= i < |rows| ==> rows[i].id < nextId)
      && written == flushed + Payloads(rows)
    }

    constructor ()
      ensures Valid() && rows == [] && written == []
    {
      rows, nextId, written, flushed := [], 0, [], [];
    }

    method Write(e: Event)
      requires Valid()
      modifies this
      ensures Valid() && written == old(written) + [e] && flushed == old(flushed)
      ensures Payloads(rows) == Payloads(old(rows)) + [e]
    {
      ghost var before := rows;
      rows, nextId := rows + [Row(nextId, e)], nextId + 1;
      assert Payloads(rows) == Payloads(before) + [e];
      written := written + [e];
    }

    /** DELETE of the oldest row by its id; a failing delete leaves the table as it is. */
    method DeleteOldest(id: nat) returns (ok: bool)
      requires Valid() && rows != [] && rows[0].id == id
      modifies this
      ensures Valid() && written == old(written)
      ensures rows == if ok then old(rows)[1..] else old(rows)
      ensures flushed == if ok then old(flushed) + [old(rows)[0].payload] else old(flushed)
    {
      if * { return false; }
      DeleteFirst(rows);
      PayloadsFirst(rows);
      flushed := flushed + [rows[0].payload];
      rows := WithoutId(rows, id);
      return true;
    }

    /** Re-sends the oldest row and removes it once the stream has confirmed it. */
    method FlushOldest(stream: UsageStream, row: Row, ghost u: Ledger, ghost done: seq<Step>)
          returns (ok: bool, ghost steps: seq<Step>)
      requires Valid() && rows != [] && rows[0] == row
      requires Leads(u, done, stream.log, rows) && AllConfirmed(done)
      modifies this, stream
      ensures Valid() && written == old(written)
      ensures rows == if ok then old(rows)[1..] else old(rows)
      ensures flushed == if ok then old(flushed) + [row.payload] else old(flushed)
      ensures stream.log == old(stream.log) + [row.payload] || (!ok && stream.log == old(stream.log))
      ensures Leads(u, steps, stream.log, rows) && Drained(steps, ok)
    {
      PayloadsFirst(rows);
      var sent, how := stream.Xadd(row.payload);
      ghost var v;
      v, steps := Extend(u, done, Run(u, done), Resend(how));
      if !sent { return false, steps; }
      ok := DeleteOldest(row.id);
      v, steps := Extend(u, steps, v, Remove(ok));
    }

    /** Re-sends the pending events oldest first and stops exactly at the first one that is
        not confirmed or not removed. `u` is the state of stream and outbox before the drain and
        `steps` what the drain did to it. */
    method Drain(stream: UsageStream, ghost u: Ledger) returns (count: nat, ghost steps: seq<Step>)
      requires Valid()
      requires u.stream == stream.log && u.outbox == Payloads(rows) && !u.flushing
      modifies this, stream
      ensures Valid() && written == old(written)
      ensures count <= |old(rows)| && rows == old(rows)[count..]
      ensures flushed == old(flushed) + Payloads(old(rows))[..count]
      ensures Resent(old(stream.log), Payloads(old(rows)), count, stream.log)
      ensures Leads(u, steps, stream.log, rows) && Drained(steps, count == |old(rows)|)
    {
      var pending := rows;
      ghost var all, sent := Payloads(rows), stream.log;
      count, steps := 0, [];
      var ok := true;
      while ok && count < |pending|
        invariant 0 <= count <= |pending|
        invariant Valid() && written == old(written)
        invariant rows == pending[count..] && flushed == old(flushed) + all[..count]
        invariant if ok then stream.log == sent + all[..count] else Resent(sent, all, count, stream.log)
        invariant !ok ==> count < |pending|
        invariant Leads(u, steps, stream.log, rows) && Drained(steps, ok)
        decreases ok, |pending| - count
      {
        NextPending(pending, count, sent);
        ghost var log := stream.log;
        ok, steps := FlushOldest(stream, pending[count], u, steps);
        if !ok { StopsAt(sent, all, count, log, stream.log); }
        if ok { count := count + 1; }
      }
    }
  }

  /** The event that was not confirmed may have reached the stream all the same. */
  lemma StopsAt(before: seq<Event>, pending: seq<Event>, count: nat, log: seq<Event>, after: seq<Event>)
    requires count < |pending| && log == before + pending[..count] && (after == log || after == log + [pending[count]])
    ensures Resent(before, pending, count, after)
  {
    assert pending[..count + 1] == pending[..count] + [pending[count]];
  }

  lemma NextPending(rows: seq<Row>, count: nat, before: seq<Event>)
    requires count < |rows|
    ensures Payloads(rows)[..count + 1] == Payloads(rows)[..count] + [rows[count].payload]
    ensures before + Payloads(rows)[..count + 1] == before + Payloads(rows)[..count] + [rows[count].payload]
    ensures rows[count..][1..] == rows[count + 1..]
  {
  }

  /** Records one more step of the stream and the outbox. */
  ghost method Extend(u: Ledger, steps: seq<Step>, v: Ledger, s: Step) returns (w: Ledger, longer: seq<Step>)
    requires Legal(u, steps) && Run(u, steps) == v && Enabled(v, s)
    ensures w == Next(v, s) && longer == steps + [s]
    ensures Legal(u, longer) && Run(u, longer) == w
  {
    w, longer := Next(v, s), steps + [s];
    assert [s][1..] == [] && Legal(w, []) && Run(w, []) == w;
    assert Run(v, [s]) == Run(Next(v, s), [s][1..]);
    RunAppend(u, steps, [s]);
  }

  /** Emits one event: drains what is pending, then sends it, and keeps it in the outbox
      unless the stream confirmed it. The steps are those of the drain, which flushes
      everything or stops at a refusal, followed by the emission. */
  method EmitUsage(outbox: Outbox, stream: UsageStream, e: Event, ghost u: Ledger)
        returns (ok: bool, ghost steps: seq<Step>)
    requires outbox.Valid()
    requires u.stream == stream.log && u.outbox == Payloads(outbox.rows) && !u.flushing
    modifies outbox, stream
    ensures outbox.Valid()
    ensures e in stream.log || e in Payloads(outbox.rows)
    ensures ok ==> e in stream.log && outbox.written == old(outbox.written)
    ensures !ok ==> outbox.written == old(outbox.written) + [e]
    ensures steps != [] && steps[|steps| - 1].Emit? && steps[|steps| - 1].event == e
            && ok == (steps[|steps| - 1].delivery == Accepted)
    ensures Drained(steps[..|steps| - 1], Payloads(outbox.rows) == if ok then [] else [e])
    ensures Legal(u, steps)
    ensures Run(u, steps) == Ledger(stream.log, Payloads(outbox.rows), false, u.emitted + [e], Run(u, steps).doubts)
  {
    ghost var drained, v, how;
    var count;
    count, drained := outbox.Drain(stream, u);
    v := Run(u, drained);
    ok, how := stream.Xadd(e);
    v, steps := Extend(u, drained, v, Emit(e, how));
    if !ok { outbox.Write(e); }
    assert steps[..|steps| - 1] == drained;
  }
}
