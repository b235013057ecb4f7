/** The requests' program run on the in-process store: as long as there is room for the live
    keys, it behaves exactly as on the plain map that the guarantees are proved for. */
module InProcess {
  import opened Store
  import opened Lifecycle
  import opened System
  import opened MemoryStore
  import ExpiringMap

  predicate NoneFail(run: seq<Action>) {
    forall a :: a in run ==> (a.Issue? || a.Foreign? ==> a.fault == NoFault)
  }

  /** The commands a run issues, with the tick at which each is carried out. */
  ghost function Issued(cfg: Config, s: State, run: seq<Action>): seq<ExpiringMap.Issued>
    requires Legal(cfg, s, run)
    decreases |run|
  {
    if run == [] then []
    else CommandOf(cfg, s, run[0]) + Issued(cfg, Next(cfg, s, run[0]), run[1..])
  }

  ghost function CommandOf(cfg: Config, s: State, a: Action): seq<ExpiringMap.Issued>
    requires Enabled(cfg, s, a)
  {
    match a
    case Issue(i, _) => [ExpiringMap.Issued(Ask(cfg, s.procs[i]).value, At(s.now))]
    case Foreign(c, _) => [ExpiringMap.Issued(c, At(s.now))]
    case _ => []
  }

  /** The replies the requests go on with. */
  ghost function Replies(cfg: Config, s: State, run: seq<Action>): seq<Reply>
    requires Legal(cfg, s, run)
    decreases |run|
  {
    if run == [] then []
    else ReplyTo(cfg, s, run[0]) + Replies(cfg, Next(cfg, s, run[0]), run[1..])
  }

  ghost function ReplyTo(cfg: Config, s: State, a: Action): seq<Reply>
    requires Enabled(cfg, s, a)
  {
    match a
    case Issue(i, fault) => [Perform(s.store, Ask(cfg, s.procs[i]).value, fault, s.now).1]
    case Foreign(c, fault) => [Perform(s.store, c, fault, s.now).1]
    case _ => []
  }

  lemma StepOnPlain(cfg: Config, s: State, a: Action)
    requires Enabled(cfg, s, a) && NoneFail([a])
    ensures var cs := CommandOf(cfg, s, a);
            if cs == [] then Next(cfg, s, a).store == s.store && ReplyTo(cfg, s, a) == []
            else cs == [ExpiringMap.Issued(cs[0].cmd, At(s.now))] && Next(cfg, s, a).now == s.now
                 && Next(cfg, s, a).store == PlainStep(s.store, cs[0].cmd, At(s.now)).0
                 && ReplyTo(cfg, s, a) == [PlainStep(s.store, cs[0].cmd, At(s.now)).1]
    ensures s.now <= Next(cfg, s, a).now
  {
    assert a in [a];
  }

  /** The run's commands come in clock order, and the plain map gives its replies. */
  lemma {:induction false} RunOnPlain(cfg: Config, s: State, run: seq<Action>, from: real)
    requires Legal(cfg, s, run) && NoneFail(run) && from <= s.now
    ensures ExpiringMap.InOrder(from, Issued(cfg, s, run))
    ensures ExpiringMap.PlainRun(s.store, Issued(cfg, s, run)) == (Run(cfg, s, run).store, Replies(cfg, s, run))
    decreases |run|
  {
    if run != [] {
      var a, rest, t := run[0], run[1..], Next(cfg, s, run[0]);
      assert a in run && forall b :: b in rest ==> b in run;
      StepOnPlain(cfg, s, a);
      RunOnPlain(cfg, t, rest, if CommandOf(cfg, s, a) == [] then from else s.now);
      OneOnPlain(s.store, CommandOf(cfg, s, a), ReplyTo(cfg, s, a), t.store, Issued(cfg, t, rest), from, s.now);
    }
  }

  /** At most one command at `now`, put before those that follow. */
  lemma OneOnPlain(m: Plain, first: seq<ExpiringMap.Issued>, reply: seq<Reply>, after: Plain,
        rest: seq<ExpiringMap.Issued>, from: real, now: real)
    requires from <= now
    requires if first == [] then after == m && reply == []
             else first == [ExpiringMap.Issued(first[0].cmd, At(now))]
                  && after == PlainStep(m, first[0].cmd, At(now)).0 && reply == [PlainStep(m, first[0].cmd, At(now)).1]
    requires ExpiringMap.InOrder(if first == [] then from else now, rest)
    ensures ExpiringMap.InOrder(from, first + rest)
    ensures ExpiringMap.PlainRun(m, first + rest)
            == (ExpiringMap.PlainRun(after, rest).0, reply + ExpiringMap.PlainRun(after, rest).1)
  {
    if first == [] {
      assert first + rest == rest && reply + ExpiringMap.PlainRun(after, rest).1 == ExpiringMap.PlainRun(after, rest).1;
    } else {
      assert (first + rest)[0] == first[0] && (first + rest)[1..] == rest;
    }
  }

  /** Over any run without failures, the in-process dictionary, started with the same live
      entries, gives every request the very replies it got from the plain map. */
  lemma SameReplies(cfg: Config, s: State, run: seq<Action>, mem: Mem)
    requires Legal(cfg, s, run) && NoneFail(run)
    requires WellFormed(mem) && ExpiringMap.Agree(mem.data, s.store, s.now)
    requires ExpiringMap.Roomy(s.store, Issued(cfg, s, run))
    ensures ExpiringMap.MemRun(mem, Issued(cfg, s, run)).1 == Replies(cfg, s, run)
  {
    RunOnPlain(cfg, s, run, s.now);
    ExpiringMap.Refinement(mem, s.store, s.now, Issued(cfg, s, run));
  }
}
