/** All runs of the recovery manager: events reported from any context, one worker thread per
    CRTC, a client list and a result flag that all of them share. */
module RecoveryRuns {
  import opened RecoveryPool

  datatype Client = Client(events: seq<nat>, hasCallback: bool)

  datatype Manager = Manager(
    contexts: seq<Context>, clients: seq<Client>,
    ok: bool,               // the static result flag
    rcs: seq<int>)          // what every callback returned so far

  /** How many clients are asked to recover from the event. */
  function Asked(clients: seq<Client>, event: nat): nat {
    if clients == [] then 0
    else (if clients[0].hasCallback && event in clients[0].events then 1 else 0) + Asked(clients[1..], event)
  }

  /** The client has a callback and registered for the event. */
  ghost predicate Concerned(c: Client, event: nat) {
    c.hasCallback && exists j :: 0 <= j < |c.events| && c.events[j] == event
  }

  /** That is the number of clients the event concerns. */
  lemma {:induction false} AskedCounts(clients: seq<Client>, event: nat)
    ensures Asked(clients, event) == |(set k: nat | k < |clients| && Concerned(clients[k], event))|
    decreases |clients|
  {
    var at := set k: nat | k < |clients| && Concerned(clients[k], event);
    if clients == [] {
      assert at == {};
    } else {
      var rest := clients[1..];
      var at' := set k: nat | k < |rest| && Concerned(rest[k], event);
      var up := set k | k in at' :: k + 1;
      assert 0 in at <==> clients[0].hasCallback && event in clients[0].events;
      AskedCounts(rest, event);
      hide Concerned;
      Shifted(at', up);
      forall k: nat ensures k in at && k > 0 <==> k in up {
        if k > 0 && k - 1 < |rest| { assert rest[k - 1] == clients[k]; }
        if k > 0 && k in at { assert k - 1 in at' && (k - 1) + 1 in up; }
      }
      assert at == if 0 in at then up + {0} else up;
    }
  }

  lemma {:induction false} Shifted(s: set<nat>, up: set<nat>)
    requires up == set k | k in s :: k + 1
    ensures |up| == |s| && 0 !in up
    decreases s
  {
    if s != {} {
      var x :| x in s;
      var up' := set k | k in s - {x} :: k + 1;
      Shifted(s - {x}, up');
      assert x + 1 !in up';
      forall k ensures k in up <==> k in up' + {x + 1} {
        if k in up && k != x + 1 { assert k - 1 in s - {x}; }
      }
      assert up == up' + {x + 1};
    }
  }

  predicate NoFailure(rcs: seq<int>) {
    forall i :: 0 <= i < |rcs| ==> rcs[i] == 0
  }

  datatype Step =
    | QueueEvent(i: nat, event: nat)
    | Work(i: nat, m: Move)                    // a step of worker i that needs nothing shared
    | RunCallbacks(i: nat, answers: seq<int>)  // under the client lock
    | ReadFlag(i: nat)                         // after it is released
    | SetClients(clients: seq<Client>)

  predicate Possible(s: Manager, a: Step) {
    match a
    case QueueEvent(i, _) => i < |s.contexts|
    case Work(i, m) => i < |s.contexts| && !m.Recover? && !m.Read? && RecoveryPool.Enabled(s.contexts[i], m)
    case RunCallbacks(i, answers) =>
      && i < |s.contexts| && RecoveryPool.Enabled(s.contexts[i], Recover(0))
      && InPool(s.contexts[i]) && s.contexts[i].phase.k < |s.contexts[i].busy|
      && |answers| == Asked(s.clients, Current(s.contexts[i]).event)
    case ReadFlag(i) => i < |s.contexts| && RecoveryPool.Enabled(s.contexts[i], Read(true, 0))
    case SetClients(_) => true
  }

  predicate Runnable(s: Manager) {
    forall i :: 0 <= i < |s.contexts| ==>
      var c := s.contexts[i];
      InPool(c) && (c.phase.Handling? && !c.phase.stage.ToNotify? ==> c.phase.k < |c.busy|)
  }

  function Apply(s: Manager, a: Step): Manager
    requires Possible(s, a) && Runnable(s)
  {
    match a
    case QueueEvent(i, event) => s.(contexts := s.contexts[i := Queue(s.contexts[i], Entry(event, i))])
    case Work(i, m) => s.(contexts := s.contexts[i := Do(s.contexts[i], m)])
    case RunCallbacks(i, answers) =>
      s.(contexts := s.contexts[i := Do(s.contexts[i], Recover(|s.rcs| + |answers|))],
         rcs := s.rcs + answers, ok := s.ok && NoFailure(answers))
    case ReadFlag(i) => s.(contexts := s.contexts[i := Do(s.contexts[i], Read(s.ok, |s.rcs|))])
    case SetClients(clients) => s.(clients := clients)
  }

  ghost predicate ValidRun(s: Manager, steps: seq<Step>)
    decreases |steps|
  {
    steps == [] || (Runnable(s) && Possible(s, steps[0]) && ValidRun(Apply(s, steps[0]), steps[1..]))
  }

  ghost function Exec(s: Manager, steps: seq<Step>): Manager
    requires ValidRun(s, steps)
    decreases |steps|
  {
    if steps == [] then s else Exec(Apply(s, steps[0]), steps[1..])
  }

  function Ready(n: nat, clients: seq<Client>): Manager {
    Manager(seq(n, _ => Fresh()), clients, true, [])
  }

  // ----- verdicts -----

  /** The verdict read after seen callbacks. */
  ghost predicate Honest(rcs: seq<int>, own: nat, ok: bool, seen: nat) {
    own <= seen <= |rcs| && (ok <==> NoFailure(rcs[..seen]))
  }

  ghost predicate LogHonest(rcs: seq<int>, log: seq<Out>) {
    forall j :: 0 <= j < |log| ==>
      && (log[j].Recovered? ==> log[j].calls <= |rcs|)
      && (log[j].Result? ==> j > 0 && log[j - 1].Recovered? && Honest(rcs, log[j - 1].calls, log[j].ok, log[j].calls))
  }

  ghost predicate ContextHonest(rcs: seq<int>, c: Context) {
    && LogHonest(rcs, c.log)
    && (c.phase.Handling? && (c.phase.stage.ToRead? || c.phase.stage.ToReport?) ==>
          c.log != [] && var last := c.log[|c.log| - 1]; last.Recovered? && last.calls == c.phase.stage.own <= |rcs|)
    && (c.phase.Handling? && c.phase.stage.ToReport? ==>
          Honest(rcs, c.phase.stage.own, c.phase.stage.ok, c.phase.stage.calls))
  }

  ghost predicate AllInv(s: Manager) {
    && (s.ok <==> NoFailure(s.rcs))
    && forall i :: 0 <= i < |s.contexts| ==> Inv(s.contexts[i]) && ContextHonest(s.rcs, s.contexts[i])
  }

  lemma HonestGrows(rcs: seq<int>, more: seq<int>, c: Context)
    requires ContextHonest(rcs, c)
    ensures ContextHonest(rcs + more, c)
  {
    forall own: nat, ok: bool, seen: nat | Honest(rcs, own, ok, seen) ensures Honest(rcs + more, own, ok, seen) {
      assert (rcs + more)[..seen] == rcs[..seen];
    }
  }

  lemma LogHonestGrows(rcs: seq<int>, log: seq<Out>, o: Out)
    requires LogHonest(rcs, log)
    requires o.Recovered? ==> o.calls <= |rcs|
    requires o.Result? ==> log != []
    requires o.Result? ==> var last := log[|log| - 1]; last.Recovered? && Honest(rcs, last.calls, o.ok, o.calls)
    ensures LogHonest(rcs, log + [o])
  {
    var more := log + [o];
    forall j | 0 <= j < |more| && more[j].Result?
      ensures j > 0 && more[j - 1].Recovered? && Honest(rcs, more[j - 1].calls, more[j].ok, more[j].calls)
    {
      if j < |log| {
        assert log[j] == more[j];
        ResultBehindRecovery(rcs, log, j);
      }
    }
  }

  lemma ResultBehindRecovery(rcs: seq<int>, log: seq<Out>, j: nat)
    requires LogHonest(rcs, log) && j < |log| && log[j].Result?
    ensures j > 0 && log[j - 1].Recovered? && Honest(rcs, log[j - 1].calls, log[j].ok, log[j].calls)
  {
  }

  lemma HonestMove(rcs: seq<int>, ok: bool, c: Context, m: Move)
    requires InPool(c) && (c.phase.Handling? && !m.Release? ==> c.phase.k < |c.busy|)
    requires ContextHonest(rcs, c) && Enabled(c, m)
    requires ok <==> NoFailure(rcs)
    requires m.Recover? ==> m.calls == |rcs|
    requires m.Read? ==> m.ok == ok && m.calls == |rcs|
    ensures ContextHonest(rcs, Do(c, m))
  {
    hide InPool, Current, LogHonest;
    assert rcs[..|rcs|] == rcs;
    if m.Notify? || m.Recover? || m.Report? {
      var o := Do(c, m).log[|c.log|];
      assert Do(c, m).log == c.log + [o];
      LogHonestGrows(rcs, c.log, o);
    }
  }

  lemma QueueHonest(rcs: seq<int>, c: Context, e: Entry)
    requires Inv(c) && ContextHonest(rcs, c)
    ensures ContextHonest(rcs, Queue(c, e))
  {
  }

  lemma CallbacksKeep(s: Manager, i: nat, answers: seq<int>)
    requires AllInv(s) && Runnable(s) && Possible(s, RunCallbacks(i, answers))
    ensures AllInv(Apply(s, RunCallbacks(i, answers)))
  {
    hide Inv, ContextHonest, InPool, Enabled;
    var c, rcs := s.contexts[i], s.rcs + answers;
    assert Enabled(c, Recover(|rcs|)) by { CanRecover(c, 0, |rcs|); }
    forall j | 0 <= j < |s.contexts| ensures ContextHonest(rcs, s.contexts[j]) {
      HonestGrows(s.rcs, answers, s.contexts[j]);
    }
    assert s.ok && NoFailure(answers) <==> NoFailure(rcs) by {
      assert forall j :: 0 <= j < |s.rcs| ==> rcs[j] == s.rcs[j];
      assert forall j :: 0 <= j < |answers| ==> rcs[|s.rcs| + j] == answers[j];
    }
    MoveKeeps(c, Recover(|rcs|));
    HonestMove(rcs, s.ok && NoFailure(answers), c, Recover(|rcs|));
  }

  lemma CanRecover(c: Context, a: nat, b: nat)
    requires Enabled(c, Recover(a))
    ensures Enabled(c, Recover(b))
  {
  }

  lemma CanRead(c: Context, ok: bool, n: nat)
    requires Enabled(c, Read(true, 0))
    ensures Enabled(c, Read(ok, n))
  {
  }

  lemma StepKeeps(s: Manager, a: Step)
    requires AllInv(s) && Runnable(s) && Possible(s, a)
    ensures AllInv(Apply(s, a))
  {
    hide Inv, ContextHonest, InPool, Enabled, NoFailure;
    match a
    case QueueEvent(i, event) =>
      QueueKeeps(s.contexts[i], Entry(event, i));
      QueueHonest(s.rcs, s.contexts[i], Entry(event, i));
    case Work(i, m) =>
      MoveKeeps(s.contexts[i], m);
      assert InPool(s.contexts[i]);
      HonestMove(s.rcs, s.ok, s.contexts[i], m);
    case RunCallbacks(i, answers) => CallbacksKeep(s, i, answers);
    case ReadFlag(i) =>
      var m := Read(s.ok, |s.rcs|);
      CanRead(s.contexts[i], s.ok, |s.rcs|);
      MoveKeeps(s.contexts[i], m);
      assert InPool(s.contexts[i]);
      HonestMove(s.rcs, s.ok, s.contexts[i], m);
    case SetClients(_) =>
  }

  lemma ReadyInv(n: nat, clients: seq<Client>)
    ensures AllInv(Ready(n, clients))
  {
    hide Inv, Fresh;
    FreshInv();
    FreshHonest([]);
  }

  lemma FreshHonest(rcs: seq<int>)
    ensures ContextHonest(rcs, Fresh())
  {
  }

  lemma {:induction false} RunKeeps(s: Manager, steps: seq<Step>)
    requires AllInv(s) && ValidRun(s, steps)
    ensures AllInv(Exec(s, steps))
    decreases |steps|
  {
    hide AllInv, Apply, Possible;
    if steps != [] {
      StepKeeps(s, steps[0]);
      RunKeeps(Apply(s, steps[0]), steps[1..]);
    }
  }

  // ----- the promises -----

  /** In every reachable state and for every CRTC: each entry in one list, no event reported
      twice at a time, reported events sure to be taken up, and the log a strict sequence of
      notification, recovery and result for the accepted events in order of acceptance. */
  lemma EventsAreHandledInOrder(n: nat, clients: seq<Client>, steps: seq<Step>, i: nat)
    requires ValidRun(Ready(n, clients), steps) && i < |Exec(Ready(n, clients), steps).contexts|
    ensures var c := Exec(Ready(n, clients), steps).contexts[i];
            && Partition(c) && InPool(c) && Distinct(Reported(c))
            && (c.pending != [] ==> c.queued || c.phase.Started?)
            && Logged(c.log, c.accepted, c.handled, Offset(c.phase))
            && (c.phase.Idle? && !c.queued ==> c.handled == |c.accepted| && |c.log| == 3 * |c.accepted|)
  {
    ReadyInv(n, clients);
    RunKeeps(Ready(n, clients), steps);
    var c := Exec(Ready(n, clients), steps).contexts[i];
    hide Logged, Partition;
    PartitionPools(c);
    if c.phase.Idle? && !c.queued {
      ListsInPool(c);
      assert Todo(c, 0) == [];
      assert |c.log| == 3 * c.handled by {
        assert Logged(c.log, c.accepted, c.handled, Offset(c.phase));
        LogSize(c.log, c.accepted, c.handled, 0);
      }
    }
  }

  lemma LogSize(log: seq<Out>, accepted: seq<Entry>, n: nat, s: nat)
    requires Logged(log, accepted, n, s)
    ensures |log| == 3 * n + s
  {
  }

  /** SUCCESS is announced exactly when no callback, for any event on any CRTC, had failed
      by the time the flag was read, which was after the event's own recovery. */
  lemma SuccessMeansNothingEverFailed(n: nat, clients: seq<Client>, steps: seq<Step>, i: nat, j: nat)
    requires ValidRun(Ready(n, clients), steps) && i < |Exec(Ready(n, clients), steps).contexts|
    requires j < |Exec(Ready(n, clients), steps).contexts[i].log|
             && Exec(Ready(n, clients), steps).contexts[i].log[j].Result?
    ensures var s := Exec(Ready(n, clients), steps);
            var log := s.contexts[i].log;
            && j > 0 && log[j - 1].Recovered? && log[j - 1].calls <= log[j].calls <= |s.rcs|
            && (log[j].ok <==> NoFailure(s.rcs[..log[j].calls]))
  {
    ReadyInv(n, clients);
    RunKeeps(Ready(n, clients), steps);
  }

  // ----- no event is left behind -----

  function Effort(c: Context): nat
    requires InPool(c) && Position(c.phase) <= |c.busy|
  {
    5 * |c.pending| + (if c.queued then 3 else 0)
    + match c.phase
      case Idle => 0
      case Started => 2
      case Handling(k, stage) =>
        if k < |c.busy| then 1 + 4 * (|c.busy| - k) - StageSteps(stage) else 1
  }

  function StageSteps(s: Stage): (n: nat)
    ensures n < 4
  {
    match s
    case ToNotify => 0
    case ToRecover => 1
    case ToRead(_) => 2
    case ToReport(_, _, _) => 3
  }

  /** A worker with something to do has a step to take, and every step brings it closer to rest. */
  lemma WorkerProgresses(c: Context)
    requires Inv(c)
    ensures (exists m :: Enabled(c, m)) <==> !(c.phase.Idle? && !c.queued)
    ensures InPool(c) && Position(c.phase) <= |c.busy|
  {
    hide Logged, Partition;
    PartitionPools(c);
    var m := if c.phase.Idle? then Start else if c.phase.Started? then Grab
             else match c.phase.stage
                  case ToNotify => if c.phase.k < |c.busy| then Notify else Release
                  case ToRecover => Recover(0)
                  case ToRead(_) => Read(true, 0)
                  case ToReport(_, _, _) => Report;
    assert !(c.phase.Idle? && !c.queued) ==> Enabled(c, m);
  }

  lemma EveryMoveCounts(c: Context, m: Move)
    requires Inv(c) && Enabled(c, m)
    ensures InPool(c) && Position(c.phase) <= |c.busy| && (c.phase.Handling? && !m.Release? ==> c.phase.k < |c.busy|)
    ensures var g := Do(c, m); InPool(g) && Position(g.phase) <= |g.busy| && Effort(g) < Effort(c)
  {
    hide Inv, Do, InPool, Effort;
    MoveKeeps(c, m);
    InPlace(c);
    InPlace(Do(c, m));
    EffortDrops(c, m);
  }

  lemma InPlace(c: Context)
    requires Inv(c)
    ensures InPool(c) && Position(c.phase) <= |c.busy|
  {
    hide Logged, Partition;
    PartitionPools(c);
  }

  lemma EffortDrops(c: Context, m: Move)
    requires InPool(c) && Position(c.phase) <= |c.busy| && Enabled(c, m)
    requires c.phase.Handling? && !m.Release? ==> c.phase.k < |c.busy|
    requires InPool(Do(c, m)) && Position(Do(c, m).phase) <= |Do(c, m).busy|
    ensures Effort(Do(c, m)) < Effort(c)
  {
    hide InPool, Current;
  }
}
