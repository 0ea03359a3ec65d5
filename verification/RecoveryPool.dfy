/** The event pool of one CRTC in the recovery manager: 64 entries that move between a free
    list, the list of reported events and the list its worker thread is handling. */
module RecoveryPool {

  const EVENTS_LIST_ENTRIES: nat := 64
  const EEXIST: int := 17
  const ENOMEM: int := 12

  datatype Entry = Entry(event: nat, crtc: nat)

  /** What the worker has told user space, or done, about an event.  A recovery and a result
      carry how many callbacks had answered, anywhere, by then. */
  datatype Out =
    | Notified(e: Entry)
    | Recovered(e: Entry, calls: nat)
    | Result(e: Entry, ok: bool, calls: nat)

  /** Where the worker is in the handling of one event. */
  datatype Stage = ToNotify | ToRecover | ToRead(own: nat) | ToReport(own: nat, ok: bool, calls: nat)

  datatype Phase = Idle | Started | Handling(k: nat, stage: Stage)

  datatype Context = Context(
    db: seq<Entry>, free: seq<nat>, pending: seq<nat>, busy: seq<nat>,
    queued: bool, phase: Phase,
    accepted: seq<Entry>, handled: nat, log: seq<Out>)      // history

  function Events(db: seq<Entry>, l: seq<nat>): (r: seq<Entry>)
    requires forall i :: 0 <= i < |l| ==> l[i] < |db|
    ensures |r| == |l| && forall i :: 0 <= i < |l| ==> r[i] == db[l[i]]
  {
    seq(|l|, i requires 0 <= i < |l| => db[l[i]])
  }

  predicate InPool(c: Context) {
    |c.db| == EVENTS_LIST_ENTRIES
    && forall i :: 0 <= i < |c.free + c.pending + c.busy| ==> (c.free + c.pending + c.busy)[i] < EVENTS_LIST_ENTRIES
  }

  lemma ListsInPool(c: Context)
    requires InPool(c)
    ensures forall i :: 0 <= i < |c.free| ==> c.free[i] < |c.db|
    ensures forall i :: 0 <= i < |c.pending| ==> c.pending[i] < |c.db|
    ensures forall i :: 0 <= i < |c.busy| ==> c.busy[i] < |c.db|
  {
    var all := c.free + c.pending + c.busy;
    assert forall i :: 0 <= i < |c.free| ==> c.free[i] == all[i];
    assert forall i :: 0 <= i < |c.pending| ==> c.pending[i] == all[|c.free| + i];
    assert forall i :: 0 <= i < |c.busy| ==> c.busy[i] == all[|c.free| + |c.pending| + i];
  }

  // ----- steps -----

  function Reported(c: Context): seq<Entry>
    requires InPool(c)
  {
    ListsInPool(c);
    Events(c.db, c.pending)
  }

  function QueueResult(c: Context, e: Entry): int
    requires InPool(c)
  {
    if e in Reported(c) then -EEXIST else if c.free == [] then -ENOMEM else 0
  }

  /** sde_recovery_queue_event. */
  function Queue(c: Context, e: Entry): Context
    requires InPool(c)
  {
    if QueueResult(c, e) != 0 then c
    else
      ListsInPool(c);
      c.(db := c.db[c.free[0] := e], free := c.free[1..], pending := c.pending + [c.free[0]],
         queued := true, accepted := c.accepted + [e])
  }

  /** What the worker thread can do next. */
  datatype Move = Start | Grab | Notify | Recover(calls: nat) | Read(ok: bool, calls: nat) | Report | Release

  predicate Enabled(c: Context, m: Move) {
    match m
    case Start => c.phase.Idle? && c.queued
    case Grab => c.phase.Started?
    case Notify => c.phase.Handling? && c.phase.stage.ToNotify? && c.phase.k < |c.busy|
    case Recover(_) => c.phase.Handling? && c.phase.stage.ToRecover?
    case Read(_, _) => c.phase.Handling? && c.phase.stage.ToRead?
    case Report => c.phase.Handling? && c.phase.stage.ToReport?
    case Release => c.phase.Handling? && c.phase.stage.ToNotify? && c.phase.k == |c.busy|
  }

  /** The event being handled. */
  function Current(c: Context): Entry
    requires InPool(c) && c.phase.Handling? && c.phase.k < |c.busy|
  {
    ListsInPool(c);
    c.db[c.busy[c.phase.k]]
  }

  /** sde_recovery_mgr_event_work, one step of it. */
  function Do(c: Context, m: Move): Context
    requires InPool(c) && Enabled(c, m) && (c.phase.Handling? && !m.Release? ==> c.phase.k < |c.busy|)
  {
    match m
    case Start => c.(queued := false, phase := Started)
    case Grab => c.(busy := c.pending, pending := [], phase := Handling(0, ToNotify))
    case Notify => c.(log := c.log + [Notified(Current(c))], phase := Handling(c.phase.k, ToRecover))
    case Recover(calls) => c.(log := c.log + [Recovered(Current(c), calls)],
                                phase := Handling(c.phase.k, ToRead(calls)))
    case Read(ok, calls) => c.(phase := Handling(c.phase.k, ToReport(c.phase.stage.own, ok, calls)))
    case Report =>
      c.(log := c.log + [Result(Current(c), c.phase.stage.ok, c.phase.stage.calls)],
         phase := Handling(c.phase.k + 1, ToNotify), handled := c.handled + 1)
    case Release => c.(free := c.free + c.busy, busy := [], phase := Idle)
  }

  /** After set-up every entry is free, the last one first. */
  function Fresh(): Context {
    Context(seq(EVENTS_LIST_ENTRIES, _ => Entry(0, 0)),
            seq(EVENTS_LIST_ENTRIES, i requires 0 <= i < EVENTS_LIST_ENTRIES => EVENTS_LIST_ENTRIES - 1 - i),
            [], [], false, Idle, [], 0, [])
  }

  // ----- the invariant -----

  ghost predicate Distinct<T(!new)>(s: seq<T>) {
    forall i, j :: 0 <= i < j < |s| ==> s[i] != s[j]
  }

  function Position(p: Phase): nat {
    if p.Handling? then p.k else 0
  }

  function Offset(p: Phase): (s: nat)
    ensures s < 3
  {
    if !p.Handling? then 0 else
    match p.stage
    case ToNotify => 0
    case ToRecover => 1
    case _ => 2
  }

  predicate Tells(o: Out, e: Entry, s: int) {
    match o
    case Notified(x) => x == e && s == 0
    case Recovered(x, _) => x == e && s == 1
    case Result(x, _, _) => x == e && s == 2
  }

  /** The log tells of n events completely and of one more up to offset s, three entries an event. */
  ghost predicate Logged(log: seq<Out>, accepted: seq<Entry>, n: nat, s: nat) {
    && |log| == 3 * n + s
    && forall i :: 0 <= i < |log| ==> i / 3 < |accepted| && Tells(log[i], accepted[i / 3], i % 3)
  }

  function Indices(n: nat): (s: seq<nat>)
    ensures |s| == n && forall i :: 0 <= i < n ==> s[i] == i
  {
    seq(n, i requires 0 <= i < n => i)
  }

  /** Every entry once. */
  ghost function Pool(): multiset<nat> {
    multiset(Indices(EVENTS_LIST_ENTRIES))
  }

  /** The three lists together hold every entry exactly once. */
  ghost predicate Partition(c: Context) {
    InPool(c) && multiset(c.free) + multiset(c.pending) + multiset(c.busy) == Pool()
  }

  /** The events in hand from the k-th on, then the reported ones. */
  function Todo(c: Context, k: nat): seq<Entry>
    requires InPool(c) && k <= |c.busy|
  {
    ListsInPool(c);
    Events(c.db, c.busy)[k..] + Reported(c)
  }

  /** The accepted events that are not handled stand in the lists in the order of acceptance. */
  ghost predicate InOrder(c: Context)
    requires InPool(c)
  {
    && Position(c.phase) <= |c.busy| && c.handled <= |c.accepted|
    && (c.phase.Handling? && !c.phase.stage.ToNotify? ==> c.phase.k < |c.busy|)
    && (!c.phase.Handling? ==> c.busy == [])
    && c.accepted[c.handled..] == Todo(c, Position(c.phase))
  }

  ghost predicate Inv(c: Context) {
    && Partition(c)
    && Distinct(Reported(c))
    && (c.pending != [] ==> c.queued || c.phase.Started?)
    && InOrder(c)
    && Logged(c.log, c.accepted, c.handled, Offset(c.phase))
  }

  // ----- entries -----

  lemma {:induction false} IndicesOnce(n: nat, x: nat)
    ensures multiset(Indices(n))[x] == if x < n then 1 else 0
  {
    if n > 0 {
      IndicesOnce(n - 1, x);
      assert Indices(n) == Indices(n - 1) + [n - 1];
    } else {
      assert Indices(0) == [];
    }
  }

  /** Each of the 64 entries is in exactly one of the lists, and there only once. */
  lemma EveryEntryIsInOneList(c: Context, x: nat)
    requires Partition(c) && x < EVENTS_LIST_ENTRIES
    ensures multiset(c.free)[x] + multiset(c.pending)[x] + multiset(c.busy)[x] == 1
    ensures x in c.free ==> x !in c.pending && x !in c.busy
    ensures x in c.pending ==> x !in c.busy
    ensures x in c.free || x in c.pending || x in c.busy
  {
    IndicesOnce(EVENTS_LIST_ENTRIES, x);
    assert Pool()[x] == 1;
  }

  /** Lists with the same entries altogether are a partition again. */
  lemma Repartitioned(c: Context, g: Context)
    requires Partition(c) && |g.db| == |c.db|
    requires multiset(c.free) + multiset(c.pending) + multiset(c.busy)
             == multiset(g.free) + multiset(g.pending) + multiset(g.busy)
    ensures Partition(g)
  {
    var all := g.free + g.pending + g.busy;
    forall i | 0 <= i < |all| ensures all[i] < EVENTS_LIST_ENTRIES {
      assert all[i] in multiset(g.free) + multiset(g.pending) + multiset(g.busy);
      IndicesOnce(EVENTS_LIST_ENTRIES, all[i]);
    }
  }

  // ----- every step keeps the invariant -----

  lemma FreshInv()
    ensures Inv(Fresh())
  {
    var c := Fresh();
    FreshEntries(EVENTS_LIST_ENTRIES);
    ListsInPool(c);
  }

  lemma {:induction false} FreshEntries(n: nat)
    ensures multiset(seq(n, i requires 0 <= i < n => n - 1 - i)) == multiset(Indices(n))
  {
    if n > 0 {
      FreshEntries(n - 1);
      var down := seq(n, i requires 0 <= i < n => n - 1 - i);
      var less := seq(n - 1, i requires 0 <= i < n - 1 => n - 1 - 1 - i);
      assert down == [n - 1] + less;
      assert Indices(n) == Indices(n - 1) + [n - 1];
    }
  }

  lemma QueuePartition(c: Context, e: Entry)
    requires Partition(c) && QueueResult(c, e) == 0
    ensures Partition(Queue(c, e))
    ensures c.free[0] !in c.pending && c.free[0] !in c.busy
  {
    ListsInPool(c);
    var g := Queue(c, e);
    assert c.free == [c.free[0]] + c.free[1..];
    EveryEntryIsInOneList(c, c.free[0]);
    Repartitioned(c, g);
  }

  lemma QueueOrder(c: Context, e: Entry)
    requires InPool(c) && InOrder(c) && QueueResult(c, e) == 0 && InPool(Queue(c, e))
    requires c.free[0] !in c.pending && c.free[0] !in c.busy
    ensures InOrder(Queue(c, e)) && Reported(Queue(c, e)) == Reported(c) + [e]
  {
    var g := Queue(c, e);
    ListsInPool(c);
    ListsInPool(g);
    hide InPool;
    assert Events(g.db, g.busy) == Events(c.db, c.busy);
    assert Events(g.db, g.pending) == Events(c.db, c.pending) + [e];
    assert g.accepted[g.handled..] == c.accepted[c.handled..] + [e];
  }

  lemma QueueKeeps(c: Context, e: Entry)
    requires Inv(c)
    ensures Inv(Queue(c, e))
  {
    hide Logged, Partition, InPool, InOrder;
    PartitionPools(c);
    if QueueResult(c, e) == 0 {
      QueuePartition(c, e);
      PartitionPools(Queue(c, e));
      QueueOrder(c, e);
      LoggedGrows(c, e);
    }
  }

  lemma PartitionPools(c: Context)
    requires Partition(c)
    ensures InPool(c)
  {
  }

  lemma LoggedGrows(c: Context, e: Entry)
    requires Logged(c.log, c.accepted, c.handled, Offset(c.phase))
    ensures Logged(c.log, c.accepted + [e], c.handled, Offset(c.phase))
  {
  }

  lemma LogOne(log: seq<Out>, accepted: seq<Entry>, n: nat, s: nat, o: Out)
    requires Logged(log, accepted, n, s) && s < 3 && n < |accepted| && Tells(o, accepted[n], s)
    ensures if s < 2 then Logged(log + [o], accepted, n, s + 1) else Logged(log + [o], accepted, n + 1, 0)
  {
    var m := |log|;
    assert m / 3 == n && m % 3 == s;
    forall i | 0 <= i < m + 1 ensures i / 3 < |accepted| && Tells((log + [o])[i], accepted[i / 3], i % 3) {
      if i < m { assert (log + [o])[i] == log[i]; }
    }
  }

  /** The event in hand is the oldest accepted one that is not handled. */
  lemma CurrentIsNext(c: Context)
    requires InPool(c) && InOrder(c) && c.phase.Handling? && c.phase.k < |c.busy|
    ensures c.handled < |c.accepted| && c.accepted[c.handled] == Current(c)
    ensures c.accepted[c.handled + 1..] == Todo(c, c.phase.k + 1)
  {
    ListsInPool(c);
    var rest := c.accepted[c.handled..];
    var mine := Events(c.db, c.busy)[c.phase.k..];
    assert rest == mine + Reported(c);
    assert rest[0] == mine[0];
    assert c.accepted[c.handled + 1..] == rest[1..];
    assert Events(c.db, c.busy)[c.phase.k + 1..] == mine[1..];
  }

  predicate Talks(m: Move) {
    m.Notify? || m.Recover? || m.Read? || m.Report?
  }

  lemma TalkOrder(c: Context, m: Move)
    requires InPool(c) && InOrder(c) && Enabled(c, m) && Talks(m)
    ensures c.phase.k < |c.busy| && InPool(Do(c, m)) && InOrder(Do(c, m)) && Reported(Do(c, m)) == Reported(c)
  {
    ListsInPool(c);
    CurrentIsNext(c);
    var g := Do(c, m);
    assert g.db == c.db && g.busy == c.busy && g.pending == c.pending && g.free == c.free;
    assert InPool(g);
    hide InPool, Events;
    assert Reported(g) == Reported(c) && Todo(g, c.phase.k) == Todo(c, c.phase.k)
           && Todo(g, c.phase.k + 1) == Todo(c, c.phase.k + 1);
  }

  lemma TalkLog(c: Context, m: Move)
    requires InPool(c) && InOrder(c) && Enabled(c, m) && Talks(m)
    requires Logged(c.log, c.accepted, c.handled, Offset(c.phase))
    ensures c.phase.k < |c.busy|
    ensures var g := Do(c, m); Logged(g.log, g.accepted, g.handled, Offset(g.phase))
  {
    CurrentIsNext(c);
    hide Logged, InPool;
    if !m.Read? { LogOne(c.log, c.accepted, c.handled, Offset(c.phase), Do(c, m).log[|c.log|]); }
  }

  lemma TalkKeeps(c: Context, m: Move)
    requires Inv(c) && Enabled(c, m) && Talks(m)
    ensures c.phase.k < |c.busy| && Inv(Do(c, m))
  {
    PartitionPools(c);
    hide Logged, InPool, InOrder, Distinct;
    TalkOrder(c, m);
    TalkLog(c, m);
  }

  lemma ListsOrder(c: Context, m: Move)
    requires InPool(c) && InOrder(c) && Enabled(c, m) && (m.Grab? || m.Release?)
    ensures InPool(Do(c, m)) && InOrder(Do(c, m))
    ensures m.Release? ==> Reported(Do(c, m)) == Reported(c)
    ensures m.Grab? ==> Reported(Do(c, m)) == []
  {
    var g := Do(c, m);
    ListsInPool(c);
    assert forall i :: 0 <= i < |g.free + g.pending + g.busy| ==>
             (g.free + g.pending + g.busy)[i] < EVENTS_LIST_ENTRIES;
    ListsInPool(g);
    assert Events(g.db, g.busy)[0..] == Events(g.db, g.busy);
    if m.Grab? { assert Events(c.db, c.busy) == [] && Reported(g) == []; }
    else { assert Events(c.db, c.busy)[|c.busy|..] == []; }
  }

  lemma ListsKeep(c: Context, m: Move)
    requires Inv(c) && Enabled(c, m) && (m.Grab? || m.Release?)
    ensures Inv(Do(c, m))
  {
    PartitionPools(c);
    assert Partition(Do(c, m)) by { ListsPartition(c, m); }
    hide Logged, InPool, InOrder, Partition;
    ListsOrder(c, m);
  }

  lemma ListsPartition(c: Context, m: Move)
    requires Partition(c) && InOrder(c) && Enabled(c, m) && (m.Grab? || m.Release?)
    ensures Partition(Do(c, m))
  {
    hide InPool;
    PartitionPools(c);
    assert m.Grab? ==> c.busy == [];
    assert |Do(c, m).db| == |c.db|;
    Repartitioned(c, Do(c, m));
  }

  /** No step of the worker breaks the invariant. */
  lemma MoveKeeps(c: Context, m: Move)
    requires Inv(c) && Enabled(c, m)
    ensures (c.phase.Handling? && !m.Release? ==> c.phase.k < |c.busy|) && Inv(Do(c, m))
  {
    if m.Start? { StartKeeps(c); }
    else if Talks(m) { TalkKeeps(c, m); }
    else { ListsKeep(c, m); }
  }

  lemma StartKeeps(c: Context)
    requires Inv(c) && Enabled(c, Start)
    ensures Inv(Do(c, Start))
  {
    hide Logged;
    var g := Do(c, Start);
    assert Todo(g, 0) == Todo(c, 0);
  }
}
