/** What every run of the atomic-commit protocol keeps: commits in flight are
    disjoint and own exactly the pending objects, hardware follows software in
    start order, commit objects are freed once and states released once. */
module CommitSafety {
  import opened CommitMasks
  import opened CommitProtocol

  ghost predicate Refusal(r: Rec) {
    r.caller == Refused || r.caller == RefusedGone
  }

  /** Between start_atomic and end_atomic. */
  ghost predicate InFlight(r: Rec) {
    r.caller != InStart && !Refusal(r) && r.work != MasksCleared && r.work != Done
  }

  /** The object belongs to a commit in flight that has not yet written it. */
  ghost predicate Unwritten(r: Rec, o: Obj) {
    && InFlight(r) && o in r.c.vals
    && (r.work == NotQueued || r.work == Queued || (r.work.Writing? && o in r.work.left))
  }

  ghost predicate BeforeQueue(r: Rec) {
    r.caller == InStart || r.caller == HasMasks || r.caller == Swapped || r.caller == HoldsRef || Refusal(r)
  }

  /** The reference drm_atomic_state_get took for complete_commit is still held. */
  ghost predicate WorkerRef(r: Rec) {
    && (r.caller == HoldsRef || !BeforeQueue(r))
    && (r.work == NotQueued || r.work == Queued || r.work.Writing?)
  }

  /** What holds of each commit on its own: where caller and worker can stand
      together, how often the object was freed, how many references its state has. */
  ghost predicate Local(r: Rec) {
    && (BeforeQueue(r) <==> r.work == NotQueued)
    && (r.caller == InFallback ==> r.work != Queued)
    && ((r.caller == Returned || r.caller == Gone) && !r.c.nonblock ==> r.work == Done)
    && (r.work.Writing? ==> r.work.left <= r.c.vals.Keys)
    && r.frees == (if Refusal(r) || (if r.c.nonblock then r.work == Done else r.caller == Returned || r.caller == Gone)
                   then 1 else 0)
    && r.refs == (if r.caller == Gone || r.caller == RefusedGone then 0 else 1) + (if WorkerRef(r) then 1 else 0)
  }

  ghost predicate AllLocal(s: State) {
    forall i :: 0 <= i < |s.recs| ==> Local(s.recs[i])
  }

  ghost predicate OwnedBy(s: State, o: Obj, i: int) {
    0 <= i < |s.recs| && InFlight(s.recs[i]) && o in s.recs[i].c.vals
  }

  /** Commits in flight are pairwise disjoint and their union is the pending set. */
  ghost predicate Exclusive(s: State) {
    && (forall o, i, j :: OwnedBy(s, o, i) && OwnedBy(s, o, j) ==> i == j)
    && (forall o, i :: OwnedBy(s, o, i) ==> o in s.pending)
    && (forall o :: o in s.pending ==> exists i :: OwnedBy(s, o, i))
  }

  ghost predicate InQueue(s: State, id: nat, t: nat, k: nat) {
    t < |s.queues| && k < |s.queues[t]| && s.queues[t][k] == id
  }

  ghost predicate Working(r: Rec) {
    r.work.Writing? || r.work == StatePut || r.work == MasksCleared
  }

  ghost predicate Threads(s: State) {
    && |s.queues| == |s.active|
    && (forall id: nat, t: nat, k: nat :: InQueue(s, id, t, k) ==> id < |s.recs| && s.recs[id].work == Queued)
    && (forall id: nat, t: nat, k: nat, t': nat, k': nat ::
          InQueue(s, id, t, k) && InQueue(s, id, t', k') ==> t == t' && k == k')
    && (forall id :: 0 <= id < |s.recs| && s.recs[id].work == Queued ==> exists t: nat, k: nat :: InQueue(s, id, t, k))
    && (forall t :: 0 <= t < |s.active| && s.active[t].Some? ==>
          s.active[t].value < |s.recs| && Working(s.recs[s.active[t].value]))
  }

  ghost predicate Settled(s: State, o: Obj)
    requires o in s.hw && o in s.sw
  {
    Written(s.hwLog, o) == Planned(s.order, o) && s.hw[o] == s.sw[o]
  }

  ghost predicate Lagging(s: State, r: Rec, o: Obj)
    requires o in s.hw && o in s.sw && o in r.c.vals
  {
    && Written(s.hwLog, o) + [r.c.vals[o]] == Planned(s.order, o)
    && s.sw[o] == if r.caller == HasMasks then s.hw[o] else r.c.vals[o]
  }

  ghost predicate Domains(s: State, init: map<Obj, Val>) {
    && s.hw.Keys == init.Keys && s.sw.Keys == init.Keys
    && (forall c :: c in s.order ==> c.vals.Keys <= init.Keys)
    && (forall i :: 0 <= i < |s.recs| ==> s.recs[i].c.vals.Keys <= init.Keys)
  }

  /** One object: the hardware is at the last state written, and either has been
      given every planned state or misses exactly the one of the commit owning it. */
  ghost predicate Follows(s: State, init: map<Obj, Val>, o: Obj)
    requires Domains(s, init) && o in init
  {
    && s.hw[o] == LastOr(Written(s.hwLog, o), init[o])
    && (forall i :: 0 <= i < |s.recs| && Unwritten(s.recs[i], o) ==> Lagging(s, s.recs[i], o))
    && (Settled(s, o) || exists i :: 0 <= i < |s.recs| && Unwritten(s.recs[i], o))
  }

  ghost predicate AllFollow(s: State, init: map<Obj, Val>) {
    Domains(s, init) && forall o :: o in init ==> Follows(s, init, o)
  }

  ghost predicate Inv(s: State, init: map<Obj, Val>) {
    AllLocal(s) && Exclusive(s) && Threads(s) && AllFollow(s, init) && !s.misuse
  }

  // ----- preservation, part by part -----

  /** The commit a step moves. */
  ghost function Mover(s: State, step: Step): (id: nat)
    requires Enabled(s, step) && !step.Begin?
    ensures id < |s.recs|
  {
    if step.Take? then s.queues[step.t][0] else step.id
  }

  /** Steps that leave the device state and the start order alone. */
  ghost predicate Quiet(step: Step) {
    !step.Start? && !step.Swap? && !step.Write?
  }

  lemma StepFrame(s: State, step: Step)
    requires Enabled(s, step)
    ensures var s' := Apply(s, step);
      if step.Begin? then
        s'.recs == s.recs + [Rec(step.c, InStart, NotQueued, 0, 1)]
      else
        && |s'.recs| == |s.recs|
        && (forall i :: 0 <= i < |s.recs| && i != Mover(s, step) ==> s'.recs[i] == s.recs[i])
        && s'.recs[Mover(s, step)].c == s.recs[Mover(s, step)].c
    ensures var s' := Apply(s, step);
      Quiet(step) ==> s'.hw == s.hw && s'.sw == s.sw && s'.order == s.order && s'.hwLog == s.hwLog
  {}

  lemma TakenIsQueued(s: State, t: nat)
    requires Threads(s) && Enabled(s, Take(t))
    ensures s.recs[s.queues[t][0]].work == Queued
  {
    assert InQueue(s, s.queues[t][0], t, 0);
  }

  /** The commit a step moves is consistent on its own, and queued if a worker takes it. */
  ghost predicate MoverReady(s: State, step: Step)
    requires Enabled(s, step)
  {
    !step.Begin? ==>
      Local(s.recs[Mover(s, step)]) && (step.Take? ==> s.recs[Mover(s, step)].work == Queued)
  }

  lemma MoverIsReady(s: State, step: Step)
    requires AllLocal(s) && Threads(s) && Enabled(s, step)
    ensures MoverReady(s, step)
  {
    if step.Take? { TakenIsQueued(s, step.t); }
  }

  lemma LocalStep(s: State, step: Step)
    requires AllLocal(s) && Threads(s) && !s.misuse && Enabled(s, step)
    ensures AllLocal(Apply(s, step)) && !Apply(s, step).misuse
  {
    StepFrame(s, step);
    var s' := Apply(s, step);
    if step.Begin? {
      assert Local(s'.recs[|s.recs|]);
    } else {
      if step.Take? { TakenIsQueued(s, step.t); }
      assert Local(s.recs[Mover(s, step)]);
      assert Local(s'.recs[Mover(s, step)]);
    }
  }

  lemma ExclusiveStep(s: State, step: Step)
    requires AllLocal(s) && Threads(s) && Exclusive(s) && Enabled(s, step)
    ensures Exclusive(Apply(s, step))
  {
    StepFrame(s, step);
    var s' := Apply(s, step);
    if step.Begin? {
      forall o, i ensures OwnedBy(s', o, i) <==> OwnedBy(s, o, i) {}
    } else {
      var m := Mover(s, step);
      assert Local(s.recs[m]);
      if step.Take? { TakenIsQueued(s, step.t); }
      if step.Start? {
        forall o, i ensures OwnedBy(s', o, i) <==> OwnedBy(s, o, i) || (i == m && o in s.recs[m].c.vals) {}
        forall o | o in s'.pending ensures exists i :: OwnedBy(s', o, i) {
          if o in s.recs[m].c.vals { assert OwnedBy(s', o, m); }
        }
      } else if step.EndAtomic? {
        forall o, i ensures OwnedBy(s', o, i) <==> OwnedBy(s, o, i) && i != m {}
        forall o, i | OwnedBy(s', o, i) ensures o in s'.pending {
          if o in s.recs[m].c.vals { assert OwnedBy(s, o, m); }
        }
        forall o | o in s'.pending ensures exists i :: OwnedBy(s', o, i) {
          var i :| OwnedBy(s, o, i);
          assert OwnedBy(s', o, i);
        }
      } else {
        assert InFlight(s'.recs[m]) <==> InFlight(s.recs[m]);
        forall o, i ensures OwnedBy(s', o, i) <==> OwnedBy(s, o, i) {}
      }
    }
  }

  lemma DispatchThreads(s: State, id: nat, t: nat)
    requires AllLocal(s) && Threads(s) && Enabled(s, Dispatch(id, Some(t)))
    ensures Threads(Apply(s, Dispatch(id, Some(t))))
  {
    var s' := Apply(s, Dispatch(id, Some(t)));
    var n := |s.queues[t]|;
    assert Local(s.recs[id]);
    forall i: nat, u: nat, k: nat
      ensures InQueue(s', i, u, k) <==> InQueue(s, i, u, k) || (i == id && u == t && k == n)
    {}
    assert InQueue(s', id, t, n);
    forall i | 0 <= i < |s'.recs| && s'.recs[i].work == Queued
      ensures exists u: nat, k: nat :: InQueue(s', i, u, k)
    {
      if i != id {
        var u: nat, k: nat :| InQueue(s, i, u, k);
        assert InQueue(s', i, u, k);
      }
    }
  }

  ghost function Before(t: nat, u: nat, k: nat): nat {
    if u == t then k + 1 else k
  }

  lemma TakeShiftsQueue(s: State, t: nat, i: nat, u: nat, k: nat)
    requires Enabled(s, Take(t))
    ensures InQueue(Apply(s, Take(t)), i, u, k) <==> InQueue(s, i, u, Before(t, u, k))
  {}

  lemma TakeThreads(s: State, t: nat)
    requires AllLocal(s) && Threads(s) && Enabled(s, Take(t))
    ensures Threads(Apply(s, Take(t)))
  {
    TakenIsQueued(s, t);
    var s', id := Apply(s, Take(t)), s.queues[t][0];
    assert InQueue(s, id, t, 0);
    forall i: nat, u: nat, k: nat | InQueue(s', i, u, k)
      ensures i < |s'.recs| && s'.recs[i].work == Queued
    {
      TakeShiftsQueue(s, t, i, u, k);
      assert InQueue(s, i, u, Before(t, u, k));
    }
    forall i: nat, u: nat, k: nat, u': nat, k': nat | InQueue(s', i, u, k) && InQueue(s', i, u', k')
      ensures u == u' && k == k'
    {
      TakeShiftsQueue(s, t, i, u, k);
      TakeShiftsQueue(s, t, i, u', k');
    }
    forall i | 0 <= i < |s'.recs| && s'.recs[i].work == Queued
      ensures exists u: nat, k: nat :: InQueue(s', i, u, k)
    {
      var u: nat, k: nat :| InQueue(s, i, u, k);
      var k' := if u == t then k - 1 else k;
      TakeShiftsQueue(s, t, i, u, k');
      assert InQueue(s', i, u, k');
    }
  }

  /** Steps that neither fill nor empty a work list: a thread stays with its commit
      until the commit is finished. */
  lemma OtherThreads(s: State, step: Step)
    requires Enabled(s, step) && MoverReady(s, step)
    requires !step.Begin? && !step.Take? && (step.Dispatch? ==> step.thread.None?)
    ensures var s', m := Apply(s, step), Mover(s, step);
      && s'.queues == s.queues && |s'.active| == |s.active|
      && (forall t :: 0 <= t < |s.active| ==> s'.active[t] == s.active[t] || s'.active[t].None?)
      && (s'.recs[m].work == Queued <==> s.recs[m].work == Queued)
      && (Working(s.recs[m]) ==> Working(s'.recs[m]) || forall t :: 0 <= t < |s.active| ==> s'.active[t] != Some(m))
  {}

  lemma SameQueues(s: State, s': State)
    requires Threads(s) && s'.queues == s.queues && |s'.recs| >= |s.recs| && |s'.active| == |s.active|
    requires forall i :: 0 <= i < |s.recs| ==> (s'.recs[i].work == Queued <==> s.recs[i].work == Queued)
    requires forall i :: |s.recs| <= i < |s'.recs| ==> s'.recs[i].work != Queued
    requires forall t :: 0 <= t < |s'.active| && s'.active[t].Some? ==>
      s'.active[t].value < |s'.recs| && Working(s'.recs[s'.active[t].value])
    ensures Threads(s')
  {
    forall i: nat, u: nat, k: nat ensures InQueue(s', i, u, k) <==> InQueue(s, i, u, k) {}
    forall i | 0 <= i < |s'.recs| && s'.recs[i].work == Queued
      ensures exists u: nat, k: nat :: InQueue(s', i, u, k)
    {
      var u: nat, k: nat :| InQueue(s, i, u, k);
      assert InQueue(s', i, u, k);
    }
  }

  lemma ThreadsStep(s: State, step: Step)
    requires AllLocal(s) && Threads(s) && Enabled(s, step)
    ensures Threads(Apply(s, step))
  {
    if step.Take? {
      TakeThreads(s, step.t);
    } else if step.Dispatch? && step.thread.Some? {
      DispatchThreads(s, step.id, step.thread.value);
    } else if step.Begin? {
      SameQueues(s, Apply(s, step));
    } else {
      MoverIsReady(s, step);
      StepFrame(s, step);
      OtherThreads(s, step);
      hide Apply, AllLocal, MoverReady;
      SameQueues(s, Apply(s, step));
    }
  }

  // ----- hardware follows software -----

  lemma DomainsStep(s: State, init: map<Obj, Val>, step: Step)
    requires Domains(s, init) && Enabled(s, step)
    ensures Domains(Apply(s, step), init)
  {
    StepFrame(s, step);
  }

  /** The mover of a quiet step neither gains nor loses unwritten objects. */
  lemma QuietMover(s: State, step: Step, o: Obj)
    requires Enabled(s, step) && Quiet(step) && !step.Begin? && MoverReady(s, step)
    ensures var r, r' := s.recs[Mover(s, step)], Apply(s, step).recs[Mover(s, step)];
      (Unwritten(r', o) <==> Unwritten(r, o)) && (r'.caller == HasMasks <==> r.caller == HasMasks)
  {}

  lemma FollowsFrame(s: State, s': State, init: map<Obj, Val>, o: Obj)
    requires Domains(s, init) && Domains(s', init) && o in init && Follows(s, init, o)
    requires s'.hw == s.hw && s'.sw == s.sw && s'.order == s.order && s'.hwLog == s.hwLog
    requires |s.recs| <= |s'.recs|
    requires forall i :: |s.recs| <= i < |s'.recs| ==> !Unwritten(s'.recs[i], o)
    requires forall i :: 0 <= i < |s.recs| ==>
      s'.recs[i].c == s.recs[i].c && (Unwritten(s'.recs[i], o) <==> Unwritten(s.recs[i], o))
      && (s'.recs[i].caller == HasMasks <==> s.recs[i].caller == HasMasks)
    ensures Follows(s', init, o)
  {
    forall i | 0 <= i < |s'.recs| && Unwritten(s'.recs[i], o) ensures Lagging(s', s'.recs[i], o) {
      assert Lagging(s, s.recs[i], o);
    }
    if !Settled(s, o) {
      var i :| 0 <= i < |s.recs| && Unwritten(s.recs[i], o);
      assert Unwritten(s'.recs[i], o);
    }
  }

  lemma QuietFollows(s: State, init: map<Obj, Val>, step: Step, o: Obj)
    requires Domains(s, init) && o in init && Follows(s, init, o)
    requires Enabled(s, step) && Quiet(step) && MoverReady(s, step) && Domains(Apply(s, step), init)
    ensures Follows(Apply(s, step), init, o)
  {
    hide Apply, Enabled, Follows, Domains, MoverReady, Quiet;
    StepFrame(s, step);
    if !step.Begin? { QuietMover(s, step, o); }
    FollowsFrame(s, Apply(s, step), init, o);
  }

  lemma UnwrittenIsOwned(s: State, o: Obj, i: int)
    requires 0 <= i < |s.recs| && Unwritten(s.recs[i], o)
    ensures OwnedBy(s, o, i)
  {}

  lemma StartFollows(s: State, init: map<Obj, Val>, id: nat, o: Obj)
    requires AllLocal(s) && Exclusive(s) && Domains(s, init) && o in init && Follows(s, init, o)
    requires Enabled(s, Start(id)) && Domains(Apply(s, Start(id)), init)
    ensures Follows(Apply(s, Start(id)), init, o)
  {
    var s' := Apply(s, Start(id));
    var c := s.recs[id].c;
    PlannedSnoc(s.order, c, o);
    assert Local(s.recs[id]);
    if o in c.vals {
      forall i | 0 <= i < |s.recs| ensures !Unwritten(s.recs[i], o) {
        if Unwritten(s.recs[i], o) { UnwrittenIsOwned(s, o, i); }
      }
      assert Settled(s, o);
      assert Unwritten(s'.recs[id], o);
    } else if !Settled(s, o) {
      var i :| 0 <= i < |s.recs| && Unwritten(s.recs[i], o);
      assert Unwritten(s'.recs[i], o);
    }
  }

  lemma SwapFollows(s: State, init: map<Obj, Val>, id: nat, o: Obj)
    requires AllLocal(s) && Exclusive(s) && Domains(s, init) && o in init && Follows(s, init, o)
    requires Enabled(s, Swap(id)) && Domains(Apply(s, Swap(id)), init)
    ensures Follows(Apply(s, Swap(id)), init, o)
  {
    var s' := Apply(s, Swap(id));
    assert Local(s.recs[id]);
    if o in s.recs[id].c.vals {
      assert Unwritten(s.recs[id], o) && Unwritten(s'.recs[id], o);
      UnwrittenIsOwned(s, o, id);
      forall i | 0 <= i < |s.recs| && Unwritten(s'.recs[i], o) ensures i == id {
        UnwrittenIsOwned(s', o, i);
        assert OwnedBy(s, o, i);
      }
    } else if !Settled(s, o) {
      var i :| 0 <= i < |s.recs| && Unwritten(s.recs[i], o);
      assert Unwritten(s'.recs[i], o);
    }
  }

  lemma WriteEndsLag(s: State, id: nat, o: Obj, i: nat)
    requires AllLocal(s) && Exclusive(s) && Enabled(s, Write(id, o)) && i < |s.recs|
    ensures Unwritten(s.recs[id], o)
    ensures !Unwritten(Apply(s, Write(id, o)).recs[i], o)
  {
    assert Local(s.recs[id]);
    UnwrittenIsOwned(s, o, id);
    if i != id && Unwritten(s.recs[i], o) { UnwrittenIsOwned(s, o, i); }
  }

  lemma WriteFollowsSame(s: State, init: map<Obj, Val>, id: nat, o: Obj)
    requires AllLocal(s) && Exclusive(s) && Domains(s, init) && o in init && Follows(s, init, o)
    requires Enabled(s, Write(id, o)) && Domains(Apply(s, Write(id, o)), init)
    ensures Follows(Apply(s, Write(id, o)), init, o)
  {
    var s' := Apply(s, Write(id, o));
    WriteEndsLag(s, id, o, id);
    assert Local(s.recs[id]);
    assert Lagging(s, s.recs[id], o);
    WrittenSnoc(s.hwLog, (o, s.sw[o]), o);
    assert Settled(s', o);
    forall i | 0 <= i < |s'.recs| ensures !Unwritten(s'.recs[i], o) {
      WriteEndsLag(s, id, o, i);
    }
  }

  /** A write to another object leaves the log of this one and what its commits owe it. */
  lemma WriteSpares(s: State, init: map<Obj, Val>, id: nat, w: Obj, o: Obj)
    requires Domains(s, init) && o in init && Enabled(s, Write(id, w)) && o != w
    ensures var s' := Apply(s, Write(id, w));
            && o in s'.hw && o in s'.sw && s'.hw[o] == s.hw[o] && s'.sw[o] == s.sw[o] && s'.order == s.order
            && Written(s'.hwLog, o) == Written(s.hwLog, o) && |s'.recs| == |s.recs|
            && forall i :: 0 <= i < |s.recs| ==>
                 (Unwritten(s'.recs[i], o) <==> Unwritten(s.recs[i], o))
                 && s'.recs[i].c == s.recs[i].c && s'.recs[i].caller == s.recs[i].caller
  {
    WrittenSnoc(s.hwLog, (w, s.sw[w]), o);
  }

  lemma WriteFollowsOther(s: State, init: map<Obj, Val>, id: nat, w: Obj, o: Obj)
    requires Domains(s, init) && o in init && Follows(s, init, o)
    requires Enabled(s, Write(id, w)) && Domains(Apply(s, Write(id, w)), init) && o != w
    ensures Follows(Apply(s, Write(id, w)), init, o)
  {
    WriteSpares(s, init, id, w, o);
    hide Apply, Domains, Written, Planned, Unwritten;
    var s' := Apply(s, Write(id, w));
    forall i | 0 <= i < |s'.recs| && Unwritten(s'.recs[i], o)
      ensures o in s'.recs[i].c.vals && Lagging(s', s'.recs[i], o) {
      assert Lagging(s, s.recs[i], o);
    }
    if !Settled(s, o) {
      var i :| 0 <= i < |s.recs| && Unwritten(s.recs[i], o);
      assert Unwritten(s'.recs[i], o);
    }
  }

  lemma FollowsStep(s: State, init: map<Obj, Val>, step: Step)
    requires AllLocal(s) && Threads(s) && Exclusive(s) && AllFollow(s, init) && Enabled(s, step)
    ensures AllFollow(Apply(s, step), init)
  {
    DomainsStep(s, init, step);
    MoverIsReady(s, step);
    hide Apply, Follows, Domains, Threads, AllLocal, Exclusive;
    forall o | o in init ensures Follows(Apply(s, step), init, o) {
      if step.Start? {
        StartFollows(s, init, step.id, o);
      } else if step.Swap? {
        SwapFollows(s, init, step.id, o);
      } else if step.Write? {
        if o == step.o { WriteFollowsSame(s, init, step.id, o); }
        else { WriteFollowsOther(s, init, step.id, step.o, o); }
      } else {
        QuietFollows(s, init, step, o);
      }
    }
  }

  /** Every step keeps the invariant. */
  lemma StepKeepsInv(s: State, init: map<Obj, Val>, step: Step)
    requires Inv(s, init) && Enabled(s, step)
    ensures Inv(Apply(s, step), init)
  {
    LocalStep(s, step);
    ExclusiveStep(s, step);
    ThreadsStep(s, step);
    FollowsStep(s, init, step);
  }

  lemma InitialInv(s: State)
    requires Initial(s)
    ensures Inv(s, s.hw)
  {
    forall id: nat, t: nat, k: nat ensures !InQueue(s, id, t, k) {}
    forall o | o in s.hw ensures Follows(s, s.hw, o) {
      assert Written(s.hwLog, o) == [];
    }
  }

  lemma {:induction false} RunKeepsInv(s: State, init: map<Obj, Val>, steps: seq<Step>)
    requires Inv(s, init) && ValidRun(s, steps)
    ensures Inv(Exec(s, steps), init)
    decreases |steps|
  {
    if steps != [] {
      StepKeepsInv(s, init, steps[0]);
      RunKeepsInv(Apply(s, steps[0]), init, steps[1..]);
    }
  }

  // ----- the theorems -----

  /** In every reachable state two commits in flight share no CRTC, plane or
      resource, and an object is pending exactly when a commit in flight has it. */
  lemma CommitsInFlightAreDisjoint(s0: State, steps: seq<Step>)
    requires Initial(s0) && ValidRun(s0, steps)
    ensures var s := Exec(s0, steps);
      && (forall i, j :: 0 <= i < j < |s.recs| && InFlight(s.recs[i]) && InFlight(s.recs[j])
            ==> s.recs[i].c.vals.Keys !! s.recs[j].c.vals.Keys)
      && (forall o :: o in s.pending <==>
            exists i :: 0 <= i < |s.recs| && InFlight(s.recs[i]) && o in s.recs[i].c.vals)
  {
    InitialInv(s0);
    RunKeepsInv(s0, s0.hw, steps);
    var s := Exec(s0, steps);
    forall i, j | 0 <= i < j < |s.recs| && InFlight(s.recs[i]) && InFlight(s.recs[j])
      ensures s.recs[i].c.vals.Keys !! s.recs[j].c.vals.Keys
    {
      if o :| o in s.recs[i].c.vals && o in s.recs[j].c.vals {
        assert OwnedBy(s, o, i) && OwnedBy(s, o, j);
      }
    }
    forall o
      ensures o in s.pending <==> exists i :: 0 <= i < |s.recs| && InFlight(s.recs[i]) && o in s.recs[i].c.vals
    {
      if o in s.pending {
        var i :| OwnedBy(s, o, i);
      }
      if i :| 0 <= i < |s.recs| && InFlight(s.recs[i]) && o in s.recs[i].c.vals {
        assert OwnedBy(s, o, i);
      }
    }
  }

  /** In every reachable state, an object that is not pending was given by the
      hardware writes exactly the states of the started commits that carry it, each
      once and in start order; hardware and software agree on it, and both hold what
      running the commits one at a time in start order leaves there. */
  lemma EveryRunIsSerial(s0: State, steps: seq<Step>, o: Obj)
    requires Initial(s0) && ValidRun(s0, steps) && o in s0.hw
    requires o !in Exec(s0, steps).pending
    ensures var s := Exec(s0, steps);
      && o in s.hw && o in s.sw && o in Serial(s0.hw, s.order)
      && Written(s.hwLog, o) == Planned(s.order, o)
      && s.hw[o] == s.sw[o] == Serial(s0.hw, s.order)[o]
  {
    InitialInv(s0);
    RunKeepsInv(s0, s0.hw, steps);
    var s := Exec(s0, steps);
    assert Follows(s, s0.hw, o);
    forall i | 0 <= i < |s.recs| ensures !Unwritten(s.recs[i], o) {
      if Unwritten(s.recs[i], o) { UnwrittenIsOwned(s, o, i); }
    }
    SerialIsLastPlanned(s0.hw, s.order, o);
  }

  /** When nothing is pending, the whole hardware and software state is the one of
      the serial execution in start order. */
  lemma QuiescentStateIsSerial(s0: State, steps: seq<Step>)
    requires Initial(s0) && ValidRun(s0, steps) && Exec(s0, steps).pending == {}
    ensures Exec(s0, steps).hw == Exec(s0, steps).sw == Serial(s0.hw, Exec(s0, steps).order)
  {
    InitialInv(s0);
    RunKeepsInv(s0, s0.hw, steps);
    var s := Exec(s0, steps);
    var serial := Serial(s0.hw, s.order);
    forall o | o in s0.hw ensures o in serial && s.hw[o] == s.sw[o] == serial[o] {
      EveryRunIsSerial(s0, steps, o);
    }
    if o0 :| o0 in s0.hw {
      SerialIsLastPlanned(s0.hw, s.order, o0);
      assert s.hw == serial && s.sw == serial;
    } else {
      SerialKeys(s0.hw, s.order);
      assert s.hw == s.sw == serial;
    }
  }

  lemma {:induction false} SerialKeys(init: map<Obj, Val>, order: seq<Commit>)
    requires forall c :: c in order ==> c.vals.Keys <= init.Keys
    ensures Serial(init, order).Keys == init.Keys
  {
    if order != [] {
      SerialKeys(init, order[..|order| - 1]);
      assert order[|order| - 1] in order;
    }
  }

  /** A worker that writes an object of its commit always finds that commit's own
      state in the software state, however many commits were swapped in meanwhile. */
  lemma WorkerWritesItsOwnState(s0: State, steps: seq<Step>, id: nat, o: Obj)
    requires Initial(s0) && ValidRun(s0, steps) && Enabled(Exec(s0, steps), Write(id, o))
    ensures var s := Exec(s0, steps);
      o in s.recs[id].c.vals && s.sw[o] == s.recs[id].c.vals[o]
  {
    InitialInv(s0);
    RunKeepsInv(s0, s0.hw, steps);
    var s := Exec(s0, steps);
    assert Local(s.recs[id]);
    assert Unwritten(s.recs[id], o);
    assert Follows(s, s0.hw, o);
  }

  /** In every run: no freed commit object and no unreferenced state is touched, no
      commit object is freed twice, and once caller and worker are through with a
      commit it was freed exactly once and no reference to its state is left. */
  lemma CommitsAreFreedOnce(s0: State, steps: seq<Step>)
    requires Initial(s0) && ValidRun(s0, steps)
    ensures var s := Exec(s0, steps);
      && !s.misuse
      && (forall i :: 0 <= i < |s.recs| ==> s.recs[i].frees <= 1 && s.recs[i].refs >= 0)
      && (forall i :: 0 <= i < |s.recs| && Through(s.recs[i]) ==> s.recs[i].frees == 1 && s.recs[i].refs == 0)
  {
    InitialInv(s0);
    RunKeepsInv(s0, s0.hw, steps);
    var s := Exec(s0, steps);
    forall i | 0 <= i < |s.recs|
      ensures s.recs[i].frees <= 1 && s.recs[i].refs >= 0
      ensures Through(s.recs[i]) ==> s.recs[i].frees == 1 && s.recs[i].refs == 0
    {
      assert Local(s.recs[i]);
    }
  }

  ghost predicate Through(r: Rec) {
    r.caller == RefusedGone || (r.caller == Gone && r.work == Done)
  }
}
