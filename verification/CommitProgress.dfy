/** The protocol cannot stall: while a commit is unfinished some caller or worker
    can move, and without new commits only finitely many steps remain. */
module CommitProgress {
  import opened CommitMasks
  import opened CommitProtocol
  import opened CommitSafety

  ghost function CallerRank(c: Caller): nat {
    match c
    case InStart => 6
    case HasMasks => 5
    case Swapped => 4
    case HoldsRef => 3
    case AfterQueue => 2
    case InFallback => 2
    case Returned => 1
    case Refused => 1
    case Gone => 0
    case RefusedGone => 0
  }

  ghost function WorkRank(r: Rec): nat {
    match r.work
    case NotQueued => |r.c.vals.Keys| + 5
    case Queued => |r.c.vals.Keys| + 4
    case Writing(left) => |left| + 3
    case StatePut => 2
    case MasksCleared => 1
    case Done => 0
  }

  /** The number of steps a commit can still take, at most. */
  ghost function Rank(r: Rec): nat {
    CallerRank(r.caller) + WorkRank(r)
  }

  ghost function Potential(rs: seq<Rec>): nat {
    if rs == [] then 0 else Rank(rs[0]) + Potential(rs[1..])
  }

  lemma {:induction false} PotentialUpdate(rs: seq<Rec>, i: nat, r: Rec)
    requires i < |rs|
    ensures Potential(rs[i := r]) == Potential(rs) - Rank(rs[i]) + Rank(r)
  {
    if i == 0 {
      assert rs[i := r][1..] == rs[1..];
    } else {
      assert rs[i := r][1..] == rs[1..][i - 1 := r];
      PotentialUpdate(rs[1..], i - 1, r);
    }
  }

  lemma MoverRankDrops(s: State, step: Step)
    requires AllLocal(s) && Threads(s) && Enabled(s, step) && !step.Begin?
    ensures Rank(Apply(s, step).recs[Mover(s, step)]) < Rank(s.recs[Mover(s, step)])
  {
    if step.Take? { TakenIsQueued(s, step.t); }
    assert Local(s.recs[Mover(s, step)]);
  }

  lemma StepLowersPotential(s: State, step: Step)
    requires AllLocal(s) && Threads(s) && Enabled(s, step) && !step.Begin?
    ensures Potential(Apply(s, step).recs) < Potential(s.recs)
  {
    MoverRankDrops(s, step);
    StepFrame(s, step);
    var m, s' := Mover(s, step), Apply(s, step);
    assert s'.recs == s.recs[m := s'.recs[m]];
    PotentialUpdate(s.recs, m, s'.recs[m]);
  }

  /** Every run that begins no further commit ends within the potential of its state. */
  lemma {:induction false} RunsAreFinite(s: State, init: map<Obj, Val>, steps: seq<Step>)
    requires Inv(s, init) && ValidRun(s, steps)
    requires forall k :: 0 <= k < |steps| ==> !steps[k].Begin?
    ensures |steps| <= Potential(s.recs)
    decreases |steps|
  {
    if steps != [] {
      StepLowersPotential(s, steps[0]);
      StepKeepsInv(s, init, steps[0]);
      RunsAreFinite(Apply(s, steps[0]), init, steps[1..]);
    }
  }

  lemma WorkCanMove(s: State, init: map<Obj, Val>, id: nat) returns (step: Step)
    requires Inv(s, init) && id < |s.recs| && Working(s.recs[id])
    ensures Enabled(s, step) && !step.Begin? && !step.Interrupt?
  {
    var r := s.recs[id];
    assert Local(r);
    match r.work
    case Writing(left) =>
      if left == {} {
        step := PutState(id);
      } else {
        var o :| o in left;
        assert o in r.c.vals;
        step := Write(id, o);
      }
    case StatePut => step := EndAtomic(id);
    case MasksCleared => step := Finish(id);
  }

  lemma QueuedCanMove(s: State, init: map<Obj, Val>, id: nat) returns (step: Step)
    requires Inv(s, init) && id < |s.recs| && s.recs[id].work == Queued
    ensures Enabled(s, step) && !step.Begin? && !step.Interrupt?
  {
    var t: nat, k: nat :| InQueue(s, id, t, k);
    if s.active[t].None? {
      assert InQueue(s, s.queues[t][0], t, 0);
      step := Take(t);
    } else {
      step := WorkCanMove(s, init, s.active[t].value);
    }
  }

  lemma DispatchedCanMove(s: State, init: map<Obj, Val>, id: nat) returns (step: Step)
    requires Inv(s, init) && id < |s.recs| && !BeforeQueue(s.recs[id]) && !Through(s.recs[id])
    ensures Enabled(s, step) && !step.Begin? && !step.Interrupt?
  {
    var r := s.recs[id];
    assert Local(r);
    if r.work == Queued {
      step := QueuedCanMove(s, init, id);
    } else if r.work != Done {
      step := WorkCanMove(s, init, id);
    } else if r.caller == Returned {
      step := CorePut(id);
    } else {
      step := Return(id);
    }
  }

  lemma InFlightCanMove(s: State, init: map<Obj, Val>, id: nat) returns (step: Step)
    requires Inv(s, init) && id < |s.recs| && InFlight(s.recs[id])
    ensures Enabled(s, step) && !step.Begin? && !step.Interrupt?
  {
    var r := s.recs[id];
    assert Local(r);
    match r.caller
    case HasMasks => step := Swap(id);
    case Swapped => step := TakeRef(id);
    case HoldsRef => step := Dispatch(id, None);
    case _ => step := DispatchedCanMove(s, init, id);
  }

  /** No deadlock: in every reachable state with an unfinished commit some caller or
      worker can take a step, without waiting for a signal or a new commit. */
  lemma UnfinishedCommitsCanMove(s0: State, steps: seq<Step>, id: nat) returns (step: Step)
    requires Initial(s0) && ValidRun(s0, steps)
    requires id < |Exec(s0, steps).recs| && !Through(Exec(s0, steps).recs[id])
    ensures Enabled(Exec(s0, steps), step) && !step.Begin? && !step.Interrupt?
  {
    InitialInv(s0);
    RunKeepsInv(s0, s0.hw, steps);
    var s := Exec(s0, steps);
    var r := s.recs[id];
    assert Local(r);
    if r.caller == InStart {
      if s.pending !! r.c.vals.Keys {
        step := Start(id);
      } else {
        var o :| o in s.pending && o in r.c.vals.Keys;
        var i :| OwnedBy(s, o, i);
        step := InFlightCanMove(s, s0.hw, i);
      }
    } else if r.caller == Refused {
      step := CorePut(id);
    } else if InFlight(r) {
      step := InFlightCanMove(s, s0.hw, id);
    } else {
      step := DispatchedCanMove(s, s0.hw, id);
    }
  }

  /** A run that can go no further without a new commit has finished every commit:
      each commit object was freed once, no state reference is left, nothing is
      pending, and hardware and software hold the serial result. */
  lemma MaximalRunsFinishEverything(s0: State, steps: seq<Step>)
    requires Initial(s0) && ValidRun(s0, steps)
    requires forall step :: Enabled(Exec(s0, steps), step) ==> step.Begin?
    ensures var s := Exec(s0, steps);
      && s.pending == {} && s.hw == s.sw == Serial(s0.hw, s.order)
      && (forall i :: 0 <= i < |s.recs| ==> s.recs[i].frees == 1 && s.recs[i].refs == 0)
  {
    var s := Exec(s0, steps);
    forall i: nat | i < |s.recs| ensures Through(s.recs[i]) {
      if !Through(s.recs[i]) {
        var step := UnfinishedCommitsCanMove(s0, steps, i);
      }
    }
    CommitsAreFreedOnce(s0, steps);
    CommitsInFlightAreDisjoint(s0, steps);
    assert s.pending == {};
    QuiescentStateIsSerial(s0, steps);
  }
}
