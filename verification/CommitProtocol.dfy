/** The atomic-commit protocol of the display driver as a state machine whose
    steps are the atomic regions of msm_atomic_commit, complete_commit and the
    worker threads.  Callers and workers interleave freely.  Next to the device
    state the machine keeps, for every commit, how often the commit object was
    freed and how many references its atomic state has. */
module CommitProtocol {
  import opened CommitMasks

  datatype Option<+T> = None | Some(value: T)

  /** The state of one CRTC, plane or resource, as a version. */
  type Val = int

  /** One atomic commit: the objects it carries with their new states. */
  datatype Commit = Commit(vals: map<Obj, Val>, nonblock: bool)

  /** Where the caller of msm_atomic_commit stands. */
  datatype Caller =
    | InStart       // waiting in start_atomic
    | HasMasks      // start_atomic returned 0
    | Swapped       // drm_atomic_helper_swap_state done
    | HoldsRef      // drm_atomic_state_get done
    | AfterQueue    // kthread_queue_work done
    | InFallback    // running complete_commit itself
    | Returned      // msm_atomic_commit returned
    | Gone          // and the reference of the DRM core was dropped
    | Refused       // start_atomic was interrupted
    | RefusedGone

  /** How far complete_commit is, in the worker or in the fallback. */
  datatype Work =
    | NotQueued
    | Queued
    | Writing(left: set<Obj>)   // objects not yet written to hardware
    | StatePut                  // drm_atomic_state_put done
    | MasksCleared              // end_atomic done
    | Done                      // complete_commit returned

  datatype Rec = Rec(c: Commit, caller: Caller, work: Work, frees: nat, refs: int)

  datatype State = State(
    pending: set<Obj>,
    sw: map<Obj, Val>,
    hw: map<Obj, Val>,
    recs: seq<Rec>,              // every commit ever begun, by id
    order: seq<Commit>,          // commits in the order they left start_atomic
    hwLog: seq<(Obj, Val)>,      // hardware writes, oldest first
    queues: seq<seq<nat>>,       // work list of each display thread
    active: seq<Option<nat>>,    // commit each display thread is working on
    misuse: bool)                // a freed commit or an unreferenced state was touched

  datatype Step =
    | Begin(c: Commit)
    | Interrupt(id: nat)
    | Start(id: nat)
    | Swap(id: nat)
    | TakeRef(id: nat)
    | Dispatch(id: nat, thread: Option<nat>)
    | Take(t: nat)
    | Write(id: nat, o: Obj)
    | PutState(id: nat)
    | EndAtomic(id: nat)
    | Finish(id: nat)
    | Return(id: nat)
    | CorePut(id: nat)

  // ----- the steps -----

  predicate AtCaller(s: State, id: nat, c: Caller) {
    id < |s.recs| && s.recs[id].caller == c
  }

  predicate Enabled(s: State, step: Step) {
    match step
    case Begin(c) => c.vals.Keys <= s.hw.Keys
    case Interrupt(id) => AtCaller(s, id, InStart)
    case Start(id) => AtCaller(s, id, InStart) && s.pending !! s.recs[id].c.vals.Keys
    case Swap(id) => AtCaller(s, id, HasMasks)
    case TakeRef(id) => AtCaller(s, id, Swapped)
    case Dispatch(id, thread) => AtCaller(s, id, HoldsRef) && (thread.Some? ==> thread.value < |s.queues|)
    case Take(t) => t < |s.queues| && t < |s.active| && s.active[t].None? && s.queues[t] != []
                    && s.queues[t][0] < |s.recs|
    case Write(id, o) => id < |s.recs| && s.recs[id].work.Writing? && o in s.recs[id].work.left && o in s.sw
    case PutState(id) => id < |s.recs| && s.recs[id].work == Writing({})
    case EndAtomic(id) => id < |s.recs| && s.recs[id].work == StatePut
    case Finish(id) => id < |s.recs| && s.recs[id].work == MasksCleared
    case Return(id) =>
      && id < |s.recs|
      && (s.recs[id].caller == AfterQueue || s.recs[id].caller == InFallback)
      && ((s.recs[id].caller == AfterQueue && s.recs[id].c.nonblock) || s.recs[id].work == Done)
    case CorePut(id) => id < |s.recs| && (s.recs[id].caller == Returned || s.recs[id].caller == Refused)
  }

  /** Reading a commit object that was freed, or its state without a reference. */
  predicate Touches(r: Rec, state: bool) {
    r.frees > 0 || (state && r.refs <= 0)
  }

  function Release(active: seq<Option<nat>>, id: nat): (r: seq<Option<nat>>) {
    seq(|active|, t requires 0 <= t < |active| => if active[t] == Some(id) then None else active[t])
  }

  function Apply(s: State, step: Step): State
    requires Enabled(s, step)
  {
    match step
    case Begin(c) =>
      s.(recs := s.recs + [Rec(c, InStart, NotQueued, 0, 1)])
    case Interrupt(id) =>
      var r := s.recs[id];
      s.(recs := s.recs[id := r.(caller := Refused, frees := r.frees + 1)])
    case Start(id) =>
      var r := s.recs[id];
      s.(recs := s.recs[id := r.(caller := HasMasks)],
         pending := s.pending + r.c.vals.Keys,
         order := s.order + [r.c],
         misuse := s.misuse || Touches(r, false))
    case Swap(id) =>
      var r := s.recs[id];
      s.(recs := s.recs[id := r.(caller := Swapped)],
         sw := s.sw + r.c.vals,
         misuse := s.misuse || Touches(r, true))
    case TakeRef(id) =>
      var r := s.recs[id];
      s.(recs := s.recs[id := r.(caller := HoldsRef, refs := r.refs + 1)],
         misuse := s.misuse || Touches(r, true))
    case Dispatch(id, thread) =>
      var r := s.recs[id];
      var s' := s.(misuse := s.misuse || Touches(r, true));
      if thread.Some? then
        s'.(recs := s.recs[id := r.(caller := AfterQueue, work := Queued)],
            queues := s.queues[thread.value := s.queues[thread.value] + [id]])
      else
        s'.(recs := s.recs[id := r.(caller := InFallback, work := Writing(r.c.vals.Keys))])
    case Take(t) =>
      var id := s.queues[t][0];
      var r := s.recs[id];
      s.(recs := s.recs[id := r.(work := Writing(r.c.vals.Keys))],
         queues := s.queues[t := s.queues[t][1..]],
         active := s.active[t := Some(id)],
         misuse := s.misuse || Touches(r, true))
    case Write(id, o) =>
      var r := s.recs[id];
      s.(recs := s.recs[id := r.(work := Writing(r.work.left - {o}))],
         hw := s.hw[o := s.sw[o]],
         hwLog := s.hwLog + [(o, s.sw[o])],
         misuse := s.misuse || Touches(r, true))
    case PutState(id) =>
      var r := s.recs[id];
      s.(recs := s.recs[id := r.(work := StatePut, refs := r.refs - 1)],
         misuse := s.misuse || Touches(r, true))
    case EndAtomic(id) =>
      var r := s.recs[id];
      s.(recs := s.recs[id := r.(work := MasksCleared)],
         pending := s.pending - r.c.vals.Keys,
         misuse := s.misuse || Touches(r, false))
    case Finish(id) =>
      var r := s.recs[id];
      s.(recs := s.recs[id := r.(work := Done, frees := if r.c.nonblock then r.frees + 1 else r.frees)],
         active := Release(s.active, id),
         misuse := s.misuse || Touches(r, false))
    case Return(id) =>
      // the caller cached nonblock before queueing, so only a blocking commit is touched here
      var r := s.recs[id];
      s.(recs := s.recs[id := r.(caller := Returned, frees := if r.c.nonblock then r.frees else r.frees + 1)],
         misuse := s.misuse || (!r.c.nonblock && Touches(r, false)))
    case CorePut(id) =>
      var r := s.recs[id];
      s.(recs := s.recs[id := r.(caller := if r.caller == Returned then Gone else RefusedGone, refs := r.refs - 1)])
  }

  // ----- runs -----

  predicate ValidRun(s: State, steps: seq<Step>)
    decreases |steps|
  {
    steps == [] || (Enabled(s, steps[0]) && ValidRun(Apply(s, steps[0]), steps[1..]))
  }

  function Exec(s: State, steps: seq<Step>): State
    requires ValidRun(s, steps)
    decreases |steps|
  {
    if steps == [] then s else Exec(Apply(s, steps[0]), steps[1..])
  }

  predicate Initial(s: State) {
    && s.pending == {} && s.sw == s.hw && s.recs == [] && s.order == [] && s.hwLog == []
    && |s.queues| == |s.active|
    && (forall t :: 0 <= t < |s.queues| ==> s.queues[t] == [] && s.active[t].None?)
    && !s.misuse
  }

  // ----- the serial reference -----

  /** Running the commits one at a time in the given order. */
  function Serial(init: map<Obj, Val>, order: seq<Commit>): map<Obj, Val> {
    if order == [] then init else Serial(init, order[..|order| - 1]) + order[|order| - 1].vals
  }

  /** The states the commits of the order give to one object, oldest first. */
  function Planned(order: seq<Commit>, o: Obj): seq<Val> {
    if order == [] then [] else
      var c := order[|order| - 1];
      Planned(order[..|order| - 1], o) + (if o in c.vals then [c.vals[o]] else [])
  }

  /** The states the hardware was given for one object, oldest first. */
  function Written(log: seq<(Obj, Val)>, o: Obj): seq<Val> {
    if log == [] then [] else
      var w := log[|log| - 1];
      Written(log[..|log| - 1], o) + (if w.0 == o then [w.1] else [])
  }

  function LastOr(h: seq<Val>, d: Val): Val {
    if h == [] then d else h[|h| - 1]
  }

  lemma {:induction false} SerialIsLastPlanned(init: map<Obj, Val>, order: seq<Commit>, o: Obj)
    requires o in init
    requires forall c :: c in order ==> c.vals.Keys <= init.Keys
    ensures Serial(init, order).Keys == init.Keys
    ensures Serial(init, order)[o] == LastOr(Planned(order, o), init[o])
  {
    if order != [] {
      SerialIsLastPlanned(init, order[..|order| - 1], o);
      assert order[|order| - 1] in order;
    }
  }

  lemma PlannedSnoc(order: seq<Commit>, c: Commit, o: Obj)
    ensures Planned(order + [c], o) == Planned(order, o) + (if o in c.vals then [c.vals[o]] else [])
  {
    assert (order + [c])[..|order|] == order;
  }

  lemma WrittenSnoc(log: seq<(Obj, Val)>, w: (Obj, Val), o: Obj)
    ensures Written(log + [w], o) == Written(log, o) + (if w.0 == o then [w.1] else [])
  {
    assert (log + [w])[..|log|] == log;
  }
}
