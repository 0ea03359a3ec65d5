/** The driver side of the commit protocol in its own form: pending masks updated in
    place, commit objects that are freed, reference-counted states, work lists. */
module CommitDriver {
  import opened CommitMasks
  import opened CommitProtocol

  const ERESTARTSYS: int := 512

  /** struct drm_atomic_state: the new state of every object of a commit. */
  class AtomicState {
    const vals: map<Obj, Val>
    var refs: int

    constructor (vals: map<Obj, Val>)
      ensures this.vals == vals && refs == 1
    {
      this.vals := vals;
      refs := 1;
    }
  }

  /** struct msm_commit. */
  class MsmCommit {
    const masks: Masks
    const objs: seq<Obj>
    const crtcs: seq<int>       // ids of the CRTCs in the state, in its order
    const nonblock: bool
    const state: AtomicState
    ghost var frees: nat

    constructor (masks: Masks, objs: seq<Obj>, crtcs: seq<int>, nonblock: bool, state: AtomicState)
      ensures this.masks == masks && this.objs == objs && this.crtcs == crtcs
      ensures this.nonblock == nonblock && this.state == state && frees == 0
    {
      this.masks, this.objs, this.crtcs, this.nonblock, this.state := masks, objs, crtcs, nonblock, state;
      frees := 0;
    }

    ghost function Footprint(): set<Obj> {
      set o | o in objs
    }

    ghost predicate WellFormed() {
      Represents(masks, Footprint()) && state.vals.Keys == Footprint()
    }
  }

  datatype DispThread = DispThread(crtcId: int, alive: bool)

  predicate FirstFor(threads: seq<DispThread>, crtcId: int, j: nat) {
    j < |threads| && threads[j].crtcId == crtcId && forall i :: 0 <= i < j ==> threads[i].crtcId != crtcId
  }

  predicate NoneFor(threads: seq<DispThread>, crtcId: int) {
    forall i :: 0 <= i < |threads| ==> threads[i].crtcId != crtcId
  }

  /** The first CRTC of the commit that has any display thread decides. */
  ghost predicate Decides(crtcs: seq<int>, threads: seq<DispThread>, k: nat, j: nat) {
    k < |crtcs| && FirstFor(threads, crtcs[k], j) && forall i :: 0 <= i < k ==> NoneFor(threads, crtcs[i])
  }

  /** Thread t is the one that commits on these CRTCs are queued to. */
  ghost predicate ThreadFor(crtcs: seq<int>, threads: seq<DispThread>, t: nat) {
    exists k: nat :: Decides(crtcs, threads, k, t) && threads[t].alive
  }

  /** No thread takes such a commit: its CRTCs have no entry, or the deciding entry has no thread. */
  ghost predicate NoThreadFor(crtcs: seq<int>, threads: seq<DispThread>) {
    || (forall k :: 0 <= k < |crtcs| ==> NoneFor(threads, crtcs[k]))
    || exists k: nat, j: nat :: Decides(crtcs, threads, k, j) && !threads[j].alive
  }

  /** At most one thread is right for a commit, and there is one unless it has to be completed
      by its caller. */
  lemma OneThreadDecides(crtcs: seq<int>, threads: seq<DispThread>, t: nat, u: nat)
    ensures ThreadFor(crtcs, threads, t) && ThreadFor(crtcs, threads, u) ==> t == u
    ensures NoThreadFor(crtcs, threads) <==> forall v: nat :: !ThreadFor(crtcs, threads, v)
  {
    forall j: nat, k: nat, j': nat, k': nat
      | Decides(crtcs, threads, k, j) && Decides(crtcs, threads, k', j') ensures k == k' && j == j' {
    }
    var i := FirstListed(crtcs, threads);
    if i < |crtcs| {
      var j: nat :| Decides(crtcs, threads, i, j);
      if threads[j].alive { assert ThreadFor(crtcs, threads, j); }
    }
  }

  lemma FirstListed(crtcs: seq<int>, threads: seq<DispThread>) returns (k: nat)
    ensures k <= |crtcs| && forall i :: 0 <= i < k ==> NoneFor(threads, crtcs[i])
    ensures k < |crtcs| ==> exists j: nat :: Decides(crtcs, threads, k, j)
  {
    k := 0;
    while k < |crtcs| && NoneFor(threads, crtcs[k])
      invariant k <= |crtcs| && forall i :: 0 <= i < k ==> NoneFor(threads, crtcs[i])
    {
      k := k + 1;
    }
    if k < |crtcs| {
      var j := 0;
      while threads[j].crtcId != crtcs[k]
        invariant j < |threads| && forall i :: 0 <= i < j ==> threads[i].crtcId != crtcs[k]
        decreases |threads| - j
      {
        j := j + 1;
      }
      assert Decides(crtcs, threads, k, j);
    }
  }

  /** Who completed a commit: a display thread, or the caller itself. */
  datatype Turn = Turn(thread: Option<nat>, commit: MsmCommit)

  ghost predicate RightTurn(threads: seq<DispThread>, turn: Turn) {
    match turn.thread
    case Some(t) => ThreadFor(turn.commit.crtcs, threads, t)
    case None => NoThreadFor(turn.commit.crtcs, threads)
  }

  class Driver {
    var pendingCrtcs: bv32
    var pendingPlanes: bv32
    var pendingRm: bv64
    var sw: map<Obj, Val>
    var hw: map<Obj, Val>
    var works: seq<seq<MsmCommit>>
    const threads: seq<DispThread>
    ghost var pending: set<Obj>
    ghost var turns: seq<Turn>      // every completion so far

    function PendingMasks(): Masks
      reads this
    {
      Masks(pendingCrtcs, pendingPlanes, pendingRm)
    }

    /** Every commit waits on the list of the thread of its CRTCs, and was completed there. */
    ghost predicate Valid()
      reads this
    {
      && Represents(PendingMasks(), pending) && |works| == |threads| && sw.Keys == hw.Keys
      && (forall t: nat, i: nat :: t < |works| && i < |works[t]| ==> ThreadFor(works[t][i].crtcs, threads, t))
      && (forall i :: 0 <= i < |turns| ==> RightTurn(threads, turns[i]))
    }

    constructor (init: map<Obj, Val>, threads: seq<DispThread>)
      ensures Valid() && pending == {} && sw == hw == init && this.threads == threads && turns == []
      ensures forall t :: 0 <= t < |works| ==> works[t] == []
    {
      pendingCrtcs, pendingPlanes, pendingRm, pending, turns := 0, 0, 0, {}, [];
      sw, hw, works, this.threads := init, init, seq(|threads|, _ => []), threads;
      new;
      NothingPending();
    }

    /** The fields this object shares with a state of the protocol. */
    ghost predicate Shares(s: State)
      reads this
    {
      s.pending == pending && s.sw == sw && s.hw == hw
    }

    /** The condition that lets a commit start is that of the protocol, and so is its effect. */
    lemma StartIsAStep(s: State, id: nat, fp: set<Obj>)
      requires Shares(s) && AtCaller(s, id, InStart) && s.recs[id].c.vals.Keys == fp
      ensures Enabled(s, Start(id)) <==> pending !! fp
      ensures Enabled(s, Start(id)) ==> Apply(s, Start(id)).pending == pending + fp
    {
    }

    /** One evaluation, under the event lock, of the condition start_atomic waits for. */
    method StartAtomic(m: Masks, ghost fp: set<Obj>) returns (started: bool)
      requires Valid() && Represents(m, fp)
      modifies `pendingCrtcs, `pendingPlanes, `pendingRm, `pending
      ensures Valid()
      ensures started <==> old(pending) !! fp
      ensures pending == if started then old(pending) + fp else old(pending)
    {
      var p := PendingMasks();
      started := !Busy(p, m);
      BusyIffShared(p, m, pending, fp);
      if started {
        var marked := Mark(p, m);
        MarkIsUnion(p, m, pending, fp);
        pendingCrtcs, pendingPlanes, pendingRm := marked.crtcs, marked.planes, marked.rm;
        pending := pending + fp;
        assert PendingMasks() == marked;
      }
    }

    method EndAtomic(m: Masks, ghost fp: set<Obj>)
      requires Valid() && Represents(m, fp)
      modifies `pendingCrtcs, `pendingPlanes, `pendingRm, `pending
      ensures Valid()
      ensures pending == old(pending) - fp
    {
      var cleared := Clear(PendingMasks(), m);
      ClearIsDifference(PendingMasks(), m, pending, fp);
      pendingCrtcs, pendingPlanes, pendingRm := cleared.crtcs, cleared.planes, cleared.rm;
      pending := pending - fp;
      assert PendingMasks() == cleared;
    }

    method CommitDestroy(c: MsmCommit)
      requires Valid() && c.WellFormed() && c.frees == 0
      modifies `pendingCrtcs, `pendingPlanes, `pendingRm, `pending, c`frees
      ensures Valid()
      ensures pending == old(pending) - c.Footprint()
      ensures c.frees == if c.nonblock then 1 else 0
    {
      EndAtomic(c.masks, c.Footprint());
      if c.nonblock {
        c.frees := c.frees + 1;
      }
    }

    /** The hardware takes the software state of exactly the objects of the commit, the
        reference of the commit is dropped, its objects are no longer pending, and only
        a non-blocking commit is freed here. */
    method CompleteCommit(c: MsmCommit)
      requires Valid() && c.WellFormed() && c.frees == 0 && c.state.refs > 0
      requires c.Footprint() <= sw.Keys
      modifies `pendingCrtcs, `pendingPlanes, `pendingRm, `pending, `hw, c`frees, c.state`refs
      ensures Valid()
      ensures hw.Keys == old(hw.Keys)
      ensures forall o :: o in hw ==> hw[o] == if o in c.Footprint() then sw[o] else old(hw)[o]
      ensures pending == old(pending) - c.Footprint()
      ensures c.state.refs == old(c.state.refs) - 1
      ensures c.frees == if c.nonblock then 1 else 0
    {
      for i := 0 to |c.objs|
        invariant Valid() && pending == old(pending) && hw.Keys == old(hw.Keys)
        invariant c.frees == 0 && c.state.refs == old(c.state.refs)
        invariant forall o :: o in hw ==> hw[o] == if o in c.objs[..i] then sw[o] else old(hw)[o]
      {
        assert c.objs[i] in c.Footprint();
        hw := hw[c.objs[i] := sw[c.objs[i]]];
      }
      c.state.refs := c.state.refs - 1;
      CommitDestroy(c);
    }

    /** The display thread the commit is queued to: the first thread entry of the first
        CRTC of the commit that has one, unless that entry has no thread. */
    method ChooseThread(crtcs: seq<int>) returns (r: Option<nat>)
      ensures r.Some? ==> ThreadFor(crtcs, threads, r.value)
      ensures r.None? ==> NoThreadFor(crtcs, threads)
    {
      r := None;
      for i := 0 to |crtcs|
        invariant r.None? && forall k :: 0 <= k < i ==> NoneFor(threads, crtcs[k])
      {
        var j := 0;
        while j < |threads| && threads[j].crtcId != crtcs[i]
          invariant 0 <= j <= |threads|
          invariant forall k :: 0 <= k < j ==> threads[k].crtcId != crtcs[i]
        {
          j := j + 1;
        }
        if j < |threads| {
          assert Decides(crtcs, threads, i, j);
          if threads[j].alive {
            r := Some(j);
          }
          return;
        }
      }
    }

    /** msm_atomic_commit_dispatch up to the point where the caller would wait or return:
        the commit is either last on the list of the thread of its first CRTC that has an
        entry, and otherwise untouched, or, if that gives no thread, completed here. */
    method Dispatch(c: MsmCommit) returns (r: Option<nat>)
      requires Valid() && c.WellFormed() && c.frees == 0 && c.state.refs > 0
      requires c.Footprint() <= sw.Keys
      modifies this, c`frees, c.state`refs
      ensures Valid() && sw == old(sw)
      ensures r.Some? ==> exists k: nat :: Decides(c.crtcs, threads, k, r.value) && threads[r.value].alive
      ensures r.None? ==> (forall k :: 0 <= k < |c.crtcs| ==> NoneFor(threads, c.crtcs[k]))
                          || exists k: nat, j: nat :: Decides(c.crtcs, threads, k, j) && !threads[j].alive
      ensures r.Some? ==>
        && r.value < |works|
        && works == old(works)[r.value := old(works)[r.value] + [c]]
        && pending == old(pending) && hw == old(hw) && turns == old(turns)
        && c.frees == 0 && c.state.refs == old(c.state.refs)
      ensures r.None? ==>
        && works == old(works) && turns == old(turns) + [Turn(None, c)]
        && pending == old(pending) - c.Footprint()
        && hw.Keys == old(hw.Keys)
        && (forall o :: o in hw ==> hw[o] == if o in c.Footprint() then sw[o] else old(hw)[o])
        && c.frees == (if c.nonblock then 1 else 0) && c.state.refs == old(c.state.refs) - 1
    {
      r := ChooseThread(c.crtcs);
      if r.Some? {
        works := works[r.value := works[r.value] + [c]];
      } else {
        CompleteCommit(c);
        turns := turns + [Turn(None, c)];
      }
    }

    /** One round of a display thread: the oldest commit of its list is completed, and this is
        the thread of that commit's CRTCs. */
    method RunWorker(t: nat, c: MsmCommit)
      requires Valid() && t < |works| && works[t] != [] && works[t][0] == c
      requires c.WellFormed() && c.frees == 0 && c.state.refs > 0
      requires c.Footprint() <= sw.Keys
      modifies this, c`frees, c.state`refs
      ensures Valid() && sw == old(sw)
      ensures ThreadFor(c.crtcs, threads, t) && turns == old(turns) + [Turn(Some(t), c)]
      ensures works == old(works)[t := old(works[t])[1..]]
      ensures pending == old(pending) - c.Footprint()
      ensures hw.Keys == old(hw.Keys)
      ensures forall o :: o in hw ==> hw[o] == if o in c.Footprint() then sw[o] else old(hw)[o]
      ensures c.frees == (if c.nonblock then 1 else 0) && c.state.refs == old(c.state.refs) - 1
    {
      hide ThreadFor, NoThreadFor;
      assert ThreadFor(works[t][0].crtcs, threads, t);
      works := works[t := works[t][1..]];
      CompleteCommit(c);
      turns := turns + [Turn(Some(t), c)];
    }

    /** A blocking commit with nothing of it pending: refused without a trace, or carried
        to hardware and software alike by the thread of its CRTCs, or by the caller if there
        is none, with the masks free again, the object freed once and the references of its
        state as before.  This is one step of Serial. */
    method BlockingCommit(c: MsmCommit, interrupted: bool) returns (rc: int)
      requires Valid() && c.WellFormed() && c.frees == 0 && c.state.refs > 0 && !c.nonblock
      requires c.Footprint() <= sw.Keys && pending !! c.Footprint()
      requires forall t :: 0 <= t < |works| ==> works[t] == []
      modifies this, c`frees, c.state`refs
      ensures Valid() && works == old(works) && pending == old(pending)
      ensures c.frees == 1 && c.state.refs == old(c.state.refs)
      ensures rc == if interrupted then -ERESTARTSYS else 0
      ensures interrupted ==> sw == old(sw) && hw == old(hw) && turns == old(turns)
      ensures !interrupted && old(sw) == old(hw) ==> sw == hw == Serial(old(hw), [Commit(c.state.vals, false)])
      ensures !interrupted ==>
                && |turns| == |old(turns)| + 1 && turns[..|old(turns)|] == old(turns)
                && var last := turns[|old(turns)|]; last.commit == c && RightTurn(threads, last)
    {
      if interrupted {
        c.frees := c.frees + 1;
        return -ERESTARTSYS;
      }
      var started := StartAtomic(c.masks, c.Footprint());
      SwapState(c);
      Carry(c);
      c.frees := c.frees + 1;
      rc := 0;
      OneAlone(old(hw), Commit(c.state.vals, false));
      assert pending == old(pending);
    }

    /** The software state is swapped in and the commit holds it. */
    method SwapState(c: MsmCommit)
      requires Valid() && c.WellFormed() && c.Footprint() <= sw.Keys
      modifies this`sw, c.state`refs
      ensures Valid() && sw == old(sw) + c.state.vals && c.state.refs == old(c.state.refs) + 1
    {
      sw := sw + c.state.vals;
      c.state.refs := c.state.refs + 1;
    }

    /** Dispatch and wait for the thread. */
    method Carry(c: MsmCommit)
      requires Valid() && c.WellFormed() && c.frees == 0 && c.state.refs > 0 && !c.nonblock
      requires c.Footprint() <= sw.Keys && forall t :: 0 <= t < |works| ==> works[t] == []
      modifies this, c`frees, c.state`refs
      ensures Valid() && sw == old(sw) && works == old(works) && pending == old(pending) - c.Footprint()
      ensures hw.Keys == old(hw.Keys)
      ensures forall o :: o in hw ==> hw[o] == if o in c.Footprint() then sw[o] else old(hw)[o]
      ensures c.frees == 0 && c.state.refs == old(c.state.refs) - 1
      ensures |turns| == |old(turns)| + 1 && turns[..|old(turns)|] == old(turns)
      ensures turns[|old(turns)|].commit == c
    {
      var t := Dispatch(c);
      if t.Some? {
        assert works[t.value] == [c];
        RunWorker(t.value, c);     // kthread_flush_work
        assert works[t.value] == [];
      }
      assert forall k :: 0 <= k < |works| ==> works[k] == old(works)[k];
    }
  }

  lemma NothingPending()
    ensures Represents(Masks(0, 0, 0), {})
  {
  }

  lemma OneAlone(init: map<Obj, Val>, c: Commit)
    ensures Serial(init, [c]) == init + c.vals
  {
    assert [c][..0] == [];
  }

  // ----- a completion as steps of the protocol -----

  function Writes(id: nat, objs: seq<Obj>): (r: seq<Step>)
    ensures |r| == |objs|
  {
    seq(|objs|, i requires 0 <= i < |objs| => Write(id, objs[i]))
  }

  /** The commit of record id is being written and exactly the given objects are left. */
  ghost predicate Left(s: State, id: nat, objs: seq<Obj>) {
    && id < |s.recs| && s.recs[id].work == Writing(set o | o in objs)
    && (forall i, j :: 0 <= i < j < |objs| ==> objs[i] != objs[j])
    && (forall i :: 0 <= i < |objs| ==> objs[i] in s.sw)
  }

  lemma Cons(s: State, step: Step, rest: seq<Step>)
    requires Enabled(s, step) && ValidRun(Apply(s, step), rest)
    ensures ValidRun(s, [step] + rest) && Exec(s, [step] + rest) == Exec(Apply(s, step), rest)
  {
    assert ([step] + rest)[1..] == rest;
  }

  /** s became g by writing the given objects for record id. */
  ghost predicate Wrote(s: State, g: State, id: nat, objs: seq<Obj>) {
    && id < |s.recs| && g.sw == s.sw && g.pending == s.pending
    && g.hw.Keys == s.hw.Keys + (set o | o in objs)
    && (forall o :: o in objs ==> o in s.sw)
    && (forall o :: o in g.hw ==> g.hw[o] == if o in objs then s.sw[o] else s.hw[o])
    && |g.recs| == |s.recs| && g.recs[id].work == Writing({})
    && g.recs[id].c == s.recs[id].c && g.recs[id].refs == s.recs[id].refs && g.recs[id].frees == s.recs[id].frees
  }

  lemma WroteFirst(s: State, g: State, id: nat, objs: seq<Obj>)
    requires Left(s, id, objs) && objs != [] && Enabled(s, Write(id, objs[0]))
    requires Wrote(Apply(s, Write(id, objs[0])), g, id, objs[1..])
    ensures Wrote(s, g, id, objs)
  {
    assert objs == [objs[0]] + objs[1..];
  }

  lemma FirstLeft(s: State, id: nat, objs: seq<Obj>)
    requires Left(s, id, objs) && objs != []
    ensures Enabled(s, Write(id, objs[0])) && Left(Apply(s, Write(id, objs[0])), id, objs[1..])
  {
    assert objs == [objs[0]] + objs[1..];
    assert objs[0] !in objs[1..];
  }

  lemma {:induction false} WritesRun(s: State, id: nat, objs: seq<Obj>)
    requires Left(s, id, objs)
    ensures ValidRun(s, Writes(id, objs)) && Wrote(s, Exec(s, Writes(id, objs)), id, objs)
    decreases |objs|
  {
    if objs == [] {
      assert Writes(id, objs) == [];
      assert Wrote(s, s, id, []);
    } else {
      hide Left, Wrote;
      var w := Write(id, objs[0]);
      FirstLeft(s, id, objs);
      WritesRun(Apply(s, w), id, objs[1..]);
      Cons(s, w, Writes(id, objs[1..]));
      assert Writes(id, objs) == [w] + Writes(id, objs[1..]);
      WroteFirst(s, Exec(s, Writes(id, objs)), id, objs);
    }
  }

  /** What complete_commit does to the device is what the protocol does in the steps from the
      first write to the end of the commit. */
  lemma CompletionIsARun(s: State, id: nat, objs: seq<Obj>)
    requires Left(s, id, objs) && s.hw.Keys == s.sw.Keys
    ensures var steps := Writes(id, objs) + [PutState(id), EndAtomic(id), Finish(id)];
            && ValidRun(s, steps)
            && var g := Exec(s, steps);
            && id < |g.recs| && g.sw == s.sw && g.hw.Keys == s.hw.Keys
            && (forall o :: o in g.hw ==> g.hw[o] == if o in objs then s.sw[o] else s.hw[o])
            && g.pending == s.pending - s.recs[id].c.vals.Keys
            && g.recs[id].refs == s.recs[id].refs - 1
            && g.recs[id].frees == s.recs[id].frees + (if s.recs[id].c.nonblock then 1 else 0)
  {
    hide Writes, ValidRun, Exec;
    WritesRun(s, id, objs);
    var w := Exec(s, Writes(id, objs));
    Finishing(w, id);
    Joined(s, Writes(id, objs), [PutState(id), EndAtomic(id), Finish(id)]);
  }

  lemma Finishing(w: State, id: nat)
    requires id < |w.recs| && w.recs[id].work == Writing({})
    ensures var steps := [PutState(id), EndAtomic(id), Finish(id)];
            && ValidRun(w, steps)
            && var g := Exec(w, steps);
            && id < |g.recs| && g.sw == w.sw && g.hw == w.hw && g.pending == w.pending - w.recs[id].c.vals.Keys
            && g.recs[id].refs == w.recs[id].refs - 1
            && g.recs[id].frees == w.recs[id].frees + (if w.recs[id].c.nonblock then 1 else 0)
  {
    var a := Apply(w, PutState(id));
    var b := Apply(a, EndAtomic(id));
    var c := Apply(b, Finish(id));
    assert ValidRun(c, []) && Exec(c, []) == c;
    hide ValidRun, Exec;
    Cons(b, Finish(id), []);
    Cons(a, EndAtomic(id), [Finish(id)]);
    Cons(w, PutState(id), [EndAtomic(id), Finish(id)]);
    assert [Finish(id)] + [] == [Finish(id)];
    assert [EndAtomic(id)] + [Finish(id)] == [EndAtomic(id), Finish(id)];
    assert [PutState(id)] + [EndAtomic(id), Finish(id)] == [PutState(id), EndAtomic(id), Finish(id)];
  }

  lemma {:induction false} Joined(s: State, a: seq<Step>, b: seq<Step>)
    requires ValidRun(s, a) && ValidRun(Exec(s, a), b)
    ensures ValidRun(s, a + b) && Exec(s, a + b) == Exec(Exec(s, a), b)
    decreases |a|
  {
    if a == [] {
      assert a + b == b;
    } else {
      assert (a + b)[1..] == a[1..] + b && (a + b)[0] == a[0];
      Joined(Apply(s, a[0]), a[1..], b);
    }
  }
}
