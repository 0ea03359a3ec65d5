/** struct msm_hyp_fence_context with its counters, fence list and references updated
    in place; every operation is one step of the timeline of FenceTimeline. */
module FenceContext {
  import opened FenceTimeline
  import opened FenceLedger
  import opened FenceLists

  const EINVAL: int := 22
  const ENOMEM: int := 12

  class FenceCtx {
    var commitCount: U32
    var doneCount: U32
    var fenceList: seq<Fence>
    var signaled: set<nat>      // fences whose signalled flag is set
    var created: nat            // names the next fence
    var ledger: Ledger

    function View(): Ctx
      reads this
    {
      Ctx(commitCount, doneCount, fenceList, signaled, created)
    }

    function State(): Lists
      reads this
    {
      Lists(fenceList, signaled, created, ledger)
    }

    ghost predicate Valid()
      reads this
    {
      Consistent(State())
    }

    constructor ()
      ensures Valid() && ledger.owned && View() == Fresh
    {
      commitCount, doneCount := 0, 0;
      fenceList, signaled, created := [], {}, 0;
      ledger := Ledger(map[], {}, 1, true, false);
    }

    /** The context goes away exactly when its owner dropped it and no fence is left. */
    lemma FreedWhenUnused()
      requires Valid()
      ensures ledger.freed <==> !ledger.owned && ledger.refs == map[]
    {
      assert |ledger.refs| == 0 <==> ledger.refs.Keys == {};
    }

    /** The first loop of the trigger: every fence moves to the head of the local list. */
    method TakeAll() returns (local: seq<Fence>)
      modifies `fenceList
      ensures fenceList == [] && |local| == |old(fenceList)| && ReversedPrefix(local, old(fenceList))
    {
      local := [];
      while fenceList != []
        invariant ReversedPrefix(local, old(fenceList)) && fenceList == old(fenceList)[|local|..]
        decreases |fenceList|
      {
        local := [fenceList[0]] + local;
        fenceList := fenceList[1..];
      }
    }

    /** The body of the second loop: a signalled fence loses the reference of the list,
        any other goes back to the head of the context's list. */
    method Settle(fc: Fence)
      requires fc.id in ledger.refs
      modifies `fenceList, `signaled, `ledger
      ensures State() == Settled(old(State()), fc, doneCount)
    {
      if SignaledAt(fc, doneCount) {
        signaled := signaled + {fc.id};
        ledger := Drop(ledger, fc.id);
      } else {
        fenceList := [fc] + fenceList;
      }
    }

    /** The second loop of the trigger. */
    method SettleAll(taken: seq<Fence>, ghost start: Lists)
      requires Consistent(start) && start.ledger.owned && State() == start.(fences := [])
      requires |taken| == |start.fences| && ReversedPrefix(taken, start.fences)
      modifies `fenceList, `signaled, `ledger
      ensures Midway(0, doneCount, start, State()) && LedgerMidway(0, doneCount, start, State())
    {
      hide Unsignaled, SignaledIds, Accounted, Listed, SignaledAt, LedgerMidway, Midway, Settled, Drop, Distinct;
      var local := taken;
      MidwayStart(doneCount, start);
      while local != []
        invariant ReversedPrefix(local, start.fences)
        invariant Midway(|local|, doneCount, start, State())
        invariant LedgerMidway(|local|, doneCount, start, State())
        decreases |local|
      {
        ReversedRest(local, start.fences);
        var fc := local[0];
        local := local[1..];
        LedgerRound(|local|, doneCount, start, State());
        MidwayRound(|local|, doneCount, start, State());
        Settle(fc);
      }
    }

    /** The list becomes its unsignalled fences in their old order, the flags of the
        others are set, and each of those lost one reference. */
    method Trigger()
      requires Valid() && ledger.owned
      modifies `fenceList, `signaled, `ledger
      ensures Valid() && View() == Triggered(old(View()))
      ensures ledger.openFds == old(ledger).openFds && ledger.owned
    {
      if fenceList == [] {
        return;
      }
      var local := TakeAll();
      SettleAll(local, old(State()));
      MidwayEnd(doneCount, old(State()), State());
    }

    method Prepare()
      requires Valid()
      modifies `commitCount
      ensures Valid() && View() == Step(old(View()), FenceTimeline.Prepare)
    {
      commitCount := Wrap(commitCount + 1);
    }

    /** _msm_hyp_fence_create_fd: a fence that could not be given a descriptor leaves no
        trace, one that could is at the end of the list. */
    method CreateFd(val: U32, outcome: FdOutcome) returns (fd: int)
      requires Valid() && ledger.owned
      requires outcome.NoFd? ==> outcome.err < 0
      modifies `fenceList, `created, `ledger
      ensures Valid() && ledger.owned
      ensures fd == (match outcome case Installed => 0 case OutOfMemory => -ENOMEM
                     case NoFd(err) => err case NoSyncFile => -EINVAL)
      ensures State() == if fd >= 0 then Appended(old(State()), val) else old(State())
      ensures fd >= 0 ==> ledger.openFds == old(ledger).openFds + {old(created)}
    {
      if outcome.OutOfMemory? {
        return -ENOMEM;
      }
      ledger := Register(ledger, created);         // dma_fence_init, kref_get
      if !outcome.Installed? {
        RegisterThenDrop(old(ledger), created);
        ledger := Drop(ledger, created);           // dma_fence_put
        return if outcome.NoFd? then outcome.err else -EINVAL;
      }
      ledger := Attach(ledger, created);           // sync_file_create
      fenceList := fenceList + [Fence(created, val)];
      created := created + 1;
      AppendedConsistent(old(State()), val);
      fd := 0;
    }

    method Create(offset: nat, outcome: FdOutcome) returns (rc: int)
      requires Valid() && ledger.owned
      requires outcome.NoFd? ==> outcome.err < 0
      modifies `fenceList, `signaled, `created, `ledger
      ensures Valid()
      ensures rc == (match outcome case Installed => 0 case OutOfMemory => -ENOMEM
                     case NoFd(err) => err case NoSyncFile => -EINVAL)
      ensures rc >= 0 ==> View() == Step(old(View()), FenceTimeline.Create(offset))
      ensures rc >= 0 ==> ledger.openFds == old(ledger).openFds + {old(created)}
      ensures rc < 0 ==> State() == old(State())
    {
      hide Consistent, Unsignaled, SignaledIds, Wrap;
      rc := CreateFd(Wrap(commitCount + offset), outcome);
      if rc >= 0 {
        assert View() == WithFence(old(View()), offset);
        Trigger();
      }
    }

    method Signal()
      requires Valid() && ledger.owned
      modifies `doneCount, `fenceList, `signaled, `ledger
      ensures Valid() && View() == Step(old(View()), FenceTimeline.Signal)
      ensures ledger.openFds == old(ledger).openFds
    {
      if Signed(Wrap(doneCount - commitCount)) < 0 {
        doneCount := Wrap(doneCount + 1);
      }
      assert View() == Counted(old(View()));
      Trigger();
    }

    method CloseFd(id: nat)
      requires Valid() && id in ledger.openFds
      modifies `ledger
      ensures Valid() && ledger.openFds == old(ledger).openFds - {id}
    {
      FilePut(ledger, Ids(fenceList), id);
      DropSize(ledger, id);
      ledger := Drop(ledger, id).(openFds := ledger.openFds - {id});
    }

    method Deinit()
      requires Valid() && ledger.owned
      modifies `ledger
      ensures Valid() && !ledger.owned && ledger.refs == old(ledger).refs && ledger.openFds == old(ledger).openFds
    {
      ledger := ledger.(owned := false, kref := ledger.kref - 1, freed := ledger.kref - 1 == 0);
    }
  }
}
