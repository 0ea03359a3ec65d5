/** The fence timeline of msm_hyp_fence.c: 32-bit counters that wrap, compared by the
    sign of their difference, against the unbounded timeline they stand for. */
module FenceTimeline {

  const TWO31: int := 0x8000_0000
  const TWO32: int := 0x1_0000_0000

  type U32 = x: int | 0 <= x < TWO32

  function Wrap(x: int): U32 {
    x % TWO32
  }

  /** The C conversion (int) of an unsigned 32-bit value. */
  function Signed(x: U32): int {
    if x < TWO31 then x else x - TWO32
  }

  datatype Fence = Fence(id: nat, seqno: U32)

  /** msm_hyp_fence_signaled. */
  predicate SignaledAt(f: Fence, done: U32) {
    Signed(Wrap(f.seqno - done)) <= 0
  }

  /** The fences a trigger keeps, in order. */
  function Unsignaled(fs: seq<Fence>, done: U32): seq<Fence> {
    if fs == [] then [] else
      var f := fs[|fs| - 1];
      Unsignaled(fs[..|fs| - 1], done) + (if SignaledAt(f, done) then [] else [f])
  }

  function SignaledIds(fs: seq<Fence>, done: U32): set<nat> {
    set f | f in fs && SignaledAt(f, done) :: f.id
  }

  // ----- the context as a value -----

  /** The counters, the fence list, and the fences whose signalled flag is set. */
  datatype Ctx = Ctx(commit: U32, done: U32, fences: seq<Fence>, signaled: set<nat>, created: nat)

  datatype Op = Prepare | Create(offset: nat) | Signal

  const Fresh := Ctx(0, 0, [], {}, 0)

  function Triggered(c: Ctx): Ctx {
    c.(fences := Unsignaled(c.fences, c.done), signaled := c.signaled + SignaledIds(c.fences, c.done))
  }

  /** msm_hyp_fence_signal under the lock: a signal is counted while done trails commit. */
  function Counted(c: Ctx): Ctx {
    if Signed(Wrap(c.done - c.commit)) < 0 then c.(done := Wrap(c.done + 1)) else c
  }

  function WithFence(c: Ctx, offset: nat): Ctx {
    c.(fences := c.fences + [Fence(c.created, Wrap(c.commit + offset))], created := c.created + 1)
  }

  function Step(c: Ctx, op: Op): Ctx {
    match op
    case Prepare => c.(commit := Wrap(c.commit + 1))
    case Create(offset) =>
      Triggered(WithFence(c, offset))
    case Signal =>
      Triggered(Counted(c))
  }

  function Exec(c: Ctx, ops: seq<Op>): Ctx {
    if ops == [] then c else Step(Exec(c, ops[..|ops| - 1]), ops[|ops| - 1])
  }

  // ----- the unbounded timeline -----

  /** commits prepared, signals counted, and the point of every fence ever created. */
  datatype Timeline = Timeline(commits: nat, done: nat, points: seq<nat>)

  function Advance(t: Timeline, op: Op): Timeline {
    match op
    case Prepare => t.(commits := t.commits + 1)
    case Create(offset) => t.(points := t.points + [t.commits + offset])
    case Signal => if t.done < t.commits then t.(done := t.done + 1) else t
  }

  function History(ops: seq<Op>): Timeline {
    if ops == [] then Timeline(0, 0, []) else Advance(History(ops[..|ops| - 1]), ops[|ops| - 1])
  }

  /** The places of the operations of one kind. */
  ghost function Places(ops: seq<Op>, kind: Op -> bool): set<nat> {
    set k: nat | k < |ops| && kind(ops[k])
  }

  /** What the timeline counts: a commit for every prepare, a fence for every creation, and never
      more signals than there were. */
  lemma {:induction false} HistoryCounts(ops: seq<Op>)
    ensures History(ops).commits == |Places(ops, (op: Op) => op.Prepare?)|
    ensures |History(ops).points| == |Places(ops, (op: Op) => op.Create?)|
    ensures History(ops).done <= |Places(ops, (op: Op) => op.Signal?)|
  {
    if ops != [] {
      HistoryCounts(ops[..|ops| - 1]);
      LastPlace(ops, (op: Op) => op.Prepare?);
      LastPlace(ops, (op: Op) => op.Create?);
      LastPlace(ops, (op: Op) => op.Signal?);
      hide Places;
    }
  }

  lemma LastPlace(ops: seq<Op>, kind: Op -> bool)
    requires ops != []
    ensures |Places(ops, kind)| == |Places(ops[..|ops| - 1], kind)| + if kind(ops[|ops| - 1]) then 1 else 0
  {
    var n, front := |ops| - 1, ops[..|ops| - 1];
    forall k: nat ensures k in Places(ops, kind) <==> k in Places(front, kind) || (k == n && kind(ops[n])) {
      if k < n { assert front[k] == ops[k]; }
    }
    assert Places(ops, kind) == Places(front, kind) + if kind(ops[n]) then {n} else {};
  }

  /** Fewer than 2^31 - 1 prepared commits are waiting for their signal. */
  predicate InWindow(t: Timeline) {
    t.commits - t.done < TWO31 - 1
  }

  /** Every operation starts and ends inside the window and creates retire (0) or
      output (1) fences. */
  ghost predicate Driven(ops: seq<Op>) {
    && (forall k :: 0 <= k <= |ops| ==> InWindow(History(ops[..k])))
    && (forall k :: 0 <= k < |ops| && ops[k].Create? ==> ops[k].offset <= 1)
  }

  /** The first n fences that lie beyond the given point, in creation order. */
  function Beyond(points: seq<nat>, n: nat, done: nat): seq<Fence>
    requires n <= |points|
  {
    if n == 0 then [] else
      Beyond(points, n - 1, done) + (if points[n - 1] > done then [Fence(n - 1, Wrap(points[n - 1]))] else [])
  }

  ghost predicate Refines(c: Ctx, t: Timeline) {
    && t.done <= t.commits
    && c.commit == Wrap(t.commits) && c.done == Wrap(t.done)
    && c.created == |t.points|
    && c.fences == Beyond(t.points, |t.points|, t.done)
    && (forall i: nat :: i in c.signaled <==> i < |t.points| && t.points[i] <= t.done)
    && (forall i :: 0 <= i < |t.points| ==> t.points[i] <= t.commits + 1)
  }

  // ----- modular arithmetic -----

  lemma WrapCases(d: int)
    requires -TWO32 <= d < TWO32
    ensures Wrap(d) == if d < 0 then d + TWO32 else d
  {}

  lemma WrapDiff(x: int, y: int)
    ensures Wrap(Wrap(x) - Wrap(y)) == Wrap(x - y)
  {
    var kx, ky := x / TWO32, y / TWO32;
    assert Wrap(x) - Wrap(y) == (x - y) + (ky - kx) * TWO32;
    WrapShift(x - y, ky - kx);
  }

  lemma WrapSum(x: int, y: int)
    ensures Wrap(Wrap(x) + y) == Wrap(x + y)
  {
    assert Wrap(x) + y == (x + y) + (-(x / TWO32)) * TWO32;
    WrapShift(x + y, -(x / TWO32));
  }

  lemma WrapShift(x: int, k: int)
    ensures Wrap(x + k * TWO32) == Wrap(x)
  {
    var q, r := x / TWO32, x % TWO32;
    assert x + k * TWO32 == (q + k) * TWO32 + r;
    QuotientIsUnique(x + k * TWO32, q + k, r);
  }

  lemma QuotientIsUnique(x: int, q: int, r: int)
    requires x == q * TWO32 + r && 0 <= r < TWO32
    ensures x % TWO32 == r
  {}

  /** The signed difference is the true difference exactly inside the signed window. */
  lemma SignedDifferenceIsExact(d: int)
    ensures Signed(Wrap(d)) == d <==> -TWO31 <= d < TWO31
  {
    if -TWO31 <= d < TWO31 { WrapCases(d); }
  }

  /** Inside the window the wrapped test answers whether the point was reached. */
  lemma SignaledInWindow(i: nat, point: nat, done: nat)
    requires -TWO31 <= point - done < TWO31
    ensures SignaledAt(Fence(i, Wrap(point)), Wrap(done)) <==> point <= done
  {
    WrapDiff(point, done);
    SignedDifferenceIsExact(point - done);
  }

  /** One step further on either side the test gives the wrong answer. */
  lemma WindowIsTight(i: nat, done: nat)
    ensures SignaledAt(Fence(i, Wrap(done + TWO31)), Wrap(done))
    ensures !SignaledAt(Fence(i, Wrap(done)), Wrap(done + TWO31 + 1))
  {
    WrapDiff(done + TWO31, done);
    WrapCases(TWO31);
    WrapDiff(done, done + TWO31 + 1);
    WrapCases(-TWO31 - 1);
  }

  // ----- the list kept by a trigger -----

  lemma {:induction false} UnsignaledConcat(a: seq<Fence>, b: seq<Fence>, done: U32)
    ensures Unsignaled(a + b, done) == Unsignaled(a, done) + Unsignaled(b, done)
  {
    if b == [] {
      assert a + b == a;
    } else {
      assert (a + b)[..|a + b| - 1] == a + b[..|b| - 1];
      UnsignaledConcat(a, b[..|b| - 1], done);
    }
  }

  lemma {:induction false} BeyondFiltered(points: seq<nat>, n: nat, done: nat, done': nat)
    requires n <= |points| && done <= done'
    requires forall i :: 0 <= i < n && points[i] > done ==> -TWO31 <= points[i] - done' < TWO31
    ensures Unsignaled(Beyond(points, n, done), Wrap(done')) == Beyond(points, n, done')
  {
    if n > 0 {
      BeyondFiltered(points, n - 1, done, done');
      if points[n - 1] > done {
        var rest, f := Beyond(points, n - 1, done), Fence(n - 1, Wrap(points[n - 1]));
        SignaledInWindow(n - 1, points[n - 1], done');
        assert (rest + [f])[..|rest|] == rest;
      } else {
        assert Beyond(points, n, done) == Beyond(points, n - 1, done);
        assert Beyond(points, n, done') == Beyond(points, n - 1, done');
      }
    }
  }

  lemma {:induction false} BeyondMembers(points: seq<nat>, n: nat, done: nat, f: Fence)
    requires n <= |points|
    ensures f in Beyond(points, n, done) <==> f.id < n && points[f.id] > done && f.seqno == Wrap(points[f.id])
  {
    if n > 0 {
      BeyondMembers(points, n - 1, done, f);
    }
  }

  lemma {:induction false} BeyondExtended(points: seq<nat>, p: nat, n: nat, done: nat)
    requires n <= |points|
    ensures Beyond(points + [p], n, done) == Beyond(points, n, done)
  {
    if n > 0 { BeyondExtended(points, p, n - 1, done); }
  }

  // ----- one operation -----

  /** A trigger brings list and flags up to date with a done counter that moved on. */
  lemma TriggerRefines(c: Ctx, t: Timeline, done: nat)
    requires Refines(c.(done := Wrap(t.done)), t)
    requires c.done == Wrap(done) && t.done <= done <= t.commits && done <= t.done + 1
    requires InWindow(t)
    ensures Refines(Triggered(c), t.(done := done))
  {
    var t' := t.(done := done);
    BeyondFiltered(t.points, |t.points|, t.done, done);
    forall i: nat
      ensures i in Triggered(c).signaled <==> i < |t.points| && t.points[i] <= done
    {
      if i in SignaledIds(c.fences, c.done) {
        var f :| f in c.fences && SignaledAt(f, c.done) && f.id == i;
        BeyondMembers(t.points, |t.points|, t.done, f);
        SignaledInWindow(i, t.points[i], done);
      }
      if i < |t.points| && t.done < t.points[i] <= done {
        var f := Fence(i, Wrap(t.points[i]));
        BeyondMembers(t.points, |t.points|, t.done, f);
        SignaledInWindow(i, t.points[i], done);
        assert f in c.fences && SignaledAt(f, c.done);
      }
    }
  }

  lemma SignalCounts(c: Ctx, t: Timeline)
    requires Refines(c, t) && InWindow(t)
    ensures Signed(Wrap(c.done - c.commit)) < 0 <==> t.done < t.commits
  {
    WrapDiff(t.done, t.commits);
    SignedDifferenceIsExact(t.done - t.commits);
  }

  /** The new fence alone: it is signalled at once exactly if its point was reached. */
  lemma NewFenceStatus(c: Ctx, t: Timeline, f: Fence, p: nat)
    requires Refines(c, t) && InWindow(t)
    requires t.commits <= p <= t.commits + 1 && f == Fence(|t.points|, Wrap(p))
    ensures forall i: nat :: i in SignaledIds(c.fences + [f], c.done) <==> i == |t.points| && p <= t.done
  {
    SignaledInWindow(|t.points|, p, t.done);
    forall g | g in c.fences ensures !SignaledAt(g, c.done) {
      BeyondMembers(t.points, |t.points|, t.done, g);
      SignaledInWindow(g.id, t.points[g.id], t.done);
    }
    if p <= t.done {
      assert f in c.fences + [f] && SignaledAt(f, c.done);
    }
  }

  lemma NewFenceListed(c: Ctx, t: Timeline, f: Fence, p: nat)
    requires Refines(c, t) && InWindow(t)
    requires t.commits <= p <= t.commits + 1 && f == Fence(|t.points|, Wrap(p))
    ensures Unsignaled(c.fences + [f], c.done) == Beyond(t.points + [p], |t.points| + 1, t.done)
  {
    BeyondExtended(t.points, p, |t.points|, t.done);
    BeyondFiltered(t.points, |t.points|, t.done, t.done);
    SignaledInWindow(|t.points|, p, t.done);
    UnsignaledConcat(c.fences, [f], c.done);
    assert [f][..0] == [];
    assert Unsignaled([f], c.done) == if SignaledAt(f, c.done) then [] else [f];
  }

  /** A new fence is put at the end of the list; one whose point was already reached
      leaves it again in the trigger that follows. */
  lemma CreateRefines(c: Ctx, t: Timeline, offset: nat)
    requires Refines(c, t) && InWindow(t) && offset <= 1
    ensures Refines(Step(c, Create(offset)), Advance(t, Create(offset)))
  {
    hide Wrap, Unsignaled, Beyond, SignaledIds;
    var p := t.commits + offset;
    WrapSum(t.commits, offset);
    var f := Fence(c.created, Wrap(c.commit + offset));
    NewFenceStatus(c, t, f, p);
    NewFenceListed(c, t, f, p);
    var c', t' := Step(c, Create(offset)), Advance(t, Create(offset));
    assert t'.points == t.points + [p];
    assert c' == Ctx(c.commit, c.done, Unsignaled(c.fences + [f], c.done),
                     c.signaled + SignaledIds(c.fences + [f], c.done), c.created + 1);
  }

  lemma SignalRefines(c: Ctx, t: Timeline)
    requires Refines(c, t) && InWindow(t)
    ensures Refines(Step(c, Signal), Advance(t, Signal))
  {
    hide Refines, Triggered;
    SignalCounts(c, t);
    if t.done < t.commits {
      var next := c.(done := Wrap(c.done + 1));
      assert next.done == Wrap(t.done + 1) && Refines(next.(done := Wrap(t.done)), t) by { DoneWraps(c, t); }
      TriggerRefines(next, t, t.done + 1);
    } else {
      assert c.done == Wrap(t.done) && t.done == t.commits && c.(done := Wrap(t.done)) == c by { DoneWraps(c, t); }
      TriggerRefines(c, t, t.done);
      assert t.(done := t.done) == t;
    }
  }

  lemma DoneWraps(c: Ctx, t: Timeline)
    requires Refines(c, t)
    ensures c.done == Wrap(t.done) && t.done <= t.commits && Wrap(c.done + 1) == Wrap(t.done + 1)
    ensures c.(done := Wrap(c.done + 1)).(done := Wrap(t.done)) == c
  {
    WrapSum(t.done, 1);
  }

  lemma StepRefines(c: Ctx, t: Timeline, op: Op)
    requires Refines(c, t) && InWindow(t)
    requires op.Create? ==> op.offset <= 1
    ensures Refines(Step(c, op), Advance(t, op))
  {
    match op
    case Prepare => WrapSum(t.commits, 1);
    case Create(offset) => CreateRefines(c, t, offset);
    case Signal => SignalRefines(c, t);
  }

  // ----- runs -----

  /** The wrapping context refines the unbounded timeline over every run that keeps
      fewer than 2^31 - 1 commits waiting, however long it is. */
  lemma {:induction false} RunsRefine(ops: seq<Op>)
    requires Driven(ops)
    ensures Refines(Exec(Fresh, ops), History(ops))
  {
    if ops != [] {
      var front := ops[..|ops| - 1];
      assert forall k :: 0 <= k <= |front| ==> ops[..k] == front[..k];
      RunsRefine(front);
      assert front[..|front|] == front;
      StepRefines(Exec(Fresh, front), History(front), ops[|ops| - 1]);
    }
  }

  /** The fence created by operation k lies at the number of commits prepared before it
      plus its offset, and is signalled exactly when that many signals were counted:
      the retire fence (offset 0) of the n-th commit at n signals, its output fence
      (offset 1) one signal later.  It is on the list exactly until then. */
  lemma FenceSignalledAtItsPoint(ops: seq<Op>, k: nat)
    requires Driven(ops) && k < |ops| && ops[k].Create?
    ensures var c, n := Exec(Fresh, ops), History(ops[..k]).commits + ops[k].offset;
      var id := |History(ops[..k]).points|;
      && (id in c.signaled <==> n <= History(ops).done)
      && (Fence(id, Wrap(n)) in c.fences <==> History(ops).done < n)
  {
    RunsRefine(ops);
    RefinedFenceStatus(ops, k);
  }

  lemma RefinedFenceStatus(ops: seq<Op>, k: nat)
    requires Refines(Exec(Fresh, ops), History(ops)) && k < |ops| && ops[k].Create?
    ensures var c, n := Exec(Fresh, ops), History(ops[..k]).commits + ops[k].offset;
      var id := |History(ops[..k]).points|;
      && (id in c.signaled <==> n <= History(ops).done)
      && (Fence(id, Wrap(n)) in c.fences <==> History(ops).done < n)
  {
    PointOfFence(ops, k);
    FenceStatus(Exec(Fresh, ops), History(ops), |History(ops[..k]).points|);
  }

  lemma FenceStatus(c: Ctx, t: Timeline, id: nat)
    requires Refines(c, t) && id < |t.points|
    ensures id in c.signaled <==> t.points[id] <= t.done
    ensures Fence(id, Wrap(t.points[id])) in c.fences <==> t.done < t.points[id]
  {
    BeyondMembers(t.points, |t.points|, t.done, Fence(id, Wrap(t.points[id])));
  }

  lemma PointOfFence(ops: seq<Op>, k: nat)
    requires k < |ops| && ops[k].Create?
    ensures var id := |History(ops[..k]).points|;
      id < |History(ops).points| && History(ops).points[id] == History(ops[..k]).commits + ops[k].offset
  {
    PointsGrow(ops, k + 1);
    assert ops[..k + 1][..k] == ops[..k];
  }

  lemma {:induction false} PointsGrow(ops: seq<Op>, k: nat)
    requires k <= |ops|
    ensures History(ops[..k]).points <= History(ops).points
    ensures History(ops[..k]).done <= History(ops).done
  {
    if k == |ops| {
      assert ops[..k] == ops;
    } else {
      var front := ops[..|ops| - 1];
      PointsGrow(front, k);
      assert front[..k] == ops[..k];
    }
  }

  /** In the driver's own 32 bits: the distance from done to commit is the number of commits
      that wait, the signed test agrees, and a signal with none waiting counts nothing. */
  lemma DoneNeverPassesCommit(ops: seq<Op>)
    requires Driven(ops)
    ensures var c, t := Exec(Fresh, ops), History(ops);
      && Wrap(c.commit - c.done) == t.commits - t.done
      && (Signed(Wrap(c.done - c.commit)) < 0 <==> t.done < t.commits)
      && Signed(Wrap(c.done - c.commit)) <= 0
      && (Exec(Fresh, ops + [Signal]).done != c.done <==> c.done != c.commit)
  {
    hide Refines, Wrap, Signed, History, Step, Exec, Driven, InWindow;
    RunsRefine(ops);
    DrivenEnd(ops);
    CountersAgree(Exec(Fresh, ops), History(ops));
    OneMore(ops, Signal);
  }

  lemma DrivenEnd(ops: seq<Op>)
    requires Driven(ops)
    ensures InWindow(History(ops))
  {
    assert ops[..|ops|] == ops;
  }

  lemma OneMore(ops: seq<Op>, op: Op)
    ensures Exec(Fresh, ops + [op]) == Step(Exec(Fresh, ops), op)
  {
    assert (ops + [op])[..|ops|] == ops;
  }

  lemma CountersAgree(c: Ctx, t: Timeline)
    requires Refines(c, t) && InWindow(t)
    ensures Wrap(c.commit - c.done) == t.commits - t.done
    ensures Signed(Wrap(c.done - c.commit)) < 0 <==> t.done < t.commits
    ensures Signed(Wrap(c.done - c.commit)) <= 0
    ensures Step(c, Signal).done != c.done <==> c.done != c.commit
  {
    var d := t.commits - t.done;
    WrapDiff(t.commits, t.done);
    WrapDiff(t.done, t.commits);
    WrapSmall(d);
    SignedDifferenceIsExact(-d);
    hide Wrap, Signed;
    assert Wrap(c.commit - c.done) == d;
    assert Signed(Wrap(c.done - c.commit)) == -d;
    if c.done == c.commit { SameDifference(c.done); }
    NextDiffers(c.done);
    assert Step(c, Signal).done == Counted(c).done;
  }

  lemma SameDifference(x: U32)
    ensures Wrap(x - x) == 0
  {
  }

  lemma WrapSmall(d: int)
    requires 0 <= d < TWO32
    ensures Wrap(d) == d
  {
  }

  lemma NextDiffers(x: U32)
    ensures Wrap(x + 1) != x
  {
    if x + 1 < TWO32 { WrapSmall(x + 1); }
  }

  /** What a fence answers: its flag is set, or the signed test of the counters says so. */
  predicate Reports(c: Ctx, f: Fence) {
    f.id in c.signaled || SignaledAt(f, c.done)
  }

  /** The signed test alone, at any distance: it is true up to 2^31 signals past the point,
      false for the next 2^31 - 1, and so on. */
  lemma SignedTestExactly(id: nat, p: int, done: int)
    ensures SignaledAt(Fence(id, Wrap(p)), Wrap(done)) <==> Wrap(done - p) <= TWO31
  {
    WrapDiff(p, done);
    Negated(done - p);
  }

  lemma Negated(d: int)
    ensures Signed(Wrap(-d)) <= 0 <==> Wrap(d) <= TWO31
  {
    var e: int := Wrap(d);
    WrapShift(-d, d / TWO32);
    assert -d + (d / TWO32) * TWO32 == -e;
    WrapCases(-e);
  }

  /** Every fence of the context, whatever becomes of the counters: it reports signalled exactly
      when its point was counted, and keeps doing so over all further driven operations, since
      its flag was set before the test could forget. */
  lemma SignalledStaysSignalled(ops: seq<Op>, more: seq<Op>, id: nat)
    requires Driven(ops + more) && id < |History(ops).points|
    ensures Driven(ops) && id < |History(ops + more).points|
    ensures History(ops + more).points[id] == History(ops).points[id]
    ensures var f := Fence(id, Wrap(History(ops).points[id]));
      && (Reports(Exec(Fresh, ops), f) <==> History(ops).points[id] <= History(ops).done)
      && (Reports(Exec(Fresh, ops), f) ==> Reports(Exec(Fresh, ops + more), f))
  {
    DrivenPrefix(ops, more);
    PointsGrow(ops + more, |ops|);
    assert (ops + more)[..|ops|] == ops;
    assert (ops + more)[..|ops + more|] == ops + more;
    RunsRefine(ops);
    RunsRefine(ops + more);
    assert ops[..|ops|] == ops;
    ReportsAtPoint(Exec(Fresh, ops), History(ops), id);
    ReportsAtPoint(Exec(Fresh, ops + more), History(ops + more), id);
  }

  lemma DrivenPrefix(ops: seq<Op>, more: seq<Op>)
    requires Driven(ops + more)
    ensures Driven(ops)
  {
    var all := ops + more;
    forall k | 0 <= k <= |ops| ensures InWindow(History(ops[..k])) {
      assert all[..k] == ops[..k];
    }
    forall k | 0 <= k < |ops| && ops[k].Create? ensures ops[k].offset <= 1 {
      assert all[k] == ops[k];
    }
  }

  lemma ReportsAtPoint(c: Ctx, t: Timeline, id: nat)
    requires Refines(c, t) && InWindow(t) && id < |t.points|
    ensures Reports(c, Fence(id, Wrap(t.points[id]))) <==> t.points[id] <= t.done
  {
    if t.points[id] > t.done { SignaledInWindow(id, t.points[id], t.done); }
  }
}
