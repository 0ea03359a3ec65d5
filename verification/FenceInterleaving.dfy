/** Triggers of one fence context running beside the creation of fences and beside each
    other.  The list lock makes taking the whole list, putting one fence back and
    appending one fence atomic; everything between is open. */
module FenceInterleaving {
  import opened FenceTimeline
  import opened FenceLists

  /** The context list, the local list of every running trigger, the fences whose test
      answers signalled, and the fences that lost their list reference, oldest first. */
  datatype State = State(list: seq<Fence>, locals: seq<seq<Fence>>, reached: set<nat>, dropped: seq<Fence>)

  datatype Move =
    | Grab(t: nat)          // list_move of every fence to the local list of trigger t
    | Settle(t: nat)        // trigger t handles the first fence of its local list
    | Append(f: Fence)      // a fence is created
    | Reach(ids: set<nat>)  // the done counter moves on

  function ReverseOnto(fs: seq<Fence>, local: seq<Fence>): seq<Fence> {
    if fs == [] then local else ReverseOnto(fs[1..], [fs[0]] + local)
  }

  predicate Enabled(s: State, m: Move) {
    match m
    case Grab(t) => t < |s.locals| && s.locals[t] == []
    case Settle(t) => t < |s.locals| && s.locals[t] != []
    case _ => true
  }

  function Apply(s: State, m: Move): State
    requires Enabled(s, m)
  {
    match m
    case Grab(t) => s.(list := [], locals := s.locals[t := ReverseOnto(s.list, [])])
    case Settle(t) =>
      var f := s.locals[t][0];
      var s' := s.(locals := s.locals[t := s.locals[t][1..]]);
      if f.id in s.reached then s'.(dropped := s.dropped + [f]) else s'.(list := [f] + s.list)
    case Append(f) => s.(list := s.list + [f])
    case Reach(ids) => s.(reached := s.reached + ids)
  }

  predicate ValidRun(s: State, ms: seq<Move>)
    decreases |ms|
  {
    ms == [] || (Enabled(s, ms[0]) && ValidRun(Apply(s, ms[0]), ms[1..]))
  }

  function Exec(s: State, ms: seq<Move>): State
    requires ValidRun(s, ms)
    decreases |ms|
  {
    if ms == [] then s else Exec(Apply(s, ms[0]), ms[1..])
  }

  /** The fences a run creates, in order. */
  function Created(ms: seq<Move>): seq<Fence> {
    if ms == [] then [] else (if ms[0].Append? then [ms[0].f] else []) + Created(ms[1..])
  }

  /** The fences whose ids are in keep, in order. */
  function Select(fs: seq<Fence>, keep: set<nat>): seq<Fence> {
    if fs == [] then [] else (if fs[0].id in keep then [fs[0]] else []) + Select(fs[1..], keep)
  }

  // ----- one trigger beside other activity -----

  lemma {:induction false} ReverseOntoAt(fs: seq<Fence>, local: seq<Fence>)
    ensures |ReverseOnto(fs, local)| == |fs| + |local|
    ensures forall j :: 0 <= j < |fs| ==> ReverseOnto(fs, local)[j] == fs[|fs| - 1 - j]
    ensures ReverseOnto(fs, local)[|fs|..] == local
  {
    if fs != [] {
      var r := ReverseOnto(fs[1..], [fs[0]] + local);
      ReverseOntoAt(fs[1..], [fs[0]] + local);
      assert r[|fs| - 1] == r[|fs| - 1..][0];
      assert r[|fs|..] == r[|fs| - 1..][1..];
    }
  }

  lemma {:induction false} SelectIgnores(fs: seq<Fence>, keep: set<nat>, id: nat)
    requires forall f :: f in fs ==> f.id != id
    ensures Select(fs, keep + {id}) == Select(fs, keep)
  {
    if fs != [] {
      assert fs[0] in fs;
      SelectIgnores(fs[1..], keep, id);
    }
  }

  /** A trigger that took all and has still the oldest n to look at; the fences it put
      back are those in keep, and others were appended behind them. */
  ghost predicate Pending(s: State, all: seq<Fence>, n: nat, keep: set<nat>, tail: seq<Fence>, start: set<nat>) {
    && |s.locals| == 1 && n <= |all| && |s.locals[0]| == n && ReversedPrefix(s.locals[0], all)
    && s.list == Select(all[n..], keep) + tail
    && start <= s.reached
    && (forall i :: n <= i < |all| ==>
          (all[i].id in keep ==> all[i].id !in start) && (all[i].id !in keep ==> all[i].id in s.reached))
    && (forall i :: 0 <= i < n ==> all[i].id !in keep)
  }

  lemma SettleOne(s: State, all: seq<Fence>, n: nat, keep: set<nat>, tail: seq<Fence>, start: set<nat>)
    returns (keep': set<nat>)
    requires Distinct(all) && 0 < n && Pending(s, all, n, keep, tail, start)
    ensures Pending(Apply(s, Settle(0)), all, n - 1, keep', tail, start)
  {
    var f := all[n - 1];
    ReversedRest(s.locals[0], all);
    assert all[n - 1..] == [f] + all[n..];
    if f.id in s.reached {
      keep' := keep;
    } else {
      keep' := keep + {f.id};
      forall g | g in all[n..] ensures g.id != f.id {}
      SelectIgnores(all[n..], keep, f.id);
    }
  }

  lemma PendingStep(s: State, m: Move, all: seq<Fence>, n: nat, keep: set<nat>, tail: seq<Fence>, start: set<nat>)
    returns (n': nat, keep': set<nat>)
    requires Distinct(all) && Pending(s, all, n, keep, tail, start) && Enabled(s, m) && !m.Grab?
    ensures Pending(Apply(s, m), all, n', keep', tail + (if m.Append? then [m.f] else []), start)
  {
    n', keep' := n, keep;
    match m {
      case Settle(t) =>
        keep' := SettleOne(s, all, n, keep, tail, start);
        n' := n - 1;
        assert tail + [] == tail;
      case Append(f) =>
        assert s.list + [f] == Select(all[n..], keep) + (tail + [f]);
      case Reach(ids) =>
        assert tail + [] == tail;
    }
  }

  lemma NothingPending(s: State, all: seq<Fence>, n: nat, keep: set<nat>, tail: seq<Fence>, start: set<nat>)
    requires Pending(s, all, n, keep, tail, start) && s.locals == [[]]
    ensures n == 0
  {
    assert |s.locals[0]| == 0;
  }

  lemma {:induction false} FinishTrigger(s: State, ms: seq<Move>, all: seq<Fence>, n: nat, keep: set<nat>,
                                         tail: seq<Fence>, start: set<nat>) returns (keep': set<nat>)
    requires Distinct(all) && Pending(s, all, n, keep, tail, start) && ValidRun(s, ms)
    requires forall k :: 0 <= k < |ms| ==> !ms[k].Grab?
    requires Exec(s, ms).locals == [[]]
    ensures Pending(Exec(s, ms), all, 0, keep', tail + Created(ms), start)
    decreases |ms|
  {
    hide Pending, Apply, Enabled, Distinct;
    if ms == [] {
      keep' := keep;
      NothingPending(s, all, n, keep, tail, start);
      assert tail + Created(ms) == tail;
    } else {
      var made := if ms[0].Append? then [ms[0].f] else [];
      var n', mid := PendingStep(s, ms[0], all, n, keep, tail, start);
      keep' := FinishTrigger(Apply(s, ms[0]), ms[1..], all, n', mid, tail + made, start);
      assert tail + made + Created(ms[1..]) == tail + Created(ms);
    }
  }

  /** A trigger that runs to its end, beside fences being created and the counter moving
      on, leaves the fences it kept in creation order, followed by the new ones.  It keeps
      none that was signalled when it began and drops none that is unsignalled at the end. */
  lemma TriggerKeepsCreationOrder(s: State, ms: seq<Move>) returns (keep: set<nat>)
    requires Distinct(s.list) && s.locals == [[]]
    requires ValidRun(s, [Grab(0)] + ms) && forall k :: 0 <= k < |ms| ==> !ms[k].Grab?
    requires Exec(s, [Grab(0)] + ms).locals == [[]]
    ensures var s' := Exec(s, [Grab(0)] + ms);
      && s'.list == Select(s.list, keep) + Created(ms)
      && forall f :: f in s.list ==>
           (f.id in keep ==> f.id !in s.reached) && (f.id !in keep ==> f.id in s'.reached)
  {
    var s1 := Apply(s, Grab(0));
    assert ([Grab(0)] + ms)[1..] == ms;
    ReverseOntoAt(s.list, []);
    assert s.list[|s.list|..] == [];
    keep := FinishTrigger(s1, ms, s.list, |s.list|, {}, [], s.reached);
    assert s.list[0..] == s.list;
    assert [] + Created(ms) == Created(ms);
  }

  predicate OnlySettles(ms: seq<Move>) {
    forall k :: 0 <= k < |ms| ==> ms[k] == Settle(0)
  }

  lemma {:induction false} SettlingIsQuiet(s: State, ms: seq<Move>)
    requires ValidRun(s, ms) && OnlySettles(ms)
    ensures Exec(s, ms).reached == s.reached && Created(ms) == []
    decreases |ms|
  {
    if ms != [] {
      assert ms[0] == Settle(0);
      SettlingIsQuiet(Apply(s, ms[0]), ms[1..]);
    }
  }

  /** A trigger that runs from its first to its last step with nothing beside it leaves
      exactly the unsignalled fences, in their order. */
  lemma QuietTriggerIsExact(s: State, ms: seq<Move>)
    requires Distinct(s.list) && s.locals == [[]] && OnlySettles(ms)
    requires ValidRun(s, [Grab(0)] + ms) && Exec(s, [Grab(0)] + ms).locals == [[]]
    ensures Exec(s, [Grab(0)] + ms).list == Select(s.list, (set f | f in s.list :: f.id) - s.reached)
  {
    assert ([Grab(0)] + ms)[1..] == ms;
    assert forall k :: 0 <= k < |ms| ==> ms[k] == Settle(0);
    var keep := TriggerKeepsCreationOrder(s, ms);
    SettlingIsQuiet(Apply(s, Grab(0)), ms);
    SelectAgrees(s.list, keep, (set f | f in s.list :: f.id) - s.reached);
    assert Select(s.list, keep) + [] == Select(s.list, keep);
  }

  lemma {:induction false} SelectAgrees(fs: seq<Fence>, a: set<nat>, b: set<nat>)
    requires forall f :: f in fs ==> (f.id in a <==> f.id in b)
    ensures Select(fs, a) == Select(fs, b)
  {
    if fs != [] {
      assert fs[0] in fs;
      SelectAgrees(fs[1..], a, b);
    }
  }

  // ----- any number of triggers -----

  ghost function OnLocals(locals: seq<seq<Fence>>): multiset<Fence> {
    if locals == [] then multiset{} else multiset(locals[0]) + OnLocals(locals[1..])
  }

  ghost function Everywhere(s: State): multiset<Fence> {
    multiset(s.list) + OnLocals(s.locals) + multiset(s.dropped)
  }

  lemma {:induction false} OnLocalsUpdate(locals: seq<seq<Fence>>, t: nat, l: seq<Fence>)
    requires t < |locals|
    ensures OnLocals(locals[t := l]) + multiset(locals[t]) == OnLocals(locals) + multiset(l)
  {
    if t == 0 {
      assert locals[t := l][1..] == locals[1..];
    } else {
      var up := locals[t := l];
      assert up[1..] == locals[1..][t - 1 := l] && up[0] == locals[0];
      OnLocalsUpdate(locals[1..], t - 1, l);
      assert locals[1..][t - 1] == locals[t];
      var head, was, now := multiset(locals[0]), OnLocals(locals[1..]), OnLocals(up[1..]);
      assert (head + now) + multiset(locals[t]) == head + (now + multiset(locals[t]));
      assert (head + was) + multiset(l) == head + (was + multiset(l));
    }
  }

  lemma {:induction false} ReverseOntoKeeps(fs: seq<Fence>, local: seq<Fence>)
    ensures multiset(ReverseOnto(fs, local)) == multiset(fs) + multiset(local)
  {
    if fs != [] {
      ReverseOntoKeeps(fs[1..], [fs[0]] + local);
      assert fs == [fs[0]] + fs[1..];
    }
  }

  lemma GrabConserves(s: State, t: nat)
    requires Enabled(s, Grab(t))
    ensures Everywhere(Apply(s, Grab(t))) == Everywhere(s)
  {
    OnLocalsUpdate(s.locals, t, ReverseOnto(s.list, []));
    ReverseOntoKeeps(s.list, []);
    var was, now, taken := OnLocals(s.locals), OnLocals(Apply(s, Grab(t)).locals), multiset(s.list);
    assert multiset(s.locals[t]) == multiset{} && multiset(ReverseOnto(s.list, [])) == taken;
    assert now + multiset{} == was + taken;
    assert now == was + taken;
  }

  lemma FirstLeavesLocal(locals: seq<seq<Fence>>, t: nat)
    requires t < |locals| && locals[t] != []
    ensures OnLocals(locals[t := locals[t][1..]]) + multiset{locals[t][0]} == OnLocals(locals)
  {
    var f, rest := locals[t][0], locals[t][1..];
    assert locals[t] == [f] + rest;
    OnLocalsUpdate(locals, t, rest);
    var was, now := OnLocals(locals), OnLocals(locals[t := rest]);
    forall g ensures (now + multiset{f})[g] == was[g] {
      assert (now + multiset(locals[t]))[g] == (was + multiset(rest))[g];
    }
  }

  lemma SettleConserves(s: State, t: nat)
    requires Enabled(s, Settle(t))
    ensures Everywhere(Apply(s, Settle(t))) == Everywhere(s)
  {
    FirstLeavesLocal(s.locals, t);
  }

  lemma MoveConserves(s: State, m: Move)
    requires Enabled(s, m)
    ensures Everywhere(Apply(s, m)) == Everywhere(s) + (if m.Append? then multiset{m.f} else multiset{})
  {
    match m
    case Grab(t) => GrabConserves(s, t);
    case Settle(t) => SettleConserves(s, t);
    case Append(f) =>
    case Reach(ids) =>
  }

  /** However many triggers overlap, no fence is lost, doubled, or dropped twice. */
  lemma {:induction false} OverlappingTriggersConserve(s: State, ms: seq<Move>)
    requires ValidRun(s, ms)
    ensures Everywhere(Exec(s, ms)) == Everywhere(s) + multiset(Created(ms))
    decreases |ms|
  {
    if ms != [] {
      MoveConserves(s, ms[0]);
      OverlappingTriggersConserve(Apply(s, ms[0]), ms[1..]);
      assert Created(ms) == (if ms[0].Append? then [ms[0].f] else []) + Created(ms[1..]);
    }
  }

  // ----- when the order is kept -----

  /** at gives the places of the fences of a in the order of creation. */
  ghost predicate Placed(a: seq<Fence>, order: seq<Fence>, at: seq<nat>) {
    && |at| == |a|
    && (forall k :: 0 <= k < |at| ==> at[k] < |order| && a[k] == order[at[k]])
    && (forall j, k :: 0 <= j < k < |at| ==> at[j] < at[k])
  }

  /** The list as it will be if trigger u alone finishes and finds nothing signalled. */
  function Line(s: State, u: nat): seq<Fence>
    requires u < |s.locals|
  {
    ReverseOnto(s.locals[u], s.list)
  }

  predicate Alone(s: State, u: nat) {
    u < |s.locals| && forall t :: 0 <= t < |s.locals| && t != u ==> s.locals[t] == []
  }

  predicate Idle(s: State) {
    forall t :: 0 <= t < |s.locals| ==> s.locals[t] == []
  }

  /** Triggers take the list only while no other one holds any of it. */
  predicate TakingTurns(s: State, ms: seq<Move>)
    decreases |ms|
  {
    ms == [] ||
    (Enabled(s, ms[0]) && (ms[0].Grab? ==> Idle(s)) && TakingTurns(Apply(s, ms[0]), ms[1..]))
  }

  lemma {:induction false} ReverseOntoConcat(fs: seq<Fence>, a: seq<Fence>, b: seq<Fence>)
    ensures ReverseOnto(fs, a + b) == ReverseOnto(fs, a) + b
  {
    if fs != [] {
      assert [fs[0]] + (a + b) == [fs[0]] + a + b;
      ReverseOntoConcat(fs[1..], [fs[0]] + a, b);
    }
  }

  lemma {:induction false} ReverseTwice(fs: seq<Fence>)
    ensures ReverseOnto(ReverseOnto(fs, []), []) == fs
  {
    var once := ReverseOnto(fs, []);
    ReverseOntoAt(fs, []);
    ReverseOntoAt(once, []);
    var twice := ReverseOnto(once, []);
    assert once[|fs|..] == [] && |once| == |fs| && |twice| == |fs|;
    forall j | 0 <= j < |fs| ensures twice[j] == fs[j] {
      assert twice[j] == once[|once| - 1 - j];
    }
  }

  lemma PlacedWithout(a: seq<Fence>, f: Fence, b: seq<Fence>, order: seq<Fence>, at: seq<nat>)
    requires Placed(a + [f] + b, order, at)
    ensures Placed(a + b, order, at[..|a|] + at[|a| + 1..])
  {
    var less := at[..|a|] + at[|a| + 1..];
    forall k | 0 <= k < |less| ensures less[k] < |order| && (a + b)[k] == order[less[k]] {
      var j := if k < |a| then k else k + 1;
      assert less[k] == at[j] && (a + b)[k] == (a + [f] + b)[j];
    }
  }

  lemma PlacedAppended(a: seq<Fence>, f: Fence, order: seq<Fence>, at: seq<nat>)
    requires Placed(a, order, at)
    ensures Placed(a + [f], order + [f], at + [|order|])
  {
  }

  lemma DropKeepsPlaces(s: State, u: nat, order: seq<Fence>, at: seq<nat>) returns (at': seq<nat>)
    requires u < |s.locals| && s.locals[u] != [] && Placed(Line(s, u), order, at)
    ensures Placed(ReverseOnto(s.locals[u][1..], s.list), order, at')
  {
    var f, rest := s.locals[u][0], s.locals[u][1..];
    var older := ReverseOnto(rest, []);
    ReverseOntoConcat(rest, [], [f] + s.list);
    ReverseOntoConcat(rest, [], s.list);
    assert [] + ([f] + s.list) == [f] + s.list && [] + s.list == s.list;
    assert Line(s, u) == older + [f] + s.list;
    PlacedWithout(older, f, s.list, order, at);
    at' := at[..|older|] + at[|older| + 1..];
  }

  lemma TurnStep(s: State, m: Move, u: nat, order: seq<Fence>, at: seq<nat>) returns (u': nat, at': seq<nat>)
    requires Alone(s, u) && Enabled(s, m) && (m.Grab? ==> Idle(s)) && Placed(Line(s, u), order, at)
    ensures var s' := Apply(s, m);
      Alone(s', u') && Placed(Line(s', u'), order + (if m.Append? then [m.f] else []), at')
  {
    u', at' := u, at;
    assert order + [] == order;
    match m {
      case Grab(t) =>
        u' := t;
        ReverseTwice(s.list);
      case Settle(t) =>
        if s.locals[u][0].id in s.reached { at' := DropKeepsPlaces(s, u, order, at); }
      case Append(f) =>
        ReverseOntoConcat(s.locals[u], s.list, [f]);
        PlacedAppended(Line(s, u), f, order, at);
        at' := at + [|order|];
      case Reach(ids) =>
    }
  }

  lemma {:induction false} TurnsKeepLine(s: State, ms: seq<Move>, u: nat, order: seq<Fence>, at: seq<nat>)
    returns (u': nat, at': seq<nat>)
    requires Alone(s, u) && TakingTurns(s, ms) && Placed(Line(s, u), order, at)
    ensures ValidRun(s, ms) && Alone(Exec(s, ms), u') && Placed(Line(Exec(s, ms), u'), order + Created(ms), at')
    decreases |ms|
  {
    hide Alone, Placed, Apply, Line, Idle;
    u', at' := u, at;
    if ms == [] {
      assert order + Created(ms) == order;
    } else {
      var made := if ms[0].Append? then [ms[0].f] else [];
      var v, mid := TurnStep(s, ms[0], u, order, at);
      u', at' := TurnsKeepLine(Apply(s, ms[0]), ms[1..], v, order + made, mid);
      assert order + made + Created(ms[1..]) == order + Created(ms);
    }
  }

  /** Any number of triggers, fences created and signals counted meanwhile: as long as no
      trigger takes the list while another one still holds a part of it, the list is at all
      times in the order of creation, and so is what the running trigger will make of it. */
  lemma TurnsKeepCreationOrder(s: State, ms: seq<Move>) returns (u: nat, whole: seq<nat>, at: seq<nat>)
    requires s.locals != [] && Idle(s) && TakingTurns(s, ms)
    ensures ValidRun(s, ms) && Alone(Exec(s, ms), u)
    ensures Placed(Line(Exec(s, ms), u), s.list + Created(ms), whole)
    ensures Placed(Exec(s, ms).list, s.list + Created(ms), at)
  {
    hide Placed, TakingTurns, ValidRun, Exec, Apply;
    var all := PlacedItself(s.list);
    assert Line(s, 0) == s.list && Alone(s, 0);
    u, whole := TurnsKeepLine(s, ms, 0, s.list, all);
    at := ListPlaced(Exec(s, ms), u, s.list + Created(ms), whole);
  }

  lemma PlacedItself(fs: seq<Fence>) returns (at: seq<nat>)
    ensures Placed(fs, fs, at)
  {
    at := seq(|fs|, i => i);
  }

  lemma ListPlaced(s: State, u: nat, order: seq<Fence>, whole: seq<nat>) returns (at: seq<nat>)
    requires u < |s.locals| && Placed(Line(s, u), order, whole)
    ensures Placed(s.list, order, at)
  {
    var older := ReverseOnto(s.locals[u], []);
    LineSplits(s, u);
    hide Placed, Line, ReverseOnto;
    at := PlacedTail(older, s.list, order, whole);
  }

  lemma LineSplits(s: State, u: nat)
    requires u < |s.locals|
    ensures Line(s, u) == ReverseOnto(s.locals[u], []) + s.list
  {
    ReverseOntoConcat(s.locals[u], [], s.list);
    assert [] + s.list == s.list;
  }

  lemma PlacedTail(a: seq<Fence>, b: seq<Fence>, order: seq<Fence>, whole: seq<nat>) returns (at: seq<nat>)
    requires Placed(a + b, order, whole)
    ensures Placed(b, order, at)
  {
    at := whole[|a|..];
    forall k | 0 <= k < |at| ensures at[k] < |order| && b[k] == order[at[k]] {
      assert at[k] == whole[|a| + k] && (a + b)[|a| + k] == b[k];
    }
  }

  // ----- when it can be lost -----

  /** The fences a trigger puts back, in order. */
  function Kept(fs: seq<Fence>, reached: set<nat>): seq<Fence> {
    if fs == [] then []
    else Kept(fs[..|fs| - 1], reached) + (if fs[|fs| - 1].id in reached then [] else [fs[|fs| - 1]])
  }

  lemma {:induction false} KeptHas(fs: seq<Fence>, reached: set<nat>, f: Fence)
    requires f in fs && f.id !in reached
    ensures f in Kept(fs, reached)
  {
    if f != fs[|fs| - 1] { KeptHas(fs[..|fs| - 1], reached, f); }
  }

  function Times(m: Move, n: nat): (ms: seq<Move>)
    ensures |ms| == n && forall k :: 0 <= k < n ==> ms[k] == m
  {
    seq(n, _ => m)
  }

  /** A trigger left to itself finishes its local list. */
  lemma {:induction false} FinishAlone(s: State, t: nat)
    requires t < |s.locals|
    ensures var ms := Times(Settle(t), |s.locals[t]|);
      && ValidRun(s, ms)
      && Exec(s, ms).list == Kept(ReverseOnto(s.locals[t], []), s.reached) + s.list
      && Exec(s, ms).locals == s.locals[t := []] && Exec(s, ms).reached == s.reached
    decreases |s.locals[t]|
  {
    var local := s.locals[t];
    var ms := Times(Settle(t), |local|);
    if local == [] {
      assert ms == [] && s.locals[t := []] == s.locals && ReverseOnto(local, []) == [];
    } else {
      var s' := Apply(s, Settle(t));
      FinishAlone(s', t);
      assert ms[1..] == Times(Settle(t), |local| - 1) && s'.locals[t] == local[1..];
      var older := ReverseOnto(local[1..], []);
      ReverseOntoConcat(local[1..], [], [local[0]]);
      assert [] + [local[0]] == [local[0]] && [local[0]] + [] == [local[0]];
      assert ReverseOnto(local, []) == older + [local[0]];
      assert (older + [local[0]])[..|older|] == older;
      var back := if local[0].id in s.reached then [] else [local[0]];
      assert s'.list == back + s.list;
      assert Kept(older, s.reached) + (back + s.list) == Kept(older, s.reached) + back + s.list;
      assert s'.locals[t := []] == s.locals[t := []];
    }
  }

  ghost predicate Before(fs: seq<Fence>, a: Fence, b: Fence) {
    exists i, j :: 0 <= i < j < |fs| && fs[i] == a && fs[j] == b
  }

  lemma BeforeByParts(x: seq<Fence>, y: seq<Fence>, a: Fence, b: Fence)
    requires a in x && b in y
    ensures Before(x + y, a, b)
  {
    var i :| 0 <= i < |x| && x[i] == a;
    var j :| 0 <= j < |y| && y[j] == b;
    assert (x + y)[i] == a && (x + y)[|x| + j] == b;
  }

  lemma {:induction false} Joined(s: State, a: seq<Move>, b: seq<Move>)
    requires ValidRun(s, a) && ValidRun(Exec(s, a), b)
    ensures ValidRun(s, a + b) && Exec(s, a + b) == Exec(Exec(s, a), b)
    decreases |a|
  {
    if a == [] {
      assert a + b == b;
    } else {
      assert (a + b)[1..] == a[1..] + b && (a + b)[0] == a[0];
      Joined(Apply(s, a[0]), a[1..], b);
    }
  }

  /** Otherwise the order can be lost: whenever a trigger takes a list with an unsignalled
      fence g while another trigger still holds an unsignalled fence f, which stands before
      g, finishing the older trigger first puts f behind g. */
  lemma OverlapCanReorder(s: State, u: nat, t: nat, f: Fence, g: Fence)
    requires u < |s.locals| && t < |s.locals| && u != t && s.locals[t] == []
    requires f in s.locals[u] && f.id !in s.reached && g in s.list && g.id !in s.reached
    ensures Before(Line(s, u), f, g) && Enabled(s, Grab(t))
    ensures var ms := [Grab(t)] + Times(Settle(u), |s.locals[u]|) + Times(Settle(t), |s.list|);
      ValidRun(s, ms) && Before(Exec(s, ms).list, g, f)
  {
    hide Kept, ReverseOnto, Before, ValidRun, Exec, Times, Line;
    var older := ReverseOnto(s.locals[u], []);
    LineSplits(s, u);
    ReverseOntoKeeps(s.locals[u], []);
    assert f in multiset(older);
    BeforeByParts(older, s.list, f, g);
    Overtake(s, u, t);
    KeptHas(older, s.reached, f);
    KeptHas(s.list, s.reached, g);
    BeforeByParts(Kept(s.list, s.reached), Kept(older, s.reached), g, f);
  }

  /** The trigger that took the list last finishes last: its fences come to stand in front. */
  lemma Overtake(s: State, u: nat, t: nat)
    requires u < |s.locals| && t < |s.locals| && u != t && s.locals[t] == []
    ensures var ms := [Grab(t)] + Times(Settle(u), |s.locals[u]|) + Times(Settle(t), |s.list|);
      ValidRun(s, ms)
      && Exec(s, ms).list == Kept(s.list, s.reached) + Kept(ReverseOnto(s.locals[u], []), s.reached)
  {
    hide Kept, ReverseOnto, Before, Times;
    var s1 := Apply(s, Grab(t));
    GrabAlone(s, t);
    FinishAlone(s1, u);
    var first := Times(Settle(u), |s.locals[u]|);
    var s2 := Exec(s1, first);
    var older := Kept(ReverseOnto(s.locals[u], []), s.reached);
    assert older + [] == older;
    hide ValidRun, Exec, Apply;
    FinishAlone(s2, t);
    ReverseTwice(s.list);
    Joined(s, [Grab(t)], first);
    Joined(s, [Grab(t)] + first, Times(Settle(t), |s.list|));
  }

  lemma GrabAlone(s: State, t: nat)
    requires Enabled(s, Grab(t))
    ensures ValidRun(s, [Grab(t)]) && Exec(s, [Grab(t)]) == Apply(s, Grab(t))
    ensures |ReverseOnto(s.list, [])| == |s.list|
  {
    RunStep(s, Grab(t), []);
    assert [Grab(t)] + [] == [Grab(t)];
    ReverseOntoAt(s.list, []);
  }

  /** Two overlapping triggers can put a newer fence before an older one. */
  lemma OverlappingTriggersMayReorder(f: Fence, g: Fence)
    requires f != g
    ensures var s := State([f], [[], []], {}, []);
      var ms := [Grab(0), Append(g), Grab(1), Settle(0), Settle(1)];
      ValidRun(s, ms) && Exec(s, ms).list == [g, f]
  {
    var s := State([f], [[], []], {}, []);
    var s1 := Apply(s, Grab(0));
    ReverseOne(f);
    assert [f][1..] == [] && s1.locals == [[f], []] && s1.list == [];
    var s2 := Apply(s1, Append(g));
    assert s2.list == [g];
    var s3 := Apply(s2, Grab(1));
    ReverseOne(g);
    assert [g][1..] == [] && s3.locals == [[f], [g]] && s3.list == [];
    var s4 := Apply(s3, Settle(0));
    assert s4.locals == [[], [g]] && s4.list == [f];
    var s5 := Apply(s4, Settle(1));
    assert s5.list == [g, f];
    RunOfFive(s, Grab(0), Append(g), Grab(1), Settle(0), Settle(1));
  }

  lemma ReverseOne(f: Fence)
    ensures ReverseOnto([f], []) == [f]
  {
    assert [f][1..] == [] && [f] + [] == [f];
  }

  lemma RunOfFive(s: State, a: Move, b: Move, c: Move, d: Move, e: Move)
    requires Enabled(s, a) && Enabled(Apply(s, a), b) && Enabled(Apply(Apply(s, a), b), c)
    requires Enabled(Apply(Apply(Apply(s, a), b), c), d)
    requires Enabled(Apply(Apply(Apply(Apply(s, a), b), c), d), e)
    ensures ValidRun(s, [a, b, c, d, e])
    ensures Exec(s, [a, b, c, d, e]) == Apply(Apply(Apply(Apply(Apply(s, a), b), c), d), e)
  {
    var s1 := Apply(s, a);
    var s2 := Apply(s1, b);
    var s3 := Apply(s2, c);
    var s4 := Apply(s3, d);
    RunStep(s4, e, []);
    RunStep(s3, d, [e]);
    RunStep(s2, c, [d, e]);
    RunStep(s1, b, [c, d, e]);
    RunStep(s, a, [b, c, d, e]);
    assert [a] + [b, c, d, e] == [a, b, c, d, e] && [b] + [c, d, e] == [b, c, d, e];
    assert [c] + [d, e] == [c, d, e] && [d] + [e] == [d, e] && [e] + [] == [e];
  }

  lemma RunStep(s: State, m: Move, ms: seq<Move>)
    requires Enabled(s, m) && ValidRun(Apply(s, m), ms)
    ensures ValidRun(s, [m] + ms) && Exec(s, [m] + ms) == Exec(Apply(s, m), ms)
  {
    assert ([m] + ms)[1..] == ms;
  }
}
