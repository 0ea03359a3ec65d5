/** Clocks and regulators that are switched as groups (sde_io_util.c): a group that cannot be
    switched on completely is switched off again in reverse order. */
module PowerSupplies {

  const EPERM: int := 1

  datatype Option<T> = None | Some(value: T)

  /** A clock of the table, its handle if there is one, and how often it is prepared and enabled. */
  datatype Clock = Clock(present: bool, count: int)

  /** A regulator: how often it is enabled, its load, and whether hardware controls it. */
  datatype Regulator = Regulator(count: int, load: int, hw: bool, enableLoad: int, disableLoad: int)

  /** What the calls for one regulator answer when it is switched on; errors are negative. */
  datatype Answer = Answer(handle: int, load: int, enable: int)

  // ----- clocks -----

  function ClockResult(c: Clock, rc: int): int {
    if c.present then rc else -EPERM
  }

  /** The first clock that cannot be enabled. */
  function FirstBad(cs: seq<Clock>, rcs: seq<int>): (k: nat)
    requires |rcs| == |cs|
    ensures k <= |cs| && forall i :: 0 <= i < k ==> ClockResult(cs[i], rcs[i]) == 0
    ensures k < |cs| ==> ClockResult(cs[k], rcs[k]) != 0
  {
    if cs == [] || ClockResult(cs[0], rcs[0]) != 0 then 0 else FirstBad(cs[1..], rcs[1..]) + 1
  }

  function Counted(c: Clock, n: int): Clock {
    if c.present then c.(count := c.count + n) else c
  }

  method DisableClocks(a: array<Clock>, n: nat)
    requires n <= a.Length
    modifies a
    ensures forall i :: 0 <= i < a.Length ==> a[i] == if i < n then Counted(old(a[i]), -1) else old(a[i])
  {
    var i := n - 1;
    while i >= 0
      invariant -1 <= i < n
      invariant forall j :: 0 <= j < a.Length ==> a[j] == if i < j < n then Counted(old(a[j]), -1) else old(a[j])
    {
      if a[i].present { a[i] := a[i].(count := a[i].count - 1); }
      i := i - 1;
    }
  }

  /** Clock i is there and its answer is 0. */
  predicate ClockGood(cs: seq<Clock>, rcs: seq<int>, i: nat)
    requires i < |cs| == |rcs|
  {
    cs[i].present && rcs[i] == 0
  }

  /** msm_dss_enable_clk: all clocks or none. */
  method EnableClocks(a: array<Clock>, rcs: seq<int>) returns (rc: int)
    requires |rcs| == a.Length
    modifies a
    ensures var k := FirstBad(old(a[..]), rcs);
            && rc == (if k < a.Length then ClockResult(old(a[..])[k], rcs[k]) else 0)
            && (k < a.Length ==> rc != 0 && a[..] == old(a[..]))
            && (k == a.Length ==> forall i :: 0 <= i < a.Length ==> a[i] == Counted(old(a[i]), 1))
    ensures rc == 0 <==> forall i: nat :: i < a.Length ==> ClockGood(old(a[..]), rcs, i)
    ensures rc == 0 ==> forall i :: 0 <= i < a.Length ==> a[i] == old(a[i]).(count := old(a[i]).count + 1)
    ensures rc != 0 ==>
              exists k: nat ::
                && k < a.Length && !ClockGood(old(a[..]), rcs, k)
                && (forall i: nat :: i < k ==> ClockGood(old(a[..]), rcs, i))
                && rc == if old(a[..])[k].present then rcs[k] else -EPERM
  {
    rc := 0;
    for i := 0 to a.Length
      invariant rc == 0 && i <= FirstBad(old(a[..]), rcs)
      invariant forall j :: 0 <= j < a.Length ==> a[j] == if j < i then Counted(old(a[j]), 1) else old(a[j])
      invariant forall j: nat :: j < i ==> ClockGood(old(a[..]), rcs, j)
    {
      if a[i].present {
        rc := rcs[i];
        if rc == 0 { a[i] := a[i].(count := a[i].count + 1); }
      } else {
        rc := -EPERM;
      }
      if rc != 0 {
        assert !ClockGood(old(a[..]), rcs, i);
        DisableClocks(a, i);
        assert a[..] == old(a[..]);
        return;
      }
    }
  }

  // ----- regulators -----

  predicate Refuses(r: Regulator, a: Answer) {
    a.handle != 0 || (!r.hw && (a.load < 0 || a.enable < 0))
  }

  function Refusal(r: Regulator, a: Answer): int {
    if a.handle != 0 then a.handle else if a.load < 0 then a.load else a.enable
  }

  function FirstRefusal(rs: seq<Regulator>, answers: seq<Answer>): (k: nat)
    requires |answers| == |rs|
    ensures k <= |rs| && forall i :: 0 <= i < k ==> !Refuses(rs[i], answers[i])
    ensures k < |rs| ==> Refuses(rs[k], answers[k])
  {
    if rs == [] || Refuses(rs[0], answers[0]) then 0 else FirstRefusal(rs[1..], answers[1..]) + 1
  }

  function On(r: Regulator): Regulator {
    if r.hw then r else r.(count := r.count + 1, load := r.enableLoad)
  }

  function Off(r: Regulator): Regulator {
    if r.hw then r else r.(count := r.count - 1, load := r.disableLoad)
  }

  /** The unwinding does not ask who controls the regulator. */
  function Unwound(r: Regulator): Regulator {
    r.(count := r.count - 1, load := r.disableLoad)
  }

  /** What is left of regulator i when number k refused. */
  function Left(r: Regulator, a: Answer, i: nat, k: nat): Regulator {
    if i < k then Unwound(On(r))
    else if i == k && a.handle == 0 && a.load >= 0 then r.(load := r.disableLoad)
    else r
  }

  method DisableVregs(a: array<Regulator>)
    modifies a
    ensures forall i :: 0 <= i < a.Length ==> a[i] == Off(old(a[i]))
  {
    var i := a.Length - 1;
    while i >= 0
      invariant -1 <= i < a.Length
      invariant forall j :: 0 <= j < a.Length ==> a[j] == if i < j then Off(old(a[j])) else old(a[j])
    {
      if !a[i].hw { a[i] := a[i].(load := a[i].disableLoad, count := a[i].count - 1); }
      i := i - 1;
    }
  }

  method UnwindVregs(a: array<Regulator>, n: nat)
    requires n <= a.Length
    modifies a
    ensures forall i :: 0 <= i < a.Length ==> a[i] == if i < n then Unwound(old(a[i])) else old(a[i])
  {
    var i := n - 1;
    while i >= 0
      invariant -1 <= i < n
      invariant forall j :: 0 <= j < a.Length ==> a[j] == if i < j < n then Unwound(old(a[j])) else old(a[j])
    {
      a[i] := a[i].(load := a[i].disableLoad, count := a[i].count - 1);
      i := i - 1;
    }
  }

  /** Regulator i has a handle and, unless hardware controls it, takes its load and is enabled. */
  predicate VregGood(rs: seq<Regulator>, answers: seq<Answer>, i: nat)
    requires i < |rs| == |answers|
  {
    answers[i].handle == 0 && (rs[i].hw || (answers[i].load >= 0 && answers[i].enable >= 0))
  }

  /** Regulator i after number k refused: those before it have the count they had, or one less if
      hardware controls them, and the load of the off state; number k has that load if it was
      asked for another; the others are untouched. */
  predicate UnwoundBy(rs: seq<Regulator>, ts: seq<Regulator>, answers: seq<Answer>, i: nat, k: nat)
    requires i < |rs| == |ts| == |answers| && k < |rs|
  {
    var r := rs[i];
    ts[i] == if i < k then r.(count := if r.hw then r.count - 1 else r.count, load := r.disableLoad)
             else if i == k && answers[k].handle == 0 && answers[k].load >= 0 then r.(load := r.disableLoad)
             else r
  }

  lemma GoodIsGranted(rs: seq<Regulator>, answers: seq<Answer>)
    requires |answers| == |rs|
    ensures var k := FirstRefusal(rs, answers);
            && (forall i: nat :: i < k ==> VregGood(rs, answers, i))
            && (k < |rs| ==> !VregGood(rs, answers, k))
  {
  }

  /** msm_dss_enable_vreg. */
  method EnableVregs(a: array<Regulator>, answers: seq<Answer>) returns (rc: int)
    requires |answers| == a.Length && forall i :: 0 <= i < |answers| ==> answers[i].handle <= 0
    modifies a
    ensures var k := FirstRefusal(old(a[..]), answers);
            && (rc < 0 <==> k < a.Length)
            && (k == a.Length && (forall i :: 0 <= i < |answers| ==> answers[i].enable <= 0) ==> rc == 0)
            && (k < a.Length ==> rc == Refusal(old(a[..])[k], answers[k]))
            && (k < a.Length ==> forall i :: 0 <= i < a.Length ==> a[i] == Left(old(a[i]), answers[i], i, k))
            && (k == a.Length ==> forall i :: 0 <= i < a.Length ==> a[i] == On(old(a[i])))
    ensures rc >= 0 <==> forall i: nat :: i < a.Length ==> VregGood(old(a[..]), answers, i)
    ensures rc >= 0 ==> forall i :: 0 <= i < a.Length ==>
              a[i] == if old(a[i]).hw then old(a[i])
                      else old(a[i]).(count := old(a[i]).count + 1, load := old(a[i]).enableLoad)
    ensures rc < 0 ==>
              exists k: nat ::
                && k < a.Length && !VregGood(old(a[..]), answers, k)
                && (forall i: nat :: i < k ==> VregGood(old(a[..]), answers, i))
                && rc == (if answers[k].handle != 0 then answers[k].handle
                          else if answers[k].load < 0 then answers[k].load else answers[k].enable)
                && forall i: nat :: i < a.Length ==> UnwoundBy(old(a[..]), a[..], answers, i, k)
  {
    GoodIsGranted(a[..], answers);
    rc := 0;
    for i := 0 to a.Length
      invariant rc >= 0 && i <= FirstRefusal(old(a[..]), answers)
      invariant (forall i :: 0 <= i < |answers| ==> answers[i].enable <= 0) ==> rc == 0
      invariant forall j :: 0 <= j < a.Length ==> a[j] == if j < i then On(old(a[j])) else old(a[j])
    {
      rc := answers[i].handle;
      if rc != 0 { UnwindVregs(a, i); return; }
      if a[i].hw { continue; }
      rc := answers[i].load;
      if rc < 0 { UnwindVregs(a, i); return; }
      a[i] := a[i].(load := a[i].enableLoad);
      rc := answers[i].enable;
      if rc < 0 {
        a[i] := a[i].(load := a[i].disableLoad);
        UnwindVregs(a, i);
        return;
      }
      a[i] := a[i].(count := a[i].count + 1);
    }
  }

  predicate AllAtRest(rs: seq<Regulator>) {
    forall i :: 0 <= i < |rs| ==> rs[i].load == rs[i].disableLoad
  }

  /** A failed group is as before if and only if no regulator before the one that refused is
      controlled by hardware: such a one was never enabled but is disabled. */
  lemma FailureRestoresIff(before: seq<Regulator>, after: seq<Regulator>, answers: seq<Answer>)
    requires AllAtRest(before) && |answers| == |before| == |after| && FirstRefusal(before, answers) < |before|
    requires forall i :: 0 <= i < |before| ==> after[i] == Left(before[i], answers[i], i, FirstRefusal(before, answers))
    ensures after == before <==> forall i :: 0 <= i < FirstRefusal(before, answers) ==> !before[i].hw
  {
    var k := FirstRefusal(before, answers);
    forall i | 0 <= i < |before| ensures after[i] == before[i] <==> !(i < k && before[i].hw) {
    }
  }

  /** The smallest case: a regulator in hardware control, then one that fails. */
  lemma HardwareControlledIsDisabled()
    ensures var rs := [Regulator(0, 0, true, 10, 0), Regulator(0, 0, false, 10, 0)];
            var answers := [Answer(0, 0, 0), Answer(0, 0, -1)];
            FirstRefusal(rs, answers) == 1 && Left(rs[0], answers[0], 0, 1).count == -1
  {
    var rs := [Regulator(0, 0, true, 10, 0), Regulator(0, 0, false, 10, 0)];
    var answers := [Answer(0, 0, 0), Answer(0, 0, -1)];
    assert rs[1..] == [rs[1]] && answers[1..] == [answers[1]];
  }

  // ----- getting the regulators -----

  /** A regulator slot: its handle, the references the driver holds, and the voltage floor. */
  datatype Slot = Slot(got: bool, refs: int, ldo: bool, floor: int)

  datatype Get = Get(get: int, voltage: int)

  predicate CannotGet(s: Slot, g: Get) {
    g.get != 0 || (s.ldo && g.voltage < 0)
  }

  function FirstUngettable(ss: seq<Slot>, gs: seq<Get>): (k: nat)
    requires |gs| == |ss|
    ensures k <= |ss| && forall i :: 0 <= i < k ==> !CannotGet(ss[i], gs[i])
    ensures k < |ss| ==> CannotGet(ss[k], gs[k])
  {
    if ss == [] || CannotGet(ss[0], gs[0]) then 0 else FirstUngettable(ss[1..], gs[1..]) + 1
  }

  predicate Settled(was: Slot, now: Slot, got: bool, refs: int) {
    now.got == got && now.refs == refs && now.ldo == was.ldo
  }

  /** Where the jumps of the unwinding lead. */
  datatype Label = Unconfigure | Release | Step

  /** msm_dss_config_vreg with config set.  The unwinding jumps backwards out of its own loop
      for every regulator; nevertheless each handle taken is given back exactly once. */
  method GetVregs(a: array<Slot>, gs: seq<Get>, min: int) returns (rc: int)
    requires |gs| == a.Length && forall i :: 0 <= i < a.Length ==> !a[i].got
    requires forall i :: 0 <= i < |gs| ==> gs[i].get <= 0
    modifies a
    ensures var k := FirstUngettable(old(a[..]), gs);
            && (rc == 0 <==> k == a.Length)
            && (k < a.Length ==> rc < 0)
            && forall i :: 0 <= i < a.Length ==>
                 Settled(old(a[i]), a[i], k == a.Length, old(a[i]).refs + if k == a.Length then 1 else 0)
  {
    rc := 0;
    var i: int := 0;
    ghost var k := FirstUngettable(a[..], gs);
    var at := Step;
    while i < a.Length
      invariant 0 <= i <= k && rc == 0 && at == Step
      invariant forall j :: 0 <= j < a.Length ==>
                  if j < i then Settled(old(a[j]), a[j], true, old(a[j]).refs + 1) else a[j] == old(a[j])
    {
      rc := gs[i].get;
      if rc != 0 { break; }
      a[i] := a[i].(got := true, refs := a[i].refs + 1);
      if a[i].ldo {
        rc := gs[i].voltage;
        if rc < 0 { at := Release; break; }
        rc := 0;
        a[i] := a[i].(floor := min);
      }
      i := i + 1;
    }
    if rc == 0 { return; }
    while true
      invariant rc < 0 && -1 <= i <= k < a.Length
      invariant at != Step ==> i >= 0
      invariant forall j :: 0 <= j < a.Length ==>
                  if j < i || (j == i && at != Step) then Settled(old(a[j]), a[j], true, old(a[j]).refs + 1)
                  else Settled(old(a[j]), a[j], false, old(a[j]).refs)
      decreases i, match at case Unconfigure => 2 case Release => 1 case Step => 0
    {
      match at
      case Unconfigure => at := Release;
      case Release =>
        a[i] := a[i].(got := false, refs := a[i].refs - 1);
        at := Step;
      case Step =>
        i := i - 1;
        if i < 0 { break; }
        at := Unconfigure;
    }
  }

  /** With config cleared: every handle still held is given back. */
  method PutVregs(a: array<Slot>)
    modifies a
    ensures forall i :: 0 <= i < a.Length ==>
              Settled(old(a[i]), a[i], false, old(a[i]).refs - if old(a[i]).got then 1 else 0)
  {
    var i := a.Length - 1;
    while i >= 0
      invariant -1 <= i < a.Length
      invariant forall j :: 0 <= j < a.Length ==>
                  if j <= i then a[j] == old(a[j])
                  else Settled(old(a[j]), a[j], false, old(a[j]).refs - if old(a[j]).got then 1 else 0)
    {
      if a[i].got {
        if a[i].ldo { a[i] := a[i].(floor := 0); }
        a[i] := a[i].(got := false, refs := a[i].refs - 1);
      }
      i := i - 1;
    }
  }
}
