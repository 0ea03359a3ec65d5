/** Power sequencing of the display (sde_power_handle.c): bus votes, regulators, the register
    bus, the RSC and clocks are switched on in this order; whatever fails, what was done is
    undone in reverse. */
module PowerHandle {
  import opened PowerSupplies

  const EINVAL: int := 22
  const DBUS_ID_MAX: nat := 3
  const DATA_BUS_PATH_MAX: nat := 2
  const ENABLE_BUS_IB_QUOTA: nat := 400000000
  const VOTE_INDEX_DISABLE: nat := 0
  const VOTE_INDEX_LOW: nat := 1

  datatype Bandwidth = Bandwidth(ab: nat, ib: nat)

  const None_: Bandwidth := Bandwidth(0, 0)

  /** The votes of the register bus. */
  function RegBusTable(ndx: nat): Bandwidth
    requires ndx < 4
  {
    [Bandwidth(0, 0), Bandwidth(0, 76800), Bandwidth(0, 150000), Bandwidth(0, 300000)][ndx]
  }

  /** Bytes a second to the 32-bit unit of the interconnect. */
  function Icc(b: Bandwidth): Bandwidth {
    Bandwidth(b.ab / 1000 % 0x1_0000_0000, b.ib / 1000 % 0x1_0000_0000)
  }

  datatype Path = Path(present: bool, vote: Bandwidth)

  datatype Bus = Bus(paths: seq<Path>, curr: Bandwidth)

  function Voted(p: Path, v: Bandwidth): Path {
    if p.present then p.(vote := v) else p
  }

  function VotedAll(ps: seq<Path>, cnt: nat, v: Bandwidth): (r: seq<Path>)
    ensures |r| == |ps| && forall i :: 0 <= i < |ps| ==> r[i] == if i < cnt then Voted(ps[i], v) else ps[i]
  {
    seq(|ps|, i requires 0 <= i < |ps| => if i < cnt then Voted(ps[i], v) else ps[i])
  }

  /** The votes are those the bus remembers. */
  ghost predicate Consistent(ps: seq<Path>, n: nat, curr: Bandwidth) {
    forall i :: 0 <= i < |ps| && i < n && ps[i].present ==> ps[i].vote == Icc(curr)
  }

  function FirstDenied(ps: seq<Path>, rcs: seq<int>, cnt: nat): (k: nat)
    requires cnt <= |ps| && |rcs| == |ps|
    ensures k <= cnt && forall i :: 0 <= i < k ==> !ps[i].present || rcs[i] == 0
    ensures k < cnt ==> ps[k].present && rcs[k] != 0
  {
    if cnt == 0 then 0
    else
      var k := FirstDenied(ps, rcs, cnt - 1);
      if k < cnt - 1 || (ps[k].present && rcs[k] != 0) then k else cnt
  }

  /** Path k is the first one that is there and denied. */
  ghost predicate FirstDenial(ps: seq<Path>, rcs: seq<int>, k: nat) {
    && k < |ps| && k < |rcs| && ps[k].present && rcs[k] != 0
    && forall i :: 0 <= i < k && ps[i].present ==> rcs[i] == 0
  }

  class DataBus {
    const hdl: array<Path>
    const cnt: nat
    var curr: Bandwidth

    constructor (hdl: array<Path>, cnt: nat)
      ensures this.hdl == hdl && this.cnt == cnt && curr == None_
    {
      this.hdl, this.cnt, curr := hdl, cnt, None_;
    }

    ghost function View(): Bus
      reads this, hdl
    {
      Bus(hdl[..], curr)
    }

    /** _sde_power_data_bus_set_quota; rcs holds what the interconnect answers for each path.
        A refusal leaves the earlier paths at the vote the bus remembers. */
    method SetQuota(ab: nat, ib: nat, rcs: seq<int>) returns (rc: int)
      requires cnt <= hdl.Length && |rcs| == hdl.Length
      modifies this, hdl
      ensures cnt == 0 ==> rc == -EINVAL && View() == old(View())
      ensures cnt > 0 ==>
                var k := FirstDenied(old(hdl[..]), rcs, cnt);
                && rc == (if k < cnt then rcs[k] else 0)
                && (k == cnt ==>
                      View() == Bus(VotedAll(old(hdl[..]), cnt, Icc(Bandwidth(ab / cnt, ib))), Bandwidth(ab / cnt, ib)))
                && (k < cnt ==> View() == Bus(VotedAll(old(hdl[..]), k, Icc(old(curr))), old(curr)))
                && (k < cnt ==> (View() == old(View()) <==> Consistent(old(hdl[..]), k, old(curr))))
      ensures cnt > 0 ==> (rc == 0 <==> forall i :: 0 <= i < cnt && old(hdl[i]).present ==> rcs[i] == 0)
      ensures cnt > 0 && rc == 0 ==>
                && curr.ab == ab / cnt && curr.ib == ib
                && forall i :: 0 <= i < hdl.Length ==>
                     && hdl[i].present == old(hdl[i]).present
                     && (if i < cnt && hdl[i].present then
                           hdl[i].vote.ab == ab / cnt / 1000 % 0x1_0000_0000
                           && hdl[i].vote.ib == ib / 1000 % 0x1_0000_0000
                         else hdl[i] == old(hdl[i]))
      ensures cnt > 0 && rc != 0 ==>
                exists k: nat ::
                  && k < cnt && FirstDenial(old(hdl[..]), rcs, k) && rc == rcs[k] && curr == old(curr)
                  && forall i :: 0 <= i < hdl.Length ==>
                       && hdl[i].present == old(hdl[i]).present
                       && (if i < k && hdl[i].present then
                             hdl[i].vote.ab == curr.ab / 1000 % 0x1_0000_0000
                             && hdl[i].vote.ib == curr.ib / 1000 % 0x1_0000_0000
                           else hdl[i] == old(hdl[i]))
    {
      if cnt == 0 { return -EINVAL; }
      rc := 0;
      var quota := Bandwidth(ab / cnt, ib);
      ghost var was := hdl[..];
      for i := 0 to cnt
        invariant rc == 0 && curr == old(curr) && i <= FirstDenied(was, rcs, cnt)
        invariant forall j :: 0 <= j < hdl.Length ==> hdl[j] == if j < i then Voted(was[j], Icc(quota)) else was[j]
      {
        if hdl[i].present {
          rc := rcs[i];
          if rc != 0 {
            Restore(i);
            assert hdl[..] == VotedAll(was, i, Icc(curr));
            ConsistentIsRestored(was, i, curr);
            return;
          }
          hdl[i] := hdl[i].(vote := Icc(quota));
        }
      }
      curr := quota;
      assert hdl[..] == VotedAll(was, cnt, Icc(quota));
    }

    method Restore(n: nat)
      requires n <= hdl.Length
      modifies hdl
      ensures forall j :: 0 <= j < hdl.Length ==> hdl[j] == if j < n then Voted(old(hdl[j]), Icc(curr)) else old(hdl[j])
    {
      for j := 0 to n
        invariant forall m :: 0 <= m < hdl.Length ==>
                    hdl[m] == if m < j then Voted(old(hdl[m]), Icc(curr)) else old(hdl[m])
      {
        if hdl[j].present { hdl[j] := hdl[j].(vote := Icc(curr)); }
      }
    }
  }

  lemma ConsistentIsRestored(ps: seq<Path>, k: nat, curr: Bandwidth)
    ensures VotedAll(ps, k, Icc(curr)) == ps <==> Consistent(ps, k, curr)
  {
    var r := VotedAll(ps, k, Icc(curr));
    forall i | 0 <= i < |ps| ensures r[i] == ps[i] <==> !(i < k && ps[i].present && ps[i].vote != Icc(curr)) {
    }
  }

  // ----- the whole of it -----

  /** The register bus, the RSC and the clocks. */
  datatype Control = Control(clocks: seq<Clock>, regVote: Bandwidth, regCurr: Bandwidth, usecase: nat, rsc: bool)

  datatype State = State(buses: seq<Bus>, regs: seq<Regulator>, control: Control)

  /** What everything outside answers while power is switched on. */
  datatype Answers = Answers(bus: seq<seq<int>>, vregs: seq<Answer>, regBus: int, rsc: int, clocks: seq<int>)

  ghost predicate BusAtRest(b: Bus) {
    b.curr == None_ && forall i :: 0 <= i < |b.paths| && b.paths[i].present ==> b.paths[i].vote == None_
  }

  ghost predicate ControlAtRest(c: Control, hasRegBus: bool) {
    c.regCurr == None_ && c.usecase == VOTE_INDEX_DISABLE && (hasRegBus ==> c.regVote == None_) && !c.rsc
  }

  ghost predicate BusesAtRest(bs: seq<Bus>) {
    forall i :: 0 <= i < |bs| ==> BusAtRest(bs[i])
  }

  /** Everything is off. */
  ghost predicate AtRest(s: State, hasRegBus: bool) {
    BusesAtRest(s.buses) && AllAtRest(s.regs) && ControlAtRest(s.control, hasRegBus)
  }

  /** A path that is there and asked has the vote, any other is as it was. */
  predicate VotedTo(was: Path, now: Path, asked: bool, average: nat, peak: nat) {
    now.present == was.present
    && if asked && now.present then now.vote == Bandwidth(average, peak) else now == was
  }

  /** Bus k once it is voted on: those behind the first bus without paths are not asked. */
  function BusOn(b: Bus, cnt: nat): (r: Bus)
    requires cnt > 0
    ensures r.curr == Bandwidth(0, 400000000) && |r.paths| == |b.paths|
    ensures forall i :: 0 <= i < |b.paths| ==> VotedTo(b.paths[i], r.paths[i], i < cnt, 0, 400000)
  {
    var v := Bandwidth(0 / cnt, ENABLE_BUS_IB_QUOTA);
    Bus(VotedAll(b.paths, cnt, Icc(v)), v)
  }

  function BusOff(b: Bus, cnt: nat): (r: Bus)
    requires cnt > 0
    ensures r.curr == Bandwidth(0, 0) && |r.paths| == |b.paths|
    ensures forall i :: 0 <= i < |b.paths| ==> VotedTo(b.paths[i], r.paths[i], i < cnt, 0, 0)
  {
    var v := Bandwidth(0 / cnt, 0);
    Bus(VotedAll(b.paths, cnt, Icc(v)), v)
  }

  lemma BusOffOn(b: Bus, cnt: nat)
    requires BusAtRest(b) && cnt > 0
    ensures BusOff(BusOn(b, cnt), cnt) == b && Consistent(b.paths, cnt, b.curr)
  {
    var r := BusOff(BusOn(b, cnt), cnt);
    assert Bandwidth(0 / cnt, 0) == None_ && Icc(None_) == None_;
    forall i | 0 <= i < |b.paths| ensures r.paths[i] == b.paths[i] {
    }
  }

  class Handle {
    const buses: seq<DataBus>
    const regs: array<Regulator>
    const clocks: array<Clock>
    const hasRegBus: bool
    const hasRsc: bool
    var regVote: Bandwidth
    var regCurr: Bandwidth
    var usecase: nat
    var rsc: bool

    constructor (buses: seq<DataBus>, regs: array<Regulator>, clocks: array<Clock>, hasRegBus: bool, hasRsc: bool)
      ensures this.buses == buses && this.regs == regs && this.clocks == clocks
      ensures this.hasRegBus == hasRegBus && this.hasRsc == hasRsc
      ensures regVote == regCurr == None_ && usecase == VOTE_INDEX_DISABLE && !rsc
    {
      this.buses, this.regs, this.clocks, this.hasRegBus, this.hasRsc := buses, regs, clocks, hasRegBus, hasRsc;
      regVote, regCurr, usecase, rsc := None_, None_, VOTE_INDEX_DISABLE, false;
    }

    ghost function Arrays(): set<object> {
      set b | b in buses :: b.hdl as object
    }

    ghost predicate Valid() {
      && |buses| == DBUS_ID_MAX
      && (forall i :: 0 <= i < |buses| ==>
            buses[i].hdl.Length == DATA_BUS_PATH_MAX && buses[i].cnt <= DATA_BUS_PATH_MAX)
      && (forall i, j :: 0 <= i < j < |buses| ==> buses[i] != buses[j] && buses[i].hdl != buses[j].hdl)
    }

    ghost function BusViews(): (r: seq<Bus>)
      reads buses, Arrays()
      ensures |r| == |buses| && forall i :: 0 <= i < |buses| ==> r[i] == buses[i].View()
    {
      seq(|buses|, i requires 0 <= i < |buses| reads buses, Arrays() => buses[i].View())
    }

    ghost function ControlView(): Control
      reads this, clocks
    {
      Control(clocks[..], regVote, regCurr, usecase, rsc)
    }

    ghost function View(): State
      reads this, buses, Arrays(), regs, clocks
    {
      State(BusViews(), regs[..], ControlView())
    }

    /** The buses that are voted on: up to the first one without paths. */
    function Active(): (n: nat)
      requires Valid()
      ensures n <= |buses| && (forall i :: 0 <= i < n ==> buses[i].cnt > 0) && (n < |buses| ==> buses[n].cnt == 0)
    {
      if buses[0].cnt == 0 then 0 else if buses[1].cnt == 0 then 1 else if buses[2].cnt == 0 then 2 else 3
    }

    predicate Fit(a: Answers)
      reads regs, clocks
    {
      && |a.bus| == DBUS_ID_MAX && (forall i :: 0 <= i < |a.bus| ==> |a.bus[i]| == DATA_BUS_PATH_MAX)
      && |a.vregs| == regs.Length
      && (forall i :: 0 <= i < |a.vregs| ==> a.vregs[i].handle <= 0 && a.vregs[i].enable <= 0)
      && |a.clocks| == clocks.Length
    }

    const Granted: seq<int> := [0, 0]

    lemma AlwaysGranted(ps: seq<Path>, cnt: nat)
      requires cnt <= |ps| == |Granted|
      ensures FirstDenied(ps, Granted, cnt) == cnt
    {
      assert forall i :: 0 <= i < |Granted| ==> Granted[i] == 0;
    }

    ghost predicate Grants(b: Bus, cnt: nat, rcs: seq<int>) {
      forall i :: 0 <= i < |b.paths| && i < cnt && i < |rcs| && b.paths[i].present ==> rcs[i] == 0
    }

    ghost predicate BusesGrant(a: seq<seq<int>>)
      requires Valid() && |a| == DBUS_ID_MAX
      reads buses, Arrays()
    {
      forall i :: 0 <= i < Active() ==> Grants(buses[i].View(), buses[i].cnt, a[i])
    }

    method VoteBus(n: nat, rcs: seq<int>) returns (rc: int)
      requires Valid() && n < |buses| && buses[n].cnt > 0 && |rcs| == DATA_BUS_PATH_MAX
      modifies buses[n], buses[n].hdl
      ensures rc == 0 ==> buses[n].View() == BusOn(old(buses[n].View()), buses[n].cnt)
      ensures rc != 0 && old(BusAtRest(buses[n].View())) ==> buses[n].View() == old(buses[n].View())
      ensures rc == 0 <==> old(Grants(buses[n].View(), buses[n].cnt, rcs))
      ensures rc != 0 ==>
                exists k: nat :: k < buses[n].cnt && FirstDenial(old(buses[n].hdl[..]), rcs, k) && rc == rcs[k]
      ensures forall i :: 0 <= i < |buses| && i != n ==> buses[i].View() == old(buses[i].View())
    {
      if BusAtRest(buses[n].View()) { BusOffOn(buses[n].View(), buses[n].cnt); }
      rc := buses[n].SetQuota(0, ENABLE_BUS_IB_QUOTA, rcs);
    }

    method UnvoteBus(n: nat)
      requires Valid() && n < |buses| && buses[n].cnt > 0
      modifies buses[n], buses[n].hdl
      ensures buses[n].View() == BusOff(old(buses[n].View()), buses[n].cnt)
      ensures forall i :: 0 <= i < |buses| && i != n ==> buses[i].View() == old(buses[i].View())
    {
      AlwaysGranted(buses[n].hdl[..], buses[n].cnt);
      var rc := buses[n].SetQuota(0, 0, Granted);
    }

    /** Bus n is the first with a denied path, and rc is what that path answered. */
    ghost predicate BusCode(bs: seq<Bus>, a: seq<seq<int>>, n: nat, rc: int)
      requires Valid() && |bs| == |a| == |buses|
    {
      && n < |bs| && (forall i :: 0 <= i < n ==> Grants(bs[i], buses[i].cnt, a[i]))
      && exists k: nat :: k < buses[n].cnt && FirstDenial(bs[n].paths, a[n], k) && rc == a[n][k]
    }

    /** The bus votes of an enable; on a refusal n is the bus that refused. */
    method VoteBuses(a: seq<seq<int>>) returns (rc: int, n: nat)
      requires Valid() && |a| == DBUS_ID_MAX && forall i :: 0 <= i < |a| ==> |a[i]| == DATA_BUS_PATH_MAX
      modifies buses, Arrays()
      ensures n <= Active() && (rc == 0 <==> n == Active())
      ensures rc == 0 <==> old(BusesGrant(a))
      ensures forall i :: 0 <= i < n ==>
                buses[i].cnt > 0 && buses[i].View() == BusOn(old(buses[i].View()), buses[i].cnt)
      ensures forall i :: n < i < |buses| ==> buses[i].View() == old(buses[i].View())
      ensures n < |buses| && (rc == 0 || old(BusAtRest(buses[n].View()))) ==> buses[n].View() == old(buses[n].View())
      ensures rc != 0 ==> BusCode(old(BusViews()), a, n, rc)
    {
      rc, n := 0, 0;
      while n < DBUS_ID_MAX && buses[n].cnt > 0
        invariant n <= Active() && rc == 0
        invariant forall i :: 0 <= i < n ==> old(Grants(buses[i].View(), buses[i].cnt, a[i]))
        invariant forall i :: 0 <= i < n ==>
                    buses[i].cnt > 0 && buses[i].View() == BusOn(old(buses[i].View()), buses[i].cnt)
        invariant forall i :: n <= i < |buses| ==> buses[i].View() == old(buses[i].View())
      {
        rc := VoteBus(n, a[n]);
        if rc != 0 {
          assert old(buses[n].View()).paths == old(buses[n].hdl[..]);
          return;
        }
        n := n + 1;
      }
    }

    method UnvoteBuses(n: nat)
      requires Valid() && n <= Active()
      modifies buses, Arrays()
      ensures forall i :: 0 <= i < n ==>
                buses[i].cnt > 0 && buses[i].View() == BusOff(old(buses[i].View()), buses[i].cnt)
      ensures forall i :: n <= i < |buses| ==> buses[i].View() == old(buses[i].View())
    {
      var i := n - 1;
      while i >= 0 && buses[i].cnt > 0
        invariant -1 <= i < n
        invariant forall j :: 0 <= j < |buses| ==>
                    if i < j < n then buses[j].cnt > 0 && buses[j].View() == BusOff(old(buses[j].View()), buses[j].cnt)
                    else buses[j].View() == old(buses[j].View())
      {
        UnvoteBus(i);
        i := i - 1;
      }
    }

    /** sde_power_scale_reg_bus. */
    method ScaleRegBus(ndx: nat, answer: int) returns (rc: int)
      requires ndx < 4
      modifies this`regVote, this`regCurr, this`usecase
      ensures rc == if hasRegBus then answer else 0
      ensures rc == 0 ==> usecase == ndx && regCurr == RegBusTable(ndx)
                          && regVote == if hasRegBus then RegBusTable(ndx) else old(regVote)
      ensures rc != 0 ==> usecase == old(usecase) && regCurr == old(regCurr) && regVote == old(regVote)
    {
      rc := 0;
      if hasRegBus {
        rc := answer;
        if rc == 0 { regVote := RegBusTable(ndx); }
      }
      if rc == 0 {
        regCurr := RegBusTable(ndx);
        usecase := ndx;
      }
    }

    method UpdateRsc(on: bool, answer: int) returns (rc: int)
      modifies this`rsc
      ensures rc == if hasRsc then answer else 0
      ensures rsc == if hasRsc && rc == 0 then on else old(rsc)
    {
      rc := 0;
      if hasRsc {
        rc := answer;
        if rc == 0 { rsc := on; }
      }
    }

    ghost predicate ControlOn(s: Control, t: Control)
      requires |s.clocks| == |t.clocks|
    {
      && (forall i :: 0 <= i < |s.clocks| ==> t.clocks[i] == s.clocks[i].(count := s.clocks[i].count + 1))
      && t.regCurr == Bandwidth(0, 76800) && t.usecase == 1
      && t.regVote == (if hasRegBus then Bandwidth(0, 76800) else s.regVote)
      && t.rsc == (hasRsc || s.rsc)
    }

    /** Register bus and RSC, where there are any, and all clocks grant. */
    ghost predicate ControlGood(cs: seq<Clock>, a: Answers)
      requires |cs| == |a.clocks|
    {
      && (hasRegBus ==> a.regBus == 0) && (hasRsc ==> a.rsc == 0)
      && forall i: nat :: i < |cs| ==> ClockGood(cs, a.clocks, i)
    }

    /** The answer of the first that does not. */
    ghost predicate ControlCode(cs: seq<Clock>, a: Answers, rc: int)
      requires |cs| == |a.clocks|
    {
      if hasRegBus && a.regBus != 0 then rc == a.regBus
      else if hasRsc && a.rsc != 0 then rc == a.rsc
      else
        exists k: nat ::
          && k < |cs| && !ClockGood(cs, a.clocks, k) && (forall i: nat :: i < k ==> ClockGood(cs, a.clocks, i))
          && rc == if cs[k].present then a.clocks[k] else -EPERM
    }

    /** The innermost steps of an enable with their error labels. */
    method EnableControl(a: Answers) returns (rc: int)
      requires Fit(a)
      modifies this`regVote, this`regCurr, this`usecase, this`rsc, clocks
      ensures rc == 0 ==> ControlOn(old(ControlView()), ControlView())
      ensures rc != 0 && old(ControlAtRest(ControlView(), hasRegBus)) ==> ControlView() == old(ControlView())
      ensures rc == 0 <==> ControlGood(old(clocks[..]), a)
      ensures rc != 0 ==> ControlCode(old(clocks[..]), a, rc)
    {
      rc := ScaleRegBus(VOTE_INDEX_LOW, a.regBus);
      if rc != 0 { return; }
      rc := UpdateRsc(true, a.rsc);
      if rc != 0 {
        var r := ScaleRegBus(VOTE_INDEX_DISABLE, 0);
        return;
      }
      rc := EnableClocks(clocks, a.clocks);
      if rc != 0 {
        var r := UpdateRsc(false, 0);
        r := ScaleRegBus(VOTE_INDEX_DISABLE, 0);
      }
    }

    /** The regulators fail after one that hardware controls. */
    ghost predicate HwUnwound(rs: seq<Regulator>, answers: seq<Answer>)
      requires |answers| == |rs|
    {
      var k := FirstRefusal(rs, answers);
      k < |rs| && exists i :: 0 <= i < k && rs[i].hw
    }

    ghost predicate RegsOn(rs: seq<Regulator>, ts: seq<Regulator>)
      requires |rs| == |ts|
    {
      forall i :: 0 <= i < |rs| ==>
        ts[i] == if rs[i].hw then rs[i] else rs[i].(count := rs[i].count + 1, load := rs[i].enableLoad)
    }

    ghost predicate VregsGood(rs: seq<Regulator>, a: Answers)
      requires |rs| == |a.vregs|
    {
      forall i: nat :: i < |rs| ==> VregGood(rs, a.vregs, i)
    }

    ghost predicate SupplyCode(rs: seq<Regulator>, cs: seq<Clock>, a: Answers, rc: int)
      requires |rs| == |a.vregs| && |cs| == |a.clocks|
    {
      if VregsGood(rs, a) then ControlCode(cs, a, rc)
      else
        exists k: nat ::
          && k < |rs| && !VregGood(rs, a.vregs, k) && (forall i: nat :: i < k ==> VregGood(rs, a.vregs, i))
          && rc == if a.vregs[k].handle != 0 then a.vregs[k].handle
                   else if a.vregs[k].load < 0 then a.vregs[k].load else a.vregs[k].enable
    }

    /** The regulators and everything behind them. */
    method EnableSupplies(a: Answers) returns (rc: int)
      requires Fit(a)
      modifies this`regVote, this`regCurr, this`usecase, this`rsc, clocks, regs
      ensures rc == 0 ==> RegsOn(old(regs[..]), regs[..]) && ControlOn(old(ControlView()), ControlView())
      ensures rc != 0 && old(ControlAtRest(ControlView(), hasRegBus)) ==> ControlView() == old(ControlView())
      ensures rc != 0 && old(AllAtRest(regs[..]))
              ==> (regs[..] == old(regs[..]) <==> !HwUnwound(old(regs[..]), a.vregs))
      ensures HwUnwound(old(regs[..]), a.vregs) ==> rc != 0
      ensures rc == 0 <==> VregsGood(old(regs[..]), a) && ControlGood(old(clocks[..]), a)
      ensures rc != 0 ==> SupplyCode(old(regs[..]), old(clocks[..]), a, rc)
    {
      ghost var was := regs[..];
      rc := EnableVregs(regs, a.vregs);
      if rc != 0 {
        if AllAtRest(was) { FailureRestoresIff(was, regs[..], a.vregs); }
        return;
      }
      rc := EnableControl(a);
      if rc != 0 {
        DisableVregs(regs);
        if AllAtRest(was) { assert regs[..] == was; }
      }
    }

    ghost predicate BusesOn(s: seq<Bus>, t: seq<Bus>)
      requires Valid() && |s| == |t| == |buses|
    {
      && (forall i :: 0 <= i < Active() ==> t[i] == BusOn(s[i], buses[i].cnt))
      && (forall i :: Active() <= i < |buses| ==> t[i] == s[i])
    }

    /** The bus votes of an enable, with the part of the error label that belongs to them. */
    method EnableBuses(a: seq<seq<int>>) returns (rc: int, n: nat)
      requires Valid() && |a| == DBUS_ID_MAX && forall i :: 0 <= i < |a| ==> |a[i]| == DATA_BUS_PATH_MAX
      modifies buses, Arrays()
      ensures rc == 0 <==> old(BusesGrant(a))
      ensures rc == 0 ==> n == Active() && BusesOn(old(BusViews()), BusViews())
      ensures rc != 0 && old(BusesAtRest(BusViews())) ==> BusViews() == old(BusViews())
      ensures rc != 0 ==> BusCode(old(BusViews()), a, n, rc)
    {
      hide BusOn, BusOff, BusAtRest, BusesGrant;
      ghost var was := BusViews();
      rc, n := VoteBuses(a);
      if rc != 0 { UndoBuses(n, was); }
    }

    /** sde_power_resource_enable, switching on.  On success everything is on.  On failure
        everything is as before, if it was off, whichever step failed, unless the regulators
        failed after one that hardware controls. */
    method ResourceEnable(a: Answers) returns (rc: int)
      requires Valid() && Fit(a)
      modifies this`regVote, this`regCurr, this`usecase, this`rsc, buses, Arrays(), regs, clocks
      ensures rc == 0 ==> BusesOn(old(BusViews()), BusViews())
      ensures rc == 0 ==> RegsOn(old(regs[..]), regs[..])
      ensures rc == 0 ==> ControlOn(old(ControlView()), ControlView())
      ensures rc != 0 && old(AtRest(View(), hasRegBus)) ==>
                (View() == old(View()) <==> !(old(BusesGrant(a.bus)) && HwUnwound(old(regs[..]), a.vregs)))
      ensures rc == 0 <==>
                old(BusesGrant(a.bus)) && VregsGood(old(regs[..]), a) && ControlGood(old(clocks[..]), a)
      ensures rc != 0 ==> if old(BusesGrant(a.bus)) then SupplyCode(old(regs[..]), old(clocks[..]), a, rc)
                          else exists n: nat :: BusCode(old(BusViews()), a.bus, n, rc)
    {
      hide BusOn, AllAtRest, HwUnwound, BusesGrant, ControlOn, BusesAtRest, ControlAtRest, RegsOn, DataBus.View,
           VregsGood, ControlGood, SupplyCode, BusCode, BusesOn;
      var i;
      rc, i := EnableBuses(a.bus);
      if rc != 0 { return; }
      rc := EnableSupplies(a);
      if rc != 0 { UndoAll(i, old(BusViews())); }
    }

    /** After all votes are taken back, buses that were off are as before. */
    method UndoAll(n: nat, ghost was: seq<Bus>)
      requires Valid() && n == Active() && |was| == |buses| && BusesOn(was, BusViews())
      modifies buses, Arrays()
      ensures BusesAtRest(was) ==> BusViews() == was
    {
      hide BusOn, BusAtRest, BusesAtRest;
      UndoBuses(n, was);
    }

    /** After the votes of the first n buses are taken back, buses that were off are as before. */
    method UndoBuses(n: nat, ghost was: seq<Bus>)
      requires Valid() && n <= Active() && |was| == |buses|
      requires forall i :: n <= i < |buses| ==> BusAtRest(was[i]) ==> buses[i].View() == was[i]
      requires forall i :: 0 <= i < n ==> buses[i].View() == BusOn(was[i], buses[i].cnt)
      modifies buses, Arrays()
      ensures BusesAtRest(was) ==> BusViews() == was
    {
      hide BusOn, BusOff, BusAtRest;
      UnvoteBuses(n);
      if BusesAtRest(was) {
        forall i | 0 <= i < n ensures BusOff(BusOn(was[i], buses[i].cnt), buses[i].cnt) == was[i] {
          BusOffOn(was[i], buses[i].cnt);
        }
      }
    }

    /** Switching off: the reverse of everything, for every bus that has paths. */
    method ResourceDisable()
      requires Valid()
      modifies this`regVote, this`regCurr, this`usecase, this`rsc, buses, Arrays(), regs, clocks
      ensures forall i :: 0 <= i < |buses| ==>
                buses[i].View() == if buses[i].cnt > 0 then BusOff(old(buses[i].View()), buses[i].cnt)
                  else old(buses[i].View())
      ensures forall i :: 0 <= i < regs.Length ==>
                regs[i] == if old(regs[i]).hw then old(regs[i])
                           else old(regs[i]).(count := old(regs[i]).count - 1, load := old(regs[i]).disableLoad)
      ensures forall i :: 0 <= i < clocks.Length ==>
                clocks[i] == if old(clocks[i]).present then old(clocks[i]).(count := old(clocks[i]).count - 1)
                             else old(clocks[i])
      ensures regCurr == None_ && usecase == VOTE_INDEX_DISABLE && (hasRegBus ==> regVote == None_) && (hasRsc ==> !rsc)
      ensures !hasRegBus ==> regVote == old(regVote)
      ensures !hasRsc ==> rsc == old(rsc)
    {
      var r := UpdateRsc(false, 0);
      DisableClocks(clocks, clocks.Length);
      r := ScaleRegBus(VOTE_INDEX_DISABLE, 0);
      DisableVregs(regs);
      UnvoteAll();
    }

    method UnvoteAll()
      requires Valid()
      modifies buses, Arrays()
      ensures forall i :: 0 <= i < |buses| ==>
                buses[i].View() == if buses[i].cnt > 0 then BusOff(old(buses[i].View()), buses[i].cnt)
                  else old(buses[i].View())
    {
      var i := DBUS_ID_MAX - 1;
      while i >= 0
        invariant -1 <= i < DBUS_ID_MAX
        invariant forall j :: 0 <= j < |buses| ==>
                    buses[j].View() == if i < j && buses[j].cnt > 0 then BusOff(old(buses[j].View()), buses[j].cnt)
                                       else old(buses[j].View())
      {
        if buses[i].cnt > 0 { UnvoteBus(i); }
        i := i - 1;
      }
    }

    /** A successful enable and a disable bring the display back to where it was. */
    method Cycle(a: Answers) returns (rc: int)
      requires Valid() && Fit(a) && AtRest(View(), hasRegBus)
      modifies this`regVote, this`regCurr, this`usecase, this`rsc, buses, Arrays(), regs, clocks
      ensures rc == 0 ==> View() == old(View())
    {
      hide BusOn, BusOff, AtRest, BusesGrant, HwUnwound, DataBus.View, ControlGood, VregsGood, SupplyCode, BusCode,
           BusesOn, RegsOn, ControlOn;
      ghost var was := View();
      rc := ResourceEnable(a);
      if rc == 0 { SwitchBack(was, a); }
    }

    /** A display that came from being off goes back to it. */
    method SwitchBack(ghost was: State, ghost a: Answers)
      requires Valid() && AtRest(was, hasRegBus) && |was.buses| == |buses| && |was.regs| == regs.Length
      requires |was.control.clocks| == clocks.Length == |a.clocks|
      requires BusesOn(was.buses, BusViews()) && RegsOn(was.regs, regs[..]) && ControlOn(was.control, ControlView())
      requires ControlGood(was.control.clocks, a)
      modifies this`regVote, this`regCurr, this`usecase, this`rsc, buses, Arrays(), regs, clocks
      ensures View() == was
    {
      hide BusOn, BusOff, AllAtRest, BusAtRest, DataBus.View, ControlGood;
      AtRestParts(was);
      ClocksReturn(was.control, ControlView(), a);
      RegsReturn(was.regs, regs[..]);
      ResourceDisable();
      forall i | 0 <= i < |buses| ensures BusViews()[i] == was.buses[i] {
        if buses[i].cnt > 0 {
          BusOffOn(was.buses[i], buses[i].cnt);
          RestIsOff(was.buses[i], buses[i].cnt);
        }
      }
      assert BusViews() == was.buses;
      assert regs[..] == was.regs;
      assert clocks[..] == was.control.clocks;
    }

    lemma RegsReturn(was: seq<Regulator>, on: seq<Regulator>)
      requires |was| == |on| && RegsOn(was, on) && AllAtRest(was)
      ensures forall i :: 0 <= i < |on| ==>
                was[i] == if on[i].hw then on[i] else on[i].(count := on[i].count - 1, load := on[i].disableLoad)
    {
    }

    lemma ClocksReturn(was: Control, on: Control, a: Answers)
      requires |was.clocks| == |on.clocks| == |a.clocks| && ControlOn(was, on) && ControlGood(was.clocks, a)
      ensures forall i :: 0 <= i < |on.clocks| ==>
                on.clocks[i].present && on.clocks[i].(count := on.clocks[i].count - 1) == was.clocks[i]
    {
      forall i: nat | i < |on.clocks|
        ensures on.clocks[i].present && on.clocks[i].(count := on.clocks[i].count - 1) == was.clocks[i] {
        assert ClockGood(was.clocks, a.clocks, i);
      }
    }

    lemma AtRestParts(s: State)
      requires AtRest(s, hasRegBus)
      ensures forall i :: 0 <= i < |s.buses| ==> BusAtRest(s.buses[i])
      ensures AllAtRest(s.regs)
    {
    }
  }

  lemma RestIsOff(b: Bus, cnt: nat)
    requires BusAtRest(b) && cnt > 0
    ensures BusOff(b, cnt) == b
  {
    assert Bandwidth(0 / cnt, 0) == None_ && Icc(None_) == None_;
    forall i | 0 <= i < |b.paths| ensures BusOff(b, cnt).paths[i] == b.paths[i] {
    }
  }
}
