/** The lease allocator in its own form: every notification of a lease device builds a list
    of objects, records it, re-pairs the primary planes and hands what is left over to the
    device that asked for nothing in particular. */
module LeaseManager {
  import opened LeaseFixup
  import opened LeasePlanes
  import opened LeaseTables
  import opened LeaseChoice

  /** How the calls outside the allocator end. */
  datatype Outcome = Outcome(created: bool, registered: bool)

  class Manager {
    const t: Tables
    const wanted: seq<Wanted>
    var possible: seq<set<nat>>
    var leases: seq<Lease>
    const mode: ModeConfig

    /** Leases are separate, short and free of duplicates; in the lease of every device that
        names connectors each connector has its own CRTC behind it and an encoder narrowed to
        that CRTC; planes and CRTCs are properly paired, inside each lease in order. */
    ghost predicate Valid()
      reads this, mode.planes, mode.crtcs
    {
      && mode.Valid() && mode.PlaneIds() == t.planes && mode.CrtcIds() == t.crtcs
      && |wanted| == |leases|
      && Kept(t, possible, leases, wanted, mode.View())
    }

    constructor (t: Tables, wanted: seq<Wanted>, possible: seq<set<nat>>, mode: ModeConfig)
      requires Sound(t) && |possible| == |t.isVirtual|
      requires mode.Valid() && mode.PlaneIds() == t.planes && mode.CrtcIds() == t.crtcs && Paired(mode.View())
      ensures Valid() && this.mode == mode && this.t == t && this.wanted == wanted
      ensures forall l :: 0 <= l < |leases| ==> leases[l] == Lease(false, [])
    {
      this.t, this.wanted, this.possible, this.mode := t, wanted, possible, mode;
      leases := seq(|wanted|, _ => Lease(false, []));
    }

    // ----- adding one object -----

    method AddPlane(name: string, ids: seq<nat>) returns (rc: int, out: seq<nat>)
      requires Sound(t)
      ensures rc != 0 ==> out == ids
      ensures rc == -EINVAL <==> |ids| >= MAX_LEASE_OBJECT_COUNT
      ensures |ids| < MAX_LEASE_OBJECT_COUNT ==>
                var k := IndexOf(t.planeNames, name);
                && (rc == -ENOENT <==> k == |t.planes|)
                && (rc == -EBUSY <==> k < |t.planes| && Taken(leases, ids, t.planes[k]))
                && (rc == 0 <==> k < |t.planes| && !Taken(leases, ids, t.planes[k]))
                && (rc == 0 ==> out == ids + [t.planes[k]])
      ensures Fresh(leases, ids) ==> Fresh(leases, out)
    {
      if |ids| >= MAX_LEASE_OBJECT_COUNT { return -EINVAL, ids; }
      var k := 0;
      while k < |t.planes| && t.planeNames[k] != name
        invariant k <= |t.planes| && name !in t.planeNames[..k]
      {
        k := k + 1;
      }
      assert k == IndexOf(t.planeNames, name);
      if k < |t.planes| && Taken(leases, ids, t.planes[k]) { return -EBUSY, ids; }
      if k == |t.planes| { return -ENOENT, ids; }
      if Fresh(leases, ids) { FreshGrows(leases, ids, t.planes[k]); }
      return 0, ids + [t.planes[k]];
    }

    /** The first CRTC the encoder may drive that nobody holds, or the number of CRTCs. */
    function FreeCrtc(mask: set<nat>, ids: seq<nat>, from: nat): (c: nat)
      requires from <= |t.crtcs|
      reads this
      ensures from <= c <= |t.crtcs|
      ensures c < |t.crtcs| ==> c in mask && !Taken(leases, ids, t.crtcs[c])
      ensures forall i :: from <= i < c && i in mask ==> Taken(leases, ids, t.crtcs[i])
      decreases |t.crtcs| - from
    {
      if from == |t.crtcs| || (from in mask && !Taken(leases, ids, t.crtcs[from])) then from
      else FreeCrtc(mask, ids, from + 1)
    }

    method AddConnector(name: string, ids: seq<nat>) returns (rc: int, out: seq<nat>)
      requires Sound(t) && |possible| == |t.isVirtual|
      modifies this`possible
      ensures |possible| == |t.isVirtual|
      ensures rc != 0 ==> out == ids && possible == old(possible)
      ensures rc == -EINVAL <==> |ids| >= MAX_LEASE_OBJECT_COUNT - 1
      ensures |ids| < MAX_LEASE_OBJECT_COUNT - 1 ==>
                var k := IndexOf(t.connectorNames, name);
                && (rc == -EBUSY <==> k < |t.connectors| && Taken(leases, ids, t.connectors[k].id))
                && (rc == 0 ==> k < |t.connectors| && t.connectors[k].encoder.Some?)
                && (rc == 0 <==> Available(old(possible), ids, k))
                && (rc == 0 ==>
                      var e := t.connectors[k].encoder.value;
                      var c := FreeCrtc(old(possible)[e], ids, 0);
                      out == ids + [t.connectors[k].id, t.crtcs[c]] && possible == old(possible)[e := {c}])
                && (rc == 0 || rc == -EBUSY || rc == -ENOENT)
    {
      if |ids| >= MAX_LEASE_OBJECT_COUNT - 1 { return -EINVAL, ids; }
      var k := 0;
      while k < |t.connectors| && t.connectorNames[k] != name
        invariant k <= |t.connectors| && name !in t.connectorNames[..k]
      {
        k := k + 1;
      }
      assert k == IndexOf(t.connectorNames, name);
      if k == |t.connectors| { return -ENOENT, ids; }
      var connector := t.connectors[k];
      if Taken(leases, ids, connector.id) { return -EBUSY, ids; }
      if connector.encoder.None? { return -ENOENT, ids; }
      var e := connector.encoder.value;
      var c := 0;
      while c < |t.crtcs| && (c !in possible[e] || Taken(leases, ids, t.crtcs[c]))
        invariant c <= |t.crtcs|
        invariant FreeCrtc(possible[e], ids, 0) == FreeCrtc(possible[e], ids, c)
      {
        c := c + 1;
      }
      if c == |t.crtcs| { return -ENOENT, ids; }
      possible := possible[e := {c}];
      return 0, ids + [connector.id, t.crtcs[c]];
    }

    ghost predicate Available(mask: seq<set<nat>>, ids: seq<nat>, k: nat)
      requires Sound(t) && |mask| == |t.isVirtual|
      reads this
    {
      && k < |t.connectors| && !Taken(leases, ids, t.connectors[k].id) && t.connectors[k].encoder.Some?
      && FreeCrtc(mask[t.connectors[k].encoder.value], ids, 0) < |t.crtcs|
    }

    // ----- adding named objects -----

    method AddPlanes(names: seq<string>, ids: seq<nat>) returns (rc: int, out: seq<nat>)
      requires Sound(t) && Fresh(leases, ids)
      ensures Fresh(leases, out) && ids <= out
      ensures rc == 0 <==> PlanesFit(t, leases, ids, names, |names|)
      ensures rc == 0 ==> |out| == |ids| + |names|
      ensures forall i :: |ids| <= i < |out| ==> Named(t.planeNames, t.planes, names, i - |ids|, out[i])
      ensures rc != 0 ==>
                var n := |out| - |ids|;
                n < |names| && PlanesFit(t, leases, ids, names, n) && !PlaneFits(t, leases, ids, names, n)
                && rc == PlaneCode(t, ids, names, n)
      ensures forall i :: |ids| <= i < |out| ==> out[i] in t.planes
    {
      hide Fresh, Taken;
      out := ids;
      for i := 0 to |names|
        invariant Fresh(leases, out) && ids <= out && |out| == |ids| + i
        invariant PlanesFit(t, leases, ids, names, i)
        invariant forall j :: |ids| <= j < |out| ==> Named(t.planeNames, t.planes, names, j - |ids|, out[j])
      {
        NextPlane(t, leases, ids, names, i, out);
        PlaneByIndex(t, leases, ids, names, i);
        rc, out := AddPlane(names[i], out);
        if rc != 0 { return; }
      }
      rc := 0;
    }

    static lemma PlaneByIndex(t: Tables, leases: seq<Lease>, held: seq<nat>, names: seq<string>, i: nat)
      requires Sound(t) && i < |names|
      ensures var k := IndexOf(t.planeNames, names[i]);
              && (PlaneFits(t, leases, held, names, i)
                  <==> |held| + i < MAX_LEASE_OBJECT_COUNT && k < |t.planes| && !Taken(leases, held, t.planes[k])
                       && !exists j :: 0 <= j < i && names[j] == names[i])
              && PlaneCode(t, held, names, i) == if |held| + i >= MAX_LEASE_OBJECT_COUNT then -EINVAL
                                                 else if k == |t.planes| then -ENOENT else -EBUSY
    {
    }

    method AddPaired(name: string, ids: seq<nat>) returns (rc: int, out: seq<nat>, ghost c: nat)
      requires Sound(t) && |possible| == |t.isVirtual| && Fresh(leases, ids)
      requires AllConnected(t, possible, leases, wanted) && Connected(t, possible, ids)
      modifies this`possible
      ensures |possible| == |t.isVirtual| && AllConnected(t, possible, leases, wanted)
      ensures Fresh(leases, out) && Connected(t, possible, out)
      ensures rc != 0 ==> out == ids && possible == old(possible)
      ensures rc != 0 ==> Refused(t, leases, name, ids, old(possible)) && rc == RefusalCode(t, leases, name, ids)
      ensures rc == 0 ==>
                && Chosen(t, leases, name, ids, old(possible), c) && c < |t.crtcs|
                && var k := IndexOf(t.connectorNames, name);
                   && k < |t.connectors| && t.connectors[k].encoder.Some?
                   && t.connectors[k].encoder.value < |possible| == |old(possible)|
                   && out == ids + [t.connectors[k].id, t.crtcs[c]]
                   && possible == old(possible)[t.connectors[k].encoder.value := {c}]
    {
      hide Fresh, AllConnected, Connected, Taken;
      ghost var before := possible;
      rc, out := AddConnector(name, ids);
      c := 0;
      if rc == 0 {
        ghost var k := IndexOf(t.connectorNames, name);
        c := FreeCrtc(before[t.connectors[k].encoder.value], ids, 0);
        ConnectorAdded(t, before, leases, wanted, ids, k, c);
      }
    }

    method AddConnectors(names: seq<string>, ids: seq<nat>) returns (rc: int, out: seq<nat>, ghost picks: seq<nat>)
      requires Sound(t) && |possible| == |t.isVirtual| && Fresh(leases, ids)
      requires AllConnected(t, possible, leases, wanted) && Connected(t, possible, ids)
      modifies this`possible
      ensures |possible| == |t.isVirtual| && AllConnected(t, possible, leases, wanted)
      ensures Fresh(leases, out) && Connected(t, possible, out)
      ensures ids <= out && |out| == |ids| + 2 * |picks| && |picks| <= |names|
      ensures forall j :: 0 <= j < |picks| ==> Named(t.connectorNames, ConnectorIds(t), names, j, out[|ids| + 2 * j])
      ensures forall j: nat :: j < |picks| ==> picks[j] < |t.crtcs| && out[|ids| + 2 * j + 1] == t.crtcs[picks[j]]
      ensures Built(t, ids, old(possible), names, picks, out, possible)
      ensures InTurn(t, leases, ids, old(possible), names, picks)
      ensures rc == 0 <==> ConnectorsFit(t, leases, ids, old(possible), names)
      ensures rc == 0 <==> |picks| == |names|
      ensures rc != 0 ==> Stuck(t, leases, ids, old(possible), names, picks)
                          && rc == ConnectorCode(t, leases, ids, names, |picks|)
    {
      hide Fresh, AllConnected, Connected, Sound, Named, ConnectorIds, Built, InTurn, Taken, Stuck, Chosen, Refused,
           ConnectorsFit, RefusalCode, ConnectorCode;
      out, picks := ids, [];
      NothingBuilt(t, leases, ids, possible, names);
      for i := 0 to |names|
        invariant |possible| == |t.isVirtual| && AllConnected(t, possible, leases, wanted)
        invariant Fresh(leases, out) && Connected(t, possible, out) && |picks| == i
        invariant Built(t, ids, old(possible), names, picks, out, possible)
        invariant InTurn(t, leases, ids, old(possible), names, picks)
      {
        ghost var before, list := possible, out;
        ghost var c;
        rc, out, c := AddPaired(names[i], out);
        BuiltNames(t, ids, old(possible), names, picks, list, before);
        if rc != 0 {
          NoneAdded(t, leases, ids, old(possible), names, picks, list, before);
          CodeOfRefusal(t, leases, ids, old(possible), names, picks, list, before);
          StuckIsUnfit(t, leases, ids, old(possible), names, picks);
          return;
        }
        Extended(t, leases, ids, old(possible), names, picks, list, before, c);
        picks := picks + [c];
      }
      rc := 0;
      BuiltNames(t, ids, old(possible), names, picks, out, possible);
      AllFit(t, leases, ids, old(possible), names, picks);
    }

    // ----- what is left over -----

    method AddRemainingPlanes() returns (out: seq<nat>)
      requires Sound(t)
      ensures Fresh(leases, out)
      ensures |out| < MAX_LEASE_OBJECT_COUNT ==> forall k :: 0 <= k < |t.planes| ==> Taken(leases, out, t.planes[k])
      ensures PlanePass(t, leases, out)
    {
      hide Sweep, Fresh, Taken, Passed, Ascending;
      out := [];
      EmptyIsFresh(leases);
      SoundParts(t);
      ghost var all := Below(|t.planes|);
      SweepBegins(t.planes, leases, [], all);
      var k := 0;
      while k < |t.planes| && |out| < MAX_LEASE_OBJECT_COUNT
        invariant k <= |t.planes| && Fresh(leases, out) && Sweep(t.planes, leases, [], out, k, all)
      {
        if !Taken(leases, out, t.planes[k]) {
          FreshGrows(leases, out, t.planes[k]);
          SweepAdds(t.planes, leases, [], out, k, all);
          out := out + [t.planes[k]];
        } else {
          SweepSkips(t.planes, leases, [], out, k, all);
        }
        k := k + 1;
      }
      SweepEnds(t.planes, leases, [], out, k, all);
      FreshIsNew(leases, out);
    }

    static lemma FreshIsNew(leases: seq<Lease>, ids: seq<nat>)
      requires Fresh(leases, ids)
      ensures forall i :: 0 <= i < |ids| ==> !Leased(leases, ids[i])
    {
    }

    /** No physical encoder may drive this CRTC and another one too. */
    predicate Dedicated(c: nat)
      requires |possible| == |t.isVirtual|
      reads this
    {
      forall e :: 0 <= e < |t.isVirtual| && !t.isVirtual[e] && c in possible[e] ==> possible[e] == {c}
    }

    /** Whether a physical encoder may drive the CRTC and others beside it. */
    method IsShared(c: nat) returns (found: bool)
      requires |possible| == |t.isVirtual|
      ensures found <==> exists e :: 0 <= e < |t.isVirtual| && !t.isVirtual[e] && c in possible[e] && possible[e] != {c}
      ensures found <==> !Dedicated(c)
    {
      for e := 0 to |t.isVirtual|
        invariant forall d :: 0 <= d < e && !t.isVirtual[d] && c in possible[d] ==> possible[d] == {c}
      {
        if t.isVirtual[e] { continue; }
        if c in possible[e] && possible[e] != {c} { return true; }
      }
      found := false;
    }

    /** One pass over the CRTCs: those with a primary plane, in the first pass only dedicated ones. */
    method AddCrtcs(dedicated: bool, mode: ModeConfig, ids: seq<nat>) returns (out: seq<nat>)
      requires Sound(t) && |possible| == |t.isVirtual| && Fresh(leases, ids)
      requires mode.Valid() && mode.CrtcIds() == t.crtcs
      ensures Fresh(leases, out) && ids <= out
      ensures |out| < MAX_LEASE_OBJECT_COUNT ==>
                forall c :: 0 <= c < |t.crtcs| && mode.crtcs[c].primary != null && (dedicated ==> Dedicated(c)) ==>
                  Taken(leases, out, t.crtcs[c])
      ensures CrtcPass(dedicated, mode, ids, out)
    {
      hide Sweep, Fresh, Taken, Passed, Ascending, Dedicated;
      out := ids;
      SoundParts(t);
      ghost var chosen := set c: nat | c < |t.crtcs| && mode.crtcs[c].primary != null && (dedicated ==> Dedicated(c));
      SweepBegins(t.crtcs, leases, ids, chosen);
      var c := 0;
      while c < |t.crtcs| && |out| < MAX_LEASE_OBJECT_COUNT
        invariant c <= |t.crtcs| && Fresh(leases, out) && Sweep(t.crtcs, leases, ids, out, c, chosen)
      {
        var shared := IsShared(c);
        if Taken(leases, out, t.crtcs[c]) || (dedicated && shared) || mode.crtcs[c].primary !in mode.planes {
          SweepSkips(t.crtcs, leases, ids, out, c, chosen);
        } else {
          FreshGrows(leases, out, t.crtcs[c]);
          SweepAdds(t.crtcs, leases, ids, out, c, chosen);
          out := out + [t.crtcs[c]];
        }
        c := c + 1;
      }
      SweepEnds(t.crtcs, leases, ids, out, c, chosen);
    }

    /** The CRTCs added to the list are the eligible ones nobody has, in order, as far as there is room. */
    ghost predicate CrtcPass(dedicated: bool, mode: ModeConfig, ids: seq<nat>, out: seq<nat>)
      requires |possible| == |t.isVirtual| && mode.CrtcIds() == t.crtcs
      reads this, mode.crtcs
    {
      && ids <= out && Ascending(t.crtcs, out, |ids|)
      && (forall i :: |ids| <= i < |out| ==> Eligible(dedicated, mode, out[i]))
      && (forall c: nat :: c < |t.crtcs| && mode.crtcs[c].primary != null && (dedicated ==> Dedicated(c)) ==>
            Passed(t.crtcs, leases, out, |ids|, c))
    }

    predicate Eligible(dedicated: bool, mode: ModeConfig, id: nat)
      requires |possible| == |t.isVirtual| && mode.CrtcIds() == t.crtcs
      reads this, mode.crtcs
    {
      var c := IndexOf(t.crtcs, id);
      c < |t.crtcs| && mode.crtcs[c].primary != null && (dedicated ==> Dedicated(c))
    }

    /** Some CRTC among the first n objects can be driven by the connector's encoder. */
    predicate Driven(ids: seq<nat>, n: nat, k: nat)
      requires Sound(t) && |possible| == |t.isVirtual| && n <= |ids| && k < |t.connectors|
      reads this
    {
      && t.connectors[k].encoder.Some?
      && exists i :: 0 <= i < n && var c := IndexOf(t.crtcs, ids[i]);
                     c < |t.crtcs| && c in possible[t.connectors[k].encoder.value]
    }

    /** Whether a CRTC of the list can be driven by the connector's encoder. */
    method HasCrtc(ids: seq<nat>, k: nat) returns (found: bool)
      requires Sound(t) && |possible| == |t.isVirtual| && k < |t.connectors|
      ensures found <==>
                t.connectors[k].encoder.Some?
                && exists i, c :: 0 <= i < |ids| && 0 <= c < |t.crtcs| && ids[i] == t.crtcs[c]
                                  && c in possible[t.connectors[k].encoder.value]
      ensures found <==> Driven(ids, |ids|, k)
    {
      if t.connectors[k].encoder.None? { return false; }
      SoundParts(t);
      var e := t.connectors[k].encoder.value;
      for i := 0 to |ids|
        invariant forall j :: 0 <= j < i ==>
                    IndexOf(t.crtcs, ids[j]) == |t.crtcs| || IndexOf(t.crtcs, ids[j]) !in possible[e]
      {
        var c := IndexOf(t.crtcs, ids[i]);
        if c == |t.crtcs| || c !in possible[e] { continue; }
        return true;
      }
      forall i, c | 0 <= i < |ids| && 0 <= c < |t.crtcs| && ids[i] == t.crtcs[c] ensures c !in possible[e] {
        IndexOfDistinct(t.crtcs, c);
      }
      found := false;
    }

    predicate DrivenId(ids: seq<nat>, n: nat, id: nat)
      requires Sound(t) && |possible| == |t.isVirtual| && n <= |ids|
      reads this
    {
      var k := IndexOf(ConnectorIds(t), id);
      k < |t.connectors| && Driven(ids, n, k)
    }

    method AddRemainingConnectors(ids: seq<nat>) returns (out: seq<nat>)
      requires Sound(t) && |possible| == |t.isVirtual| && Fresh(leases, ids)
      ensures Fresh(leases, out) && ids <= out
      ensures |out| < MAX_LEASE_OBJECT_COUNT ==>
                forall k :: 0 <= k < |t.connectors| && Driven(ids, |ids|, k) ==> Taken(leases, out, t.connectors[k].id)
      ensures forall i :: |ids| <= i < |out| ==> DrivenId(ids, |ids|, out[i])
      ensures ConnectorPass(ids, out)
    {
      hide Sweep, Fresh, Taken, Passed, Ascending, Driven;
      out := ids;
      SoundParts(t);
      ghost var chosen := set k: nat | k < |t.connectors| && Driven(ids, |ids|, k);
      SweepBegins(ConnectorIds(t), leases, ids, chosen);
      var k := 0;
      while k < |t.connectors| && |out| < MAX_LEASE_OBJECT_COUNT
        invariant k <= |t.connectors| && Fresh(leases, out) && Sweep(ConnectorIds(t), leases, ids, out, k, chosen)
      {
        var driven := HasCrtc(ids, k);
        if Taken(leases, out, t.connectors[k].id) || !driven {
          SweepSkips(ConnectorIds(t), leases, ids, out, k, chosen);
        } else {
          FreshGrows(leases, out, t.connectors[k].id);
          SweepAdds(ConnectorIds(t), leases, ids, out, k, chosen);
          out := out + [t.connectors[k].id];
        }
        k := k + 1;
      }
      SweepEnds(ConnectorIds(t), leases, ids, out, k, chosen);
    }

    /** The connectors added to the list are those a CRTC of it can serve and nobody has, in order,
        as far as there is room. */
    ghost predicate ConnectorPass(ids: seq<nat>, out: seq<nat>)
      requires Sound(t) && |possible| == |t.isVirtual|
      reads this
    {
      && ids <= out && Ascending(ConnectorIds(t), out, |ids|)
      && (forall i :: |ids| <= i < |out| ==> DrivenId(ids, |ids|, out[i]))
      && (forall k: nat :: k < |t.connectors| && Driven(ids, |ids|, k) ==>
            Passed(ConnectorIds(t), leases, out, |ids|, k))
    }

    // ----- notifications -----

    /** msm_lease_parse_objs: it succeeds exactly if the device can have what it names, and the
        code of a failure is that of the first obstacle. */
    method ParseObjs(w: Wanted) returns (rc: int, out: seq<nat>, ghost picks: seq<nat>)
      requires Sound(t) && |possible| == |t.isVirtual| && AllConnected(t, possible, leases, wanted)
      modifies this`possible
      ensures |possible| == |t.isVirtual| && AllConnected(t, possible, leases, wanted)
      ensures Fresh(leases, out) && Connected(t, possible, out)
      ensures rc == 0 <==> Parses(t, leases, old(possible), w)
      ensures rc != 0 ==> ParseCode(t, leases, old(possible), w, rc)
      ensures rc == 0 ==> if w.planes == [] || w.connectors == [] then out == [] else Listed(w, out)
      ensures rc == 0 && w.planes != [] && w.connectors != [] ==>
                |picks| == |w.connectors| && InTurn(t, leases, out[..|w.planes|], old(possible), w.connectors, picks)
                && Built(t, out[..|w.planes|], old(possible), w.connectors, picks, out, possible)
                && forall j: nat :: j < |picks| ==>
                     picks[j] < |t.crtcs| && out[|w.planes| + 2 * j + 1] == t.crtcs[picks[j]]
    {
      hide Fresh, AllConnected, Connected, InTurn, Built, ConnectorsFit, Stuck, ConnectorCode, Sound, PlanesFit,
           PlaneFits, PlaneCode;
      out, picks := [], [];
      EmptyIsFresh(leases);
      PlanesAreConnected(t, possible, []);
      if w.planes == [] { return 0, [], []; }
      rc, out := AddPlanes(w.planes, []);
      PlanesAreConnected(t, possible, out);
      if rc != 0 { return; }
      if w.connectors == [] { return 0, [], []; }
      if |w.connectors| > |out| { return -EINVAL, out, []; }
      ghost var planes := out;
      assert NamedPlanes(t, w.planes, planes);
      rc, out, picks := AddConnectors(w.connectors, out);
      assert out[..|w.planes|] == planes;
      OnlyThesePlanes(t, leases, old(possible), w, planes);
    }

    /** For planes that fit and connectors that are not more, all depends on the connectors. */
    static lemma OnlyThesePlanes(t: Tables, leases: seq<Lease>, mask: seq<set<nat>>, w: Wanted, held: seq<nat>)
      requires NamedPlanes(t, w.planes, held) && PlanesFit(t, leases, [], w.planes, |w.planes|)
      requires w.planes != [] && w.connectors != [] && |w.connectors| <= |w.planes|
      ensures Parses(t, leases, mask, w) <==> ConnectorsFit(t, leases, held, mask, w.connectors)
    {
      hide ConnectorsFit, PlanesFit;
      if Parses(t, leases, mask, w) {
        var other :| NamedPlanes(t, w.planes, other) && ConnectorsFit(t, leases, other, mask, w.connectors);
        NamedPlanesOnce(t, w.planes, held, other);
      }
    }

    /** The objects of the named planes, then each named connector followed by its CRTC. */
    predicate Listed(w: Wanted, ids: seq<nat>) {
      && |ids| == |w.planes| + 2 * |w.connectors|
      && (forall i :: 0 <= i < |w.planes| ==> Named(t.planeNames, t.planes, w.planes, i, ids[i]))
      && (forall j :: 0 <= j < |w.connectors| ==>
            Named(t.connectorNames, ConnectorIds(t), w.connectors, j, ids[|w.planes| + 2 * j]))
    }

    /** The j-th named connector of a list stands before the one CRTC its encoder may drive. */
    lemma ListedArePairs(w: Wanted, ids: seq<nat>, j: nat)
      requires Listed(w, ids) && Connected(t, possible, ids) && j < |w.connectors|
      ensures PairAt(t, possible, ids, |w.planes| + 2 * j)
    {
      assert Named(t.connectorNames, ConnectorIds(t), w.connectors, j, ids[|w.planes| + 2 * j]);
    }

    method Refix(ids: seq<nat>)
      requires mode.Valid() && mode.PlaneIds() == t.planes && mode.CrtcIds() == t.crtcs
      modifies mode.planes, mode.crtcs
      ensures mode.Valid() && mode.View() == Refixed(t, old(mode.View()), ids)
    {
      hide Fixup, Shape;
      mode.FixupCrtcPrimary(ids);
    }

    method Record(l: nat, ids: seq<nat>)
      requires Valid() && l < |leases| && Fresh(leases, ids)
      requires wanted[l].connectors != [] ==> Connected(t, possible, ids)
      modifies this`leases, mode.planes, mode.crtcs
      ensures Valid() && leases == old(leases)[l := Lease(true, ids)]
      ensures mode.View() == Refixed(t, old(mode.View()), ids)
    {
      hide Kept, Fresh, Connected, Refixed, ModeConfig.View, ModeConfig.Valid;
      RecordKeeps(t, possible, leases, wanted, mode.View(), l, ids);
      Refix(ids);
      leases := leases[l := Lease(true, ids)];
    }

    /** Nothing the device offers is left over, unless the list is full. */
    ghost predicate NothingLeft(w: Wanted, ids: seq<nat>)
      requires Sound(t) && |possible| == |t.isVirtual|
      reads this
    {
      |ids| < MAX_LEASE_OBJECT_COUNT ==>
        && (w.planes == [] ==> forall k :: 0 <= k < |t.planes| ==> Taken(leases, ids, t.planes[k]))
        && (w.connectors == [] ==> NoneServed(ids))
    }

    /** Every CRTC and every connector that a CRTC of the list can serve is taken. */
    ghost predicate NoneServed(ids: seq<nat>)
      requires Sound(t) && |possible| == |t.isVirtual|
      reads this
    {
      && (forall c :: 0 <= c < |t.crtcs| ==> Taken(leases, ids, t.crtcs[c]))
      && (forall k, c :: 0 <= k < |t.connectors| && 0 <= c < |t.crtcs| && Serves(k, c) && t.crtcs[c] in ids ==>
            Taken(leases, ids, t.connectors[k].id))
    }

    predicate Serves(k: nat, c: nat)
      requires Sound(t) && |possible| == |t.isVirtual| && k < |t.connectors|
      reads this
    {
      t.connectors[k].encoder.Some? && c in possible[t.connectors[k].encoder.value]
    }

    /** A list with connectors named for it: n planes, then named connectors with their CRTCs. */
    ghost predicate NamedFrom(w: Wanted, ids: seq<nat>, n: nat, added: nat) {
      && |ids| == n + 2 * added && added <= |w.connectors|
      && (forall i :: 0 <= i < n ==> ids[i] in t.planes)
      && forall j :: 0 <= j < added ==> Named(t.connectorNames, ConnectorIds(t), w.connectors, j, ids[n + 2 * j])
    }

    ghost predicate NamedRest(w: Wanted, ids: seq<nat>) {
      exists n, added :: NamedFrom(w, ids, n, added)
    }

    /** The objects that the remainder pass gives to a device that wants w. */
    method CollectRemainder(w: Wanted) returns (ids: seq<nat>)
      requires Sound(t) && |possible| == |t.isVirtual| && AllConnected(t, possible, leases, wanted)
      requires mode.Valid() && mode.CrtcIds() == t.crtcs
      requires forall c :: c in mode.crtcs ==> c.primary != null
      modifies this`possible
      ensures |possible| == |t.isVirtual| && AllConnected(t, possible, leases, wanted)
      ensures Fresh(leases, ids) && NothingLeft(w, ids)
      ensures w.connectors != [] ==> Connected(t, possible, ids) && NamedRest(w, ids)
      ensures w.connectors != [] ==> RestIsNamed(t, leases, old(possible), w, ids, possible)
      ensures w.connectors == [] ==> possible == old(possible) && RestIsImplied(w, ids)
    {
      hide Fresh, AllConnected, Connected, Sound, NamedFrom, Named, NoneServed, StartOf, Built, InTurn, Stuck, CrtcPass,
           ConnectorPass, ConnectorsFit, ConnectorCode;
      EmptyIsFresh(leases);
      var start := CollectPlanes(w);
      ids := start;
      if w.connectors != [] {
        ghost var picks;
        var rc;
        PlanesAreConnected(t, possible, start);
        rc, ids, picks := AddConnectors(w.connectors, ids);
        TakenGrows(start, ids);
        RestNamed(w, start, ids, |picks|);
      } else {
        ids := CollectImplied(start);
        TakenGrows(start, ids);
      }
    }

    /** The planes of the remainder: those named, up to the first obstacle, or all that are left. */
    method CollectPlanes(w: Wanted) returns (start: seq<nat>)
      requires Sound(t)
      ensures Fresh(leases, start) && StartOf(t, leases, w, start)
      ensures forall i :: 0 <= i < |start| ==> start[i] in t.planes
      ensures w.planes == [] && |start| < MAX_LEASE_OBJECT_COUNT ==>
                forall k :: 0 <= k < |t.planes| ==> Taken(leases, start, t.planes[k])
    {
      hide Sound, PlanesFit, PlaneFits, Taken;
      EmptyIsFresh(leases);
      if w.planes != [] {
        var rc;
        rc, start := AddPlanes(w.planes, []);
      } else {
        start := AddRemainingPlanes();
      }
    }

    /** The CRTCs and connectors for a device that names none. */
    method CollectImplied(start: seq<nat>) returns (ids: seq<nat>)
      requires Sound(t) && |possible| == |t.isVirtual| && Fresh(leases, start)
      requires mode.Valid() && mode.CrtcIds() == t.crtcs
      requires forall c :: c in mode.crtcs ==> c.primary != null
      ensures Fresh(leases, ids) && start <= ids
      ensures |ids| < MAX_LEASE_OBJECT_COUNT ==> NoneServed(ids)
      ensures Implied(start, ids)
    {
      hide Fresh, Sound, Dedicated, Driven, Eligible, CrtcPass, ConnectorPass;
      var first := AddCrtcs(true, mode, start);
      var all := AddCrtcs(false, mode, first);
      ids := AddRemainingConnectors(all);
      TakenGrows(all, ids);
      forall k, c | 0 <= k < |t.connectors| && 0 <= c < |t.crtcs| && Serves(k, c) && t.crtcs[c] in ids
        ensures |ids| < MAX_LEASE_OBJECT_COUNT ==> Taken(leases, ids, t.connectors[k].id)
      {
        ServedIsDriven(all, ids, k, c);
      }
    }

    /** Dedicated CRTCs come first, then the others, then the connectors they can serve. */
    ghost predicate Implied(start: seq<nat>, ids: seq<nat>)
      requires Sound(t) && |possible| == |t.isVirtual| && mode.CrtcIds() == t.crtcs
      reads this, mode.crtcs
    {
      exists first, all ::
        CrtcPass(true, mode, start, first) && CrtcPass(false, mode, first, all) && ConnectorPass(all, ids)
    }

    ghost predicate RestIsImplied(w: Wanted, ids: seq<nat>)
      requires Sound(t) && |possible| == |t.isVirtual| && mode.CrtcIds() == t.crtcs
      reads this, mode.crtcs
    {
      exists start :: StartOf(t, leases, w, start) && Implied(start, ids)
    }

    lemma RestNamed(w: Wanted, start: seq<nat>, ids: seq<nat>, added: nat)
      requires start <= ids && |ids| == |start| + 2 * added && added <= |w.connectors|
      requires forall i :: 0 <= i < |start| ==> start[i] in t.planes
      requires forall j :: 0 <= j < added ==>
                 Named(t.connectorNames, ConnectorIds(t), w.connectors, j, ids[|start| + 2 * j])
      ensures NamedRest(w, ids)
    {
      hide Named;
      assert forall i :: 0 <= i < |start| ==> ids[i] == start[i];
      assert NamedFrom(w, ids, |start|, added);
    }

    lemma TakenGrows(ids: seq<nat>, more: seq<nat>)
      requires ids <= more
      ensures forall x :: Taken(leases, ids, x) ==> Taken(leases, more, x)
    {
    }

    /** Every CRTC of the final list was there before the connectors. */
    lemma ServedIsDriven(all: seq<nat>, ids: seq<nat>, k: nat, c: nat)
      requires Sound(t) && |possible| == |t.isVirtual| && k < |t.connectors| && c < |t.crtcs|
      requires all <= ids && forall i :: |all| <= i < |ids| ==> DrivenId(all, |all|, ids[i])
      requires Serves(k, c) && t.crtcs[c] in ids
      ensures Driven(all, |all|, k)
    {
      SoundParts(t);
      var i :| 0 <= i < |ids| && ids[i] == t.crtcs[c];
      assert IndexOf(ConnectorIds(t), ids[i]) == |t.connectors|;
      IndexOfDistinct(t.crtcs, c);
    }

    /** msm_lease_parse_remain_objs. */
    method ParseRemainder()
      requires Valid()
      modifies this`possible, this`leases, mode.planes, mode.crtcs
      ensures Valid()
      ensures var target := Target(old(leases));
              if target.None? then leases == old(leases) && possible == old(possible) && mode.View() == old(mode.View())
              else
                var l := target.value;
                && l < |leases| && leases == old(leases)[l := Lease(true, leases[l].ids)]
                && |possible| == |t.isVirtual| && NothingLeft(wanted[l], leases[l].ids)
                && (wanted[l].connectors != [] ==> NamedRest(wanted[l], leases[l].ids))
                && (wanted[l].connectors != [] ==>
                      RestIsNamed(t, old(leases), old(possible), wanted[l], leases[l].ids, possible))
                && (wanted[l].connectors == [] ==>
                      var ids := leases[l].ids; possible == old(possible) && old(RestIsImplied(wanted[l], ids)))
                && mode.View() == Refixed(t, old(mode.View()), leases[l].ids)
    {
      var target := Target(leases);
      if target.None? { return; }
      var l := target.value;
      hide Kept, Fresh, AllConnected, Connected, Refixed, NothingLeft, NamedRest, RestIsNamed, RestIsImplied,
           ModeConfig.View, ModeConfig.Valid;
      AllHavePrimaries();
      KeptMeans(t, possible, leases, wanted, mode.View());
      ghost var was := possible;
      var ids := CollectRemainder(wanted[l]);
      NarrowedKept(t, was, possible, leases, wanted, mode.View());
      TakeRest(l, ids);
    }

    lemma AllHavePrimaries()
      requires Valid()
      ensures forall c :: c in mode.crtcs ==> c.primary != null
    {
      hide Separate, AllConnected, Owns, Owned;
      forall c | c in mode.crtcs ensures c.primary != null {
        assert mode.View().primary[c.index] != None;
      }
    }

    method TakeRest(l: nat, ids: seq<nat>)
      requires Valid() && l < |leases| && Fresh(leases, ids)
      requires wanted[l].connectors != [] ==> Connected(t, possible, ids)
      requires |possible| == |t.isVirtual| && NothingLeft(wanted[l], ids) && leases[l] == Lease(true, [])
      modifies this`leases, mode.planes, mode.crtcs
      ensures Valid() && leases == old(leases)[l := Lease(true, ids)]
      ensures mode.View() == Refixed(t, old(mode.View()), ids)
      ensures |possible| == |t.isVirtual| && NothingLeft(wanted[l], ids)
    {
      hide Kept, Fresh, Connected, Refixed, ModeConfig.View, ModeConfig.Valid;
      ghost var before := leases;
      Record(l, ids);
      forall x: nat | Taken(before, ids, x) ensures Taken(leases, ids, x) {
        assert forall m :: 0 <= m < |leases| && m != l ==> leases[m] == before[m];
      }
    }

    /** msm_lease_notifier: lease l is told that the objects of the device exist.  A list that
        cannot be built is an error that leaves all leases and planes alone; one that can holds
        the named planes and each named connector with a CRTC of its own behind it, the only one
        its encoder may drive from then on. */
    method Notify(l: nat, o: Outcome) returns (rc: int, ghost ids: seq<nat>)
      requires Valid() && l < |leases|
      modifies this`possible, this`leases, mode.planes, mode.crtcs
      ensures Valid()
      ensures !o.created || (o.registered && rc != 0) ==> leases == old(leases) && mode.View() == old(mode.View())
      ensures o.created && !o.registered ==>
                rc != 0 && (leases == old(leases) || leases == old(leases)[l := Lease(true, ids)])
      ensures rc == 0 <==> old(Parses(t, leases, possible, wanted[l])) && (o.created ==> o.registered)
      ensures !old(Parses(t, leases, possible, wanted[l])) ==>
                ParseCode(t, old(leases), old(possible), wanted[l], rc) && leases == old(leases)
      ensures rc == 0 && o.created && o.registered ==>
                && Fresh(old(leases), ids)
                && (if wanted[l].planes == [] || wanted[l].connectors == [] then ids == [] else Listed(wanted[l], ids))
                && var mid := old(leases)[l := Lease(true, ids)];
                   match Target(mid)
                   case None => leases == mid
                   case Some(m) => leases == mid[m := Lease(true, leases[m].ids)] && |possible| == |t.isVirtual|
                                   && NothingLeft(wanted[m], leases[m].ids)
                                   && (wanted[m].connectors != [] ==> NamedRest(wanted[m], leases[m].ids))
      ensures rc == 0 && o.created && o.registered && wanted[l].planes != [] && wanted[l].connectors != [] ==>
                leases[l].ids == ids && PairedUp(wanted[l], ids)
    {
      hide Kept, Fresh, Connected, Refixed, Listed, NothingLeft, NamedRest, RestIsNamed, RestIsImplied, Parses,
           ParseCode, InTurn, ModeConfig.View, ModeConfig.Valid;
      var list;
      KeptMeans(t, possible, leases, wanted, mode.View());
      ghost var was, picks := possible, [];
      rc, list, picks := ParseObjs(wanted[l]);
      ids := list;
      NarrowedKept(t, was, possible, leases, wanted, mode.View());
      if rc != 0 || !o.created { return; }
      Record(l, list);
      if !o.registered { return -EINVAL, ids; }
      if wanted[l].planes != [] && wanted[l].connectors != [] {
        ListedIsLong(wanted[l], ids);
        ParseRemainder();
        OwnPairs(l, ids);
      } else {
        ParseRemainder();
      }
    }

    /** Every named connector stands before its CRTC. */
    ghost predicate PairedUp(w: Wanted, ids: seq<nat>)
      reads this
    {
      forall j: nat :: j < |w.connectors| ==> PairAt(t, possible, ids, |w.planes| + 2 * j)
    }

    lemma ListedIsLong(w: Wanted, ids: seq<nat>)
      requires Listed(w, ids) && w.planes != []
      ensures ids != []
    {
    }

    lemma OwnPairs(l: nat, ids: seq<nat>)
      requires Valid() && l < |leases| && wanted[l].planes != [] && wanted[l].connectors != [] && Listed(wanted[l], ids)
      requires leases[l].ids == ids
      ensures PairedUp(wanted[l], ids)
    {
      forall j: nat | j < |wanted[l].connectors| ensures PairAt(t, possible, ids, |wanted[l].planes| + 2 * j) {
        ListedArePairs(wanted[l], ids, j);
      }
    }

    /** Any notifications in any order: besides everything in Valid, spelled out, each connector
        in the lease of a device that names connectors is followed by its own CRTC. */
    method NotifyAll(events: seq<(nat, Outcome)>)
      requires Valid() && forall i :: 0 <= i < |events| ==> events[i].0 < |wanted|
      modifies this`possible, this`leases, mode.planes, mode.crtcs
      ensures Valid()
      ensures forall l: nat, i: nat ::
                l < |leases| && wanted[l].connectors != [] && i < |leases[l].ids| && leases[l].ids[i] in ConnectorIds(t)
                ==> PairAt(t, possible, leases[l].ids, i)
    {
      for i := 0 to |events|
        invariant Valid()
      {
        var rc, ids := Notify(events[i].0, events[i].1);
      }
    }
  }
}
