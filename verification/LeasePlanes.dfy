/** The primary-plane fix-up in its own form: plane and CRTC objects whose type and primary
    fields the passes update in place, proved to compute LeaseFixup.Fixup. */
module LeasePlanes {
  import opened LeaseFixup

  class Plane {
    const index: nat
    const id: nat
    var kind: PlaneType

    constructor (index: nat, id: nat, kind: PlaneType)
      ensures this.index == index && this.id == id && this.kind == kind
    {
      this.index, this.id, this.kind := index, id, kind;
    }
  }

  class Crtc {
    const index: nat
    const id: nat
    var primary: Plane?

    constructor (index: nat, id: nat, primary: Plane?)
      ensures this.index == index && this.id == id && this.primary == primary
    {
      this.index, this.id, this.primary := index, id, primary;
    }
  }

  /** The planes of a device that are among the given objects, in the order of the ids. */
  function Found(table: seq<nat>, ids: seq<nat>): (r: seq<nat>)
    ensures forall i :: 0 <= i < |r| ==> r[i] < |table| && table[r[i]] in ids
  {
    if ids == [] then []
    else
      var n := |ids| - 1;
      var k := IndexOf(table, ids[n]);
      Found(table, ids[..n]) + if k < |table| then [k] else []
  }

  lemma FoundOne(table: seq<nat>, ids: seq<nat>, i: nat)
    requires i < |ids|
    ensures Found(table, ids[..i + 1]) ==
            Found(table, ids[..i]) + if IndexOf(table, ids[i]) < |table| then [IndexOf(table, ids[i])] else []
  {
    assert ids[..i + 1][..i] == ids[..i];
  }

  lemma FoundNone(table: seq<nat>)
    ensures Found(table, []) == []
  {
  }

  lemma {:induction false} FoundDistinct(table: seq<nat>, ids: seq<nat>)
    requires Distinct(ids)
    ensures Distinct(Found(table, ids))
  {
    if ids != [] {
      var n := |ids| - 1;
      FoundDistinct(table, ids[..n]);
      assert ids[n] !in ids[..n];
    }
  }

  /** They are all that are among the ids, each before those whose ids come later. */
  lemma FoundIsAll(table: seq<nat>, ids: seq<nat>)
    requires Distinct(table) && Distinct(ids)
    ensures var r := Found(table, ids);
            && (forall p: nat :: p < |table| ==> (p in r <==> table[p] in ids))
            && (forall i, j :: 0 <= i < j < |r| ==> IndexOf(ids, table[r[i]]) < IndexOf(ids, table[r[j]]))
  {
    FoundMembers(table, ids);
    FoundOrder(table, ids);
  }

  lemma {:induction false} FoundMembers(table: seq<nat>, ids: seq<nat>)
    requires Distinct(table)
    ensures forall p: nat :: p < |table| ==> (p in Found(table, ids) <==> table[p] in ids)
  {
    if ids != [] {
      var n := |ids| - 1;
      var front := ids[..n];
      FoundMembers(table, front);
      assert ids == front + [ids[n]];
      forall p: nat | p < |table| ensures p in Found(table, ids) <==> table[p] in ids {
        if table[p] == ids[n] { IndexOfOnly(table, p); }
      }
    }
  }

  lemma {:induction false} FoundOrder(table: seq<nat>, ids: seq<nat>)
    requires Distinct(ids)
    ensures var r := Found(table, ids);
            forall i, j :: 0 <= i < j < |r| ==> IndexOf(ids, table[r[i]]) < IndexOf(ids, table[r[j]])
  {
    if ids != [] {
      var n := |ids| - 1;
      var front := ids[..n];
      var before, r := Found(table, front), Found(table, ids);
      FoundOrder(table, front);
      assert ids == front + [ids[n]];
      IndexOfLast(ids);
      hide IndexOf, Distinct, Found;
      forall i | 0 <= i < |before| ensures IndexOf(ids, table[before[i]]) == IndexOf(front, table[before[i]]) < n {
        FirstStays(front, ids[n], table[before[i]]);
      }
      FoundLast(table, ids);
    }
  }

  lemma FoundLast(table: seq<nat>, ids: seq<nat>)
    requires ids != []
    ensures var n := |ids| - 1;
            var before, r := Found(table, ids[..n]), Found(table, ids);
            || r == before
            || (|r| == |before| + 1 && before <= r && r[|before|] < |table| && table[r[|before|]] == ids[n])
  {
  }

  lemma FirstStays(s: seq<nat>, y: nat, x: nat)
    requires x in s
    ensures IndexOf(s + [y], x) == IndexOf(s, x) < |s|
  {
    var k := IndexOf(s + [y], x);
    var m := IndexOf(s, x);
    assert (s + [y])[m] == x;
    assert forall q :: 0 <= q < m ==> s[..m][q] == (s + [y])[q];
    assert forall q :: 0 <= q < k ==> (s + [y])[..k][q] == (s + [y])[q];
  }

  lemma IndexOfLast(ids: seq<nat>)
    requires ids != [] && Distinct(ids)
    ensures IndexOf(ids, ids[|ids| - 1]) == |ids| - 1
  {
  }

  lemma IndexOfOnly(table: seq<nat>, p: nat)
    requires Distinct(table) && p < |table|
    ensures IndexOf(table, table[p]) == p
  {
  }

  class ModeConfig {
    const planes: seq<Plane>
    const crtcs: seq<Crtc>

    ghost predicate Valid()
      reads planes, crtcs
    {
      && (forall i :: 0 <= i < |planes| ==> planes[i].index == i)
      && (forall j :: 0 <= j < |crtcs| ==> crtcs[j].index == j)
      && (forall j :: 0 <= j < |crtcs| && crtcs[j].primary != null ==> crtcs[j].primary in planes)
    }

    ghost function View(): (c: Config)
      reads planes, crtcs
      requires Valid()
      ensures Shape(c) && |c.types| == |planes| && |c.primary| == |crtcs|
    {
      Config(seq(|planes|, i requires 0 <= i < |planes| reads planes => planes[i].kind),
             seq(|crtcs|, j requires 0 <= j < |crtcs| reads crtcs =>
               if crtcs[j].primary == null then None else Some(crtcs[j].primary.index)))
    }

    function PlaneIds(): (s: seq<nat>)
      ensures |s| == |planes| && forall i :: 0 <= i < |planes| ==> s[i] == planes[i].id
    {
      seq(|planes|, i requires 0 <= i < |planes| => planes[i].id)
    }

    function CrtcIds(): (s: seq<nat>)
      ensures |s| == |crtcs| && forall j :: 0 <= j < |crtcs| ==> s[j] == crtcs[j].id
    {
      seq(|crtcs|, j requires 0 <= j < |crtcs| => crtcs[j].id)
    }

    method SetKind(p: Plane, kind: PlaneType)
      requires Valid() && p in planes
      modifies planes, crtcs
      ensures Valid() && p.kind == kind
      ensures View() == Config(old(View()).types[p.index := kind], old(View()).primary)
      ensures forall c :: c in crtcs ==> c.primary == old(c.primary)
    {
      p.kind := kind;
      assert View().primary == old(View()).primary;
    }

    method SetPrimary(c: Crtc, p: Plane?)
      requires Valid() && c in crtcs && (p != null ==> p in planes)
      modifies planes, crtcs
      ensures Valid() && c.primary == p
      ensures View() == Config(old(View()).types,
                               old(View()).primary[c.index := if p == null then None else Some(p.index)])
    {
      c.primary := p;
      assert View().types == old(View()).types;
    }

    /** The leased planes and CRTCs among the object ids. */
    method Collect(ids: seq<nat>) returns (ps: seq<Plane>, cs: seq<Crtc>)
      requires Valid()
      ensures (forall p :: p in ps ==> p in planes) && (forall c :: c in cs ==> c in crtcs)
      ensures Indices(ps) == Found(PlaneIds(), ids) && CrtcIndices(cs) == Found(CrtcIds(), ids)
    {
      hide Found, IndexOf;
      ps, cs := [], [];
      FoundNone(PlaneIds());
      FoundNone(CrtcIds());
      var planeIds, crtcIds := PlaneIds(), CrtcIds();
      for i := 0 to |ids|
        invariant (forall p :: p in ps ==> p in planes) && (forall c :: c in cs ==> c in crtcs)
        invariant i == 0 ==> ids[..i] == []
        invariant Indices(ps) == Found(PlaneIds(), ids[..i]) && CrtcIndices(cs) == Found(CrtcIds(), ids[..i])
      {
        FoundOne(planeIds, ids, i);
        FoundOne(crtcIds, ids, i);
        var k := IndexOf(planeIds, ids[i]);
        if k < |planes| { ps := ps + [planes[k]]; }
        var j := IndexOf(crtcIds, ids[i]);
        if j < |crtcs| { cs := cs + [crtcs[j]]; }
      }
      assert ids[..|ids|] == ids;
    }

    /** Pass one: leased primary planes lose their CRTCs. */
    method ResetPrimaries(ps: seq<Plane>)
      requires Valid() && forall p :: p in ps ==> p in planes
      modifies planes, crtcs
      ensures Valid() && PlanesOf(old(View()), Indices(ps))
      ensures View() == Reset(old(View()), Indices(ps), |ps|)
    {
      PlacedIndices(ps);
      for i := 0 to |ps|
        invariant Valid() && View() == Reset(old(View()), Indices(ps), i)
      {
        if ps[i].kind == Primary { Release(ps[i]); }
      }
    }

    method Release(p: Plane)
      requires Valid() && p in planes && p.kind == Primary
      modifies planes, crtcs
      ensures Valid() && View() == ResetOne(old(View()), p.index)
    {
      var j := 0;
      while j < |crtcs| && crtcs[j].primary != p
        invariant j <= |crtcs|
        invariant Some(p.index) !in View().primary[..j]
      {
        j := j + 1;
      }
      assert j == IndexOf(View().primary, Some(p.index)) by {
        assert j < |crtcs| ==> View().primary[j] == Some(p.index);
      }
      if j < |crtcs| { SetPrimary(crtcs[j], null); }
      SetKind(p, Overlay);
    }

    /** Pass two: the leased CRTCs get the leased planes in order. */
    method SetUpPrimaries(cs: seq<Crtc>, ps: seq<Plane>)
      requires Valid() && (forall p :: p in ps ==> p in planes) && (forall c :: c in cs ==> c in crtcs)
      modifies planes, crtcs
      ensures Valid() && PlanesOf(old(View()), Indices(ps)) && CrtcsOf(old(View()), CrtcIndices(cs))
      ensures View() == Pair(old(View()), CrtcIndices(cs), Indices(ps), Min(|cs|, |ps|))
    {
      PlacedIndices(ps);
      PlacedCrtcs(cs);
      var i := 0;
      while i < |cs| && i < |ps|
        invariant i <= |cs| && i <= |ps|
        invariant Valid() && View() == Pair(old(View()), CrtcIndices(cs), Indices(ps), i)
      {
        assert cs[i] in cs && ps[i] in ps;
        PairUp(cs[i], ps[i]);
        i := i + 1;
      }
    }

    method PairUp(c: Crtc, p: Plane)
      requires Valid() && c in crtcs && p in planes
      modifies planes, crtcs
      ensures Valid() && c.index < |crtcs| && p.index < |planes|
      ensures View() == PairOne(old(View()), c.index, p.index)
    {
      if c.primary != null { SetKind(c.primary, Overlay); }
      SetPrimary(c, p);
      SetKind(p, Primary);
    }

    method Supply(c: Crtc)
      requires Valid() && c in crtcs && c.primary == null
      modifies planes, crtcs
      ensures Valid() && c.index < |crtcs| && View() == FillOne(old(View()), c.index)
    {
      var j := 0;
      while j < |planes| && planes[j].kind != Overlay
        invariant j <= |planes|
        invariant Overlay !in View().types[..j]
      {
        j := j + 1;
      }
      assert j == IndexOf(View().types, Overlay) by {
        assert j < |planes| ==> View().types[j] == Overlay;
      }
      if j < |planes| {
        SetPrimary(c, planes[j]);
        SetKind(planes[j], Primary);
      }
    }

    /** Pass three: CRTCs without a primary get the overlays that are left. */
    method AssignPrimaries()
      requires Valid()
      modifies planes, crtcs
      ensures Valid() && View() == Fill(old(View()), |crtcs|)
    {
      for i := 0 to |crtcs|
        invariant Valid() && View() == Fill(old(View()), i)
      {
        if crtcs[i].primary == null { Supply(crtcs[i]); }
      }
    }

    /** msm_lease_fixup_crtc_primary. */
    method FixupCrtcPrimary(ids: seq<nat>)
      requires Valid()
      modifies planes, crtcs
      ensures Valid()
      ensures FoundPlaced(ids)
      ensures View() == if ids == [] then old(View())
                        else Fixup(old(View()), Found(CrtcIds(), ids), Found(PlaneIds(), ids))
    {
      hide Reset, Pair, Fill, Found, Shape, PlanesOf, CrtcsOf;
      FoundPlaces(ids);
      if ids == [] { return; }
      var ps, cs := Collect(ids);
      ResetPrimaries(ps);
      SetUpPrimaries(cs, ps);
      AssignPrimaries();
      FoundPlaces(ids);
    }

    ghost predicate FoundPlaced(ids: seq<nat>)
      reads planes, crtcs
      requires Valid()
    {
      PlanesOf(View(), Found(PlaneIds(), ids)) && CrtcsOf(View(), Found(CrtcIds(), ids))
    }

    lemma FoundPlaces(ids: seq<nat>)
      requires Valid()
      ensures FoundPlaced(ids)
    {
    }

    lemma PlacedIndices(ps: seq<Plane>)
      requires Valid() && forall p :: p in ps ==> p in planes
      ensures PlanesOf(View(), Indices(ps))
      ensures forall i :: 0 <= i < |ps| ==> ps[i].index < |planes| && planes[ps[i].index] == ps[i]
    {
      forall i | 0 <= i < |ps| ensures ps[i].index < |planes| && planes[ps[i].index] == ps[i] {
        assert ps[i] in planes;
      }
    }

    lemma PlacedCrtcs(cs: seq<Crtc>)
      requires Valid() && forall c :: c in cs ==> c in crtcs
      ensures CrtcsOf(View(), CrtcIndices(cs))
      ensures forall i :: 0 <= i < |cs| ==> cs[i].index < |crtcs| && crtcs[cs[i].index] == cs[i]
    {
      forall i | 0 <= i < |cs| ensures cs[i].index < |crtcs| && crtcs[cs[i].index] == cs[i] {
        assert cs[i] in crtcs;
      }
    }
  }

  ghost function Indices(ps: seq<Plane>): (r: seq<nat>)
    ensures |r| == |ps| && forall i :: 0 <= i < |ps| ==> r[i] == ps[i].index
  {
    seq(|ps|, i requires 0 <= i < |ps| => ps[i].index)
  }

  ghost function CrtcIndices(cs: seq<Crtc>): (r: seq<nat>)
    ensures |r| == |cs| && forall i :: 0 <= i < |cs| ==> r[i] == cs[i].index
  {
    seq(|cs|, i requires 0 <= i < |cs| => cs[i].index)
  }
}
