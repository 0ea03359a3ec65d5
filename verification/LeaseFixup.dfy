/** The re-pairing of primary planes with CRTCs after a lease, msm_lease_fixup_crtc_primary:
    what the three mutating passes make of a plane configuration, on values. */
module LeaseFixup {

  datatype Option<T> = None | Some(value: T)

  datatype PlaneType = Overlay | Primary | Cursor

  /** The type of every plane and the primary plane of every CRTC, by position. */
  datatype Config = Config(types: seq<PlaneType>, primary: seq<Option<nat>>)

  /** The first position of x, or the length. */
  function IndexOf<T(==)>(s: seq<T>, x: T): (k: nat)
    ensures k <= |s| && x !in s[..k]
    ensures k < |s| ==> s[k] == x
    ensures k < |s| <==> x in s
  {
    if s == [] then 0
    else if s[0] == x then 0
    else
      var k := IndexOf(s[1..], x);
      assert s[..k + 1] == [s[0]] + s[1..][..k];
      k + 1
  }

  // ----- the passes -----

  predicate Shape(c: Config) {
    forall i :: 0 <= i < |c.primary| && c.primary[i].Some? ==> c.primary[i].value < |c.types|
  }

  /** A leased primary plane loses its CRTC. */
  function ResetOne(c: Config, p: nat): (r: Config)
    requires Shape(c) && p < |c.types|
    ensures Shape(r) && |r.types| == |c.types| && |r.primary| == |c.primary|
  {
    if c.types[p] != Primary then c else
    var k := IndexOf(c.primary, Some(p));
    Config(c.types[p := Overlay], if k < |c.primary| then c.primary[k := None] else c.primary)
  }

  /** A leased CRTC gets a leased plane. */
  function PairOne(c: Config, k: nat, p: nat): (r: Config)
    requires Shape(c) && p < |c.types| && k < |c.primary|
    ensures Shape(r) && |r.types| == |c.types| && |r.primary| == |c.primary|
  {
    var types := if c.primary[k].Some? then c.types[c.primary[k].value := Overlay] else c.types;
    Config(types[p := Primary], c.primary[k := Some(p)])
  }

  /** A CRTC left without a primary gets the first overlay. */
  function FillOne(c: Config, k: nat): (r: Config)
    requires Shape(c) && k < |c.primary|
    ensures Shape(r) && |r.types| == |c.types| && |r.primary| == |c.primary|
  {
    var p := IndexOf(c.types, Overlay);
    if c.primary[k].Some? || p == |c.types| then c
    else Config(c.types[p := Primary], c.primary[k := Some(p)])
  }

  predicate PlanesOf(c: Config, planes: seq<nat>) {
    forall i :: 0 <= i < |planes| ==> planes[i] < |c.types|
  }

  predicate CrtcsOf(c: Config, crtcs: seq<nat>) {
    forall i :: 0 <= i < |crtcs| ==> crtcs[i] < |c.primary|
  }

  function Reset(c: Config, planes: seq<nat>, n: nat): (r: Config)
    requires Shape(c) && PlanesOf(c, planes) && n <= |planes|
    ensures Shape(r) && |r.types| == |c.types| && |r.primary| == |c.primary|
  {
    if n == 0 then c else ResetOne(Reset(c, planes, n - 1), planes[n - 1])
  }

  function Pair(c: Config, crtcs: seq<nat>, planes: seq<nat>, n: nat): (r: Config)
    requires Shape(c) && PlanesOf(c, planes) && CrtcsOf(c, crtcs) && n <= |planes| && n <= |crtcs|
    ensures Shape(r) && |r.types| == |c.types| && |r.primary| == |c.primary|
  {
    if n == 0 then c else PairOne(Pair(c, crtcs, planes, n - 1), crtcs[n - 1], planes[n - 1])
  }

  function Fill(c: Config, n: nat): (r: Config)
    requires Shape(c) && n <= |c.primary|
    ensures Shape(r) && |r.types| == |c.types| && |r.primary| == |c.primary|
  {
    if n == 0 then c else FillOne(Fill(c, n - 1), n - 1)
  }

  function Min(a: nat, b: nat): nat {
    if a < b then a else b
  }

  function Fixup(c: Config, crtcs: seq<nat>, planes: seq<nat>): (r: Config)
    requires Shape(c) && PlanesOf(c, planes) && CrtcsOf(c, crtcs)
    ensures Shape(r) && |r.types| == |c.types| && |r.primary| == |c.primary|
  {
    Fill(Pair(Reset(c, planes, |planes|), crtcs, planes, Min(|crtcs|, |planes|)), |c.primary|)
  }

  // ----- what the passes keep -----

  ghost predicate Distinct<T(!new)>(s: seq<T>) {
    forall i, j :: 0 <= i < j < |s| ==> s[i] != s[j]
  }

  /** Every owner is alone and exactly the owned planes are primary. */
  ghost predicate Owned(c: Config) {
    && Shape(c)
    && (forall i, j :: 0 <= i < j < |c.primary| && c.primary[i].Some? ==> c.primary[i] != c.primary[j])
    && (forall p: nat :: p < |c.types| ==> (c.types[p] == Primary <==> Some(p) in c.primary))
  }

  /** There are overlays enough for the CRTCs without a primary. */
  ghost predicate Balanced(c: Config) {
    Owned(c) && multiset(c.types)[Overlay] >= multiset(c.primary)[None]
  }

  /** What the system relies on between leases. */
  ghost predicate Paired(c: Config) {
    Owned(c) && None !in c.primary
  }

  lemma Reowned(primary: seq<Option<nat>>, k: nat, v: Option<nat>, q: nat)
    requires k < |primary|
    requires forall i, j :: 0 <= i < j < |primary| && primary[i].Some? ==> primary[i] != primary[j]
    ensures Some(q) in primary[k := v] <==> v == Some(q) || (Some(q) in primary && primary[k] != Some(q))
  {
    var after := primary[k := v];
    if Some(q) in primary && primary[k] != Some(q) {
      var i :| 0 <= i < |primary| && primary[i] == Some(q);
      assert after[i] == Some(q);
    }
    assert after[k] == v;
  }

  lemma ResetOneKeeps(c: Config, p: nat)
    requires Balanced(c) && p < |c.types|
    ensures Balanced(ResetOne(c, p)) && ResetOne(c, p).types[p] != Primary
    ensures forall q :: 0 <= q < |c.types| && c.types[q] != Primary ==> ResetOne(c, p).types[q] != Primary
  {
    if c.types[p] == Primary {
      forall q: nat | q < |c.types| { Reowned(c.primary, IndexOf(c.primary, Some(p)), None, q); }
    }
  }

  lemma PairOneKeeps(c: Config, k: nat, p: nat)
    requires Balanced(c) && p < |c.types| && k < |c.primary| && c.types[p] != Primary
    ensures Balanced(PairOne(c, k, p))
    ensures forall q :: 0 <= q < |c.types| && q != p && c.types[q] != Primary ==> PairOne(c, k, p).types[q] != Primary
  {
    forall q: nat | q < |c.types| { Reowned(c.primary, k, Some(p), q); }
  }

  lemma FillOneKeeps(c: Config, k: nat)
    requires Balanced(c) && k < |c.primary|
    ensures Balanced(FillOne(c, k)) && FillOne(c, k).primary[k].Some?
    ensures forall i :: 0 <= i < |c.primary| && (i != k || c.primary[i].Some?)
                        ==> FillOne(c, k).primary[i] == c.primary[i]
  {
    if c.primary[k] == None {
      assert None in c.primary;
      assert Overlay in multiset(c.types);
      var p := IndexOf(c.types, Overlay);
      forall q: nat | q < |c.types| { Reowned(c.primary, k, Some(p), q); }
    }
  }

  /** A CRTC without a primary is given the first plane that is an overlay, which becomes primary;
      nothing else changes, and nothing at all if it has one or there is none. */
  lemma FillOneTakesTheFirst(c: Config, k: nat, p: nat)
    requires Shape(c) && k < |c.primary| && p < |c.types|
    requires c.types[p] == Overlay && forall q :: 0 <= q < p ==> c.types[q] != Overlay
    ensures if c.primary[k].Some? then FillOne(c, k) == c
            else FillOne(c, k) == Config(c.types[p := Primary], c.primary[k := Some(p)])
  {
    var m := IndexOf(c.types, Overlay);
    assert forall q :: 0 <= q < m ==> c.types[..m][q] == c.types[q];
  }

  // ----- whole passes -----

  lemma BalancedShape(c: Config)
    requires Balanced(c)
    ensures Shape(c)
  {
  }

  ghost predicate Released(c: Config, planes: seq<nat>, from: nat, to: nat)
    requires PlanesOf(c, planes) && to <= |planes|
  {
    forall i :: from <= i < to ==> c.types[planes[i]] != Primary
  }

  lemma {:induction false} ResetKeeps(c: Config, planes: seq<nat>, n: nat)
    requires Balanced(c) && PlanesOf(c, planes) && n <= |planes|
    ensures Balanced(Reset(c, planes, n)) && Released(Reset(c, planes, n), planes, 0, n)
  {
    hide Balanced, ResetOne, Shape;
    BalancedShape(c);
    if n > 0 {
      ResetKeeps(c, planes, n - 1);
      var q := Reset(c, planes, n - 1);
      assert Reset(c, planes, n) == ResetOne(q, planes[n - 1]);
      hide Reset;
      ResetOneKeeps(q, planes[n - 1]);
    }
  }

  /** The first n leased CRTCs own their planes in r, the other leased planes are free. */
  ghost predicate PairedUpTo(r: Config, crtcs: seq<nat>, planes: seq<nat>, n: nat)
    requires PlanesOf(r, planes) && CrtcsOf(r, crtcs) && n <= |planes| && n <= |crtcs|
  {
    && Balanced(r) && Released(r, planes, n, |planes|)
    && (forall i :: 0 <= i < n ==> r.primary[crtcs[i]] == Some(planes[i]))
  }

  lemma PairStep(q: Config, crtcs: seq<nat>, planes: seq<nat>, n: nat)
    requires Distinct(planes) && Distinct(crtcs) && n < |planes| && n < |crtcs|
    requires PlanesOf(q, planes) && CrtcsOf(q, crtcs) && Shape(q) && PairedUpTo(q, crtcs, planes, n)
    ensures PairedUpTo(PairOne(q, crtcs[n], planes[n]), crtcs, planes, n + 1)
  {
    hide Balanced, Shape;
    PairOneKeeps(q, crtcs[n], planes[n]);
    var r := PairOne(q, crtcs[n], planes[n]);
    forall i | n + 1 <= i < |planes| ensures r.types[planes[i]] != Primary {
      assert planes[i] != planes[n];
    }
    forall i | 0 <= i < n ensures r.primary[crtcs[i]] == Some(planes[i]) {
      assert crtcs[i] != crtcs[n];
    }
  }

  lemma {:induction false} PairKeeps(c: Config, crtcs: seq<nat>, planes: seq<nat>, n: nat)
    requires Balanced(c) && PlanesOf(c, planes) && CrtcsOf(c, crtcs) && n <= |planes| && n <= |crtcs|
    requires Distinct(planes) && Distinct(crtcs) && Released(c, planes, 0, |planes|)
    ensures PairedUpTo(Pair(c, crtcs, planes, n), crtcs, planes, n)
  {
    hide Balanced, Shape;
    BalancedShape(c);
    if n > 0 {
      hide PairedUpTo;
      PairKeeps(c, crtcs, planes, n - 1);
      PairStep(Pair(c, crtcs, planes, n - 1), crtcs, planes, n - 1);
    }
  }

  /** The first n CRTCs have a primary and no CRTC that had one lost it. */
  ghost predicate FilledUpTo(c: Config, r: Config, n: nat)
    requires n <= |r.primary| == |c.primary|
  {
    && Balanced(r) && (forall k :: 0 <= k < n ==> r.primary[k].Some?)
    && (forall k :: 0 <= k < |c.primary| && c.primary[k].Some? ==> r.primary[k] == c.primary[k])
  }

  lemma FillStep(c: Config, q: Config, n: nat)
    requires n < |q.primary| == |c.primary| && Shape(q) && FilledUpTo(c, q, n)
    ensures FilledUpTo(c, FillOne(q, n), n + 1)
  {
    hide Balanced, FillOne;
    FillOneKeeps(q, n);
  }

  lemma {:induction false} FillKeeps(c: Config, n: nat)
    requires Balanced(c) && n <= |c.primary|
    ensures FilledUpTo(c, Fill(c, n), n)
  {
    hide Balanced, FillOne, Shape;
    BalancedShape(c);
    if n > 0 {
      hide FilledUpTo;
      FillKeeps(c, n - 1);
      FillStep(c, Fill(c, n - 1), n - 1);
    }
  }

  lemma PassesKeep(c: Config, crtcs: seq<nat>, planes: seq<nat>)
    requires Paired(c) && PlanesOf(c, planes) && CrtcsOf(c, crtcs) && Distinct(planes) && Distinct(crtcs)
    ensures var r := Fixup(c, crtcs, planes);
            && Balanced(r) && (forall k :: 0 <= k < |c.primary| ==> r.primary[k].Some?)
            && (forall i :: 0 <= i < |crtcs| && i < |planes| ==> r.primary[crtcs[i]] == Some(planes[i]))
  {
    assert multiset(c.primary)[None] == 0;
    assert Shape(c) && Balanced(c);
    hide Balanced, Owned;
    var n := Min(|crtcs|, |planes|);
    var r := Reset(c, planes, |planes|);
    ResetKeeps(c, planes, |planes|);
    PairKeeps(r, crtcs, planes, n);
    FillKeeps(Pair(r, crtcs, planes, n), |c.primary|);
  }

  /** Whatever is leased: afterwards no CRTC is without a primary plane, primaries are
      distinct, exactly the owned planes are primary, and the leased CRTCs own the leased
      planes in order. */
  lemma FixupPairs(c: Config, crtcs: seq<nat>, planes: seq<nat>)
    requires Paired(c) && PlanesOf(c, planes) && CrtcsOf(c, crtcs) && Distinct(planes) && Distinct(crtcs)
    ensures Paired(Fixup(c, crtcs, planes))
    ensures forall i :: 0 <= i < |crtcs| && i < |planes| ==>
              Fixup(c, crtcs, planes).primary[crtcs[i]] == Some(planes[i])
  {
    PassesKeep(c, crtcs, planes);
    var r := Fixup(c, crtcs, planes);
    hide Fixup;
    assert Owned(r) by { hide Owned; }
  }

  // ----- what the passes leave alone -----

  lemma {:induction false} ResetLeaves(c: Config, planes: seq<nat>, n: nat, k: nat)
    requires Shape(c) && PlanesOf(c, planes) && n <= |planes| && k < |c.primary|
    requires c.primary[k].Some? && c.primary[k].value !in planes[..n]
    ensures Reset(c, planes, n).primary[k] == c.primary[k]
  {
    if n > 0 {
      assert planes[..n] == planes[..n - 1] + [planes[n - 1]];
      ResetLeaves(c, planes, n - 1, k);
    }
  }

  lemma {:induction false} PairLeaves(c: Config, crtcs: seq<nat>, planes: seq<nat>, n: nat, k: nat)
    requires Shape(c) && PlanesOf(c, planes) && CrtcsOf(c, crtcs) && n <= |planes| && n <= |crtcs|
    requires k < |c.primary| && k !in crtcs[..n]
    ensures Pair(c, crtcs, planes, n).primary[k] == c.primary[k]
  {
    if n > 0 {
      assert crtcs[..n] == crtcs[..n - 1] + [crtcs[n - 1]];
      PairLeaves(c, crtcs, planes, n - 1, k);
    }
  }

  /** A CRTC outside the pairing keeps its primary plane unless that plane was leased. */
  lemma FixupLeaves(c: Config, crtcs: seq<nat>, planes: seq<nat>, k: nat)
    requires Paired(c) && PlanesOf(c, planes) && CrtcsOf(c, crtcs) && Distinct(planes) && Distinct(crtcs)
    requires k < |c.primary| && k !in crtcs[..Min(|crtcs|, |planes|)] && c.primary[k].value !in planes
    ensures Fixup(c, crtcs, planes).primary[k] == c.primary[k]
  {
    var n := Min(|crtcs|, |planes|);
    var r := Reset(c, planes, |planes|);
    assert planes[..|planes|] == planes;
    ResetLeaves(c, planes, |planes|, k);
    ResetKeeps(c, planes, |planes|);
    PairLeaves(r, crtcs, planes, n, k);
    PairKeeps(r, crtcs, planes, n);
    FillKeeps(Pair(r, crtcs, planes, n), |c.primary|);
  }

  // ----- doing it again -----

  /** What resetting the first n planes makes of a configuration. */
  ghost predicate Resets(c: Config, r: Config, planes: seq<nat>, n: nat)
    requires n <= |planes| && |r.types| == |c.types| && |r.primary| == |c.primary|
  {
    && (forall p: nat :: p < |c.types| ==>
          r.types[p] == if p in planes[..n] && c.types[p] == Primary then Overlay else c.types[p])
    && (forall k :: 0 <= k < |c.primary| ==>
          r.primary[k] == if c.primary[k].Some? && c.primary[k].value in planes[..n] then None else c.primary[k])
  }

  lemma ResetStep(c: Config, q: Config, planes: seq<nat>, n: nat)
    requires Owned(c) && Shape(q) && PlanesOf(q, planes) && n < |planes|
    requires |q.types| == |c.types| && |q.primary| == |c.primary| && Resets(c, q, planes, n)
    ensures Resets(c, ResetOne(q, planes[n]), planes, n + 1)
  {
    var p := planes[n];
    var r := ResetOne(q, p);
    assert planes[..n + 1] == planes[..n] + [p];
    if q.types[p] == Primary {
      assert c.types[p] == Primary && p !in planes[..n];
      assert Some(p) in c.primary;
      var k :| 0 <= k < |c.primary| && c.primary[k] == Some(p);
      assert q.primary[k] == Some(p);
      var f := IndexOf(q.primary, Some(p));
      assert c.primary[f] == Some(p);
      assert f == k;
    } else {
      forall k | 0 <= k < |c.primary| && c.primary[k] == Some(p) ensures r.primary[k] == None {
        assert Some(p) in c.primary && c.types[p] == Primary;
      }
    }
  }

  lemma OwnedShape(c: Config)
    requires Owned(c)
    ensures Shape(c)
  {
  }

  lemma {:induction false} ResetIs(c: Config, planes: seq<nat>, n: nat)
    requires Owned(c) && PlanesOf(c, planes) && n <= |planes|
    ensures Resets(c, Reset(c, planes, n), planes, n)
  {
    hide Owned, ResetOne;
    OwnedShape(c);
    if n > 0 {
      ResetIs(c, planes, n - 1);
      ResetStep(c, Reset(c, planes, n - 1), planes, n - 1);
    }
  }

  /** What pairing n CRTCs that have no primary with n planes makes of it. */
  ghost predicate Pairs(c: Config, r: Config, crtcs: seq<nat>, planes: seq<nat>, n: nat)
    requires n <= |planes| && n <= |crtcs| && |r.types| == |c.types| && |r.primary| == |c.primary|
  {
    && (forall p: nat :: p < |c.types| ==> r.types[p] == if p in planes[..n] then Primary else c.types[p])
    && (forall k: nat :: k < |c.primary| && k !in crtcs[..n] ==> r.primary[k] == c.primary[k])
    && (forall i :: 0 <= i < n && crtcs[i] < |c.primary| ==> r.primary[crtcs[i]] == Some(planes[i]))
  }

  lemma PairsStep(c: Config, q: Config, crtcs: seq<nat>, planes: seq<nat>, n: nat)
    requires Shape(q) && PlanesOf(q, planes) && CrtcsOf(q, crtcs) && n < |planes| && n < |crtcs| && Distinct(crtcs)
    requires |q.types| == |c.types| && |q.primary| == |c.primary| && Pairs(c, q, crtcs, planes, n)
    requires c.primary[crtcs[n]] == None
    ensures Pairs(c, PairOne(q, crtcs[n], planes[n]), crtcs, planes, n + 1)
  {
    assert planes[..n + 1] == planes[..n] + [planes[n]];
    assert crtcs[..n + 1] == crtcs[..n] + [crtcs[n]];
    assert crtcs[n] !in crtcs[..n];
    assert q.primary[crtcs[n]] == None;
  }

  lemma {:induction false} PairIs(c: Config, crtcs: seq<nat>, planes: seq<nat>, n: nat)
    requires Shape(c) && PlanesOf(c, planes) && CrtcsOf(c, crtcs) && n <= |planes| && n <= |crtcs| && Distinct(crtcs)
    requires forall i :: 0 <= i < n ==> c.primary[crtcs[i]] == None
    ensures Pairs(c, Pair(c, crtcs, planes, n), crtcs, planes, n)
  {
    hide PairOne;
    if n > 0 {
      PairIs(c, crtcs, planes, n - 1);
      PairsStep(c, Pair(c, crtcs, planes, n - 1), crtcs, planes, n - 1);
    }
  }

  /** A CRTC that the first n rounds of the last pass gave a plane. */
  predicate Filled(c: Config, r: Config, n: nat, k: nat)
    requires |r.primary| == |c.primary|
  {
    k < n && k < |c.primary| && c.primary[k].None? && r.primary[k].Some?
  }

  /** The last pass hands out the overlays from the front. */
  ghost predicate FromFront(c: Config, r: Config, n: nat)
    requires |r.primary| == |c.primary|
  {
    && (forall k: nat, p: nat ::
          Filled(c, r, n, k) && p < |r.types| && r.types[p] == Overlay ==> r.primary[k].value < p)
    && (forall j: nat, k: nat :: j < k && Filled(c, r, n, j) && Filled(c, r, n, k) ==>
          r.primary[j].value < r.primary[k].value)
    && (forall k: nat :: n <= k < |c.primary| ==> r.primary[k] == c.primary[k])
  }

  lemma {:induction false} NotBefore<T>(s: seq<T>, x: T, j: nat)
    requires j < |s| && s[j] == x
    ensures IndexOf(s, x) <= j
  {
    if s[0] != x { NotBefore(s[1..], x, j - 1); }
  }

  lemma FrontStep(c: Config, q: Config, n: nat)
    requires Shape(q) && n < |q.primary| == |c.primary| && FromFront(c, q, n)
    ensures FromFront(c, FillOne(q, n), n + 1)
  {
    var r := FillOne(q, n);
    var p := IndexOf(q.types, Overlay);
    if q.primary[n].None? && p < |q.types| {
      forall x: nat | x < |r.types| && r.types[x] == Overlay ensures q.types[x] == Overlay && p < x {
        NotBefore(q.types, Overlay, x);
      }
      forall k: nat | Filled(c, r, n + 1, k) ensures k == n || (Filled(c, q, n, k) && r.primary[k] == q.primary[k]) {
      }
    } else {
      assert r == q;
      forall k: nat | Filled(c, r, n + 1, k) ensures Filled(c, q, n, k) {
      }
    }
  }

  lemma {:induction false} FillsFromFront(c: Config, n: nat)
    requires Shape(c) && n <= |c.primary|
    ensures FromFront(c, Fill(c, n), n)
  {
    hide FillOne;
    if n > 0 {
      FillsFromFront(c, n - 1);
      FrontStep(c, Fill(c, n - 1), n - 1);
    }
  }

  /** The plane of CRTC j, if it is one of the planes nobody is paired with and round k of the
      repeated last pass has not come to it. */
  ghost predicate Lent(once: Config, spare: seq<nat>, k: nat, j: nat)
    requires j < |once.primary|
  {
    j >= k && once.primary[j].Some? && once.primary[j].value in spare
  }

  ghost predicate LentPlane(once: Config, spare: seq<nat>, k: nat, p: nat) {
    exists j: nat :: j < |once.primary| && Lent(once, spare, k, j) && once.primary[j] == Some(p)
  }

  /** Between the rounds of the repeated last pass everything is as after the first fix-up, but
      that the planes still lent are taken back. */
  ghost predicate Healing(once: Config, s: Config, spare: seq<nat>, k: nat) {
    && |s.types| == |once.types| && |s.primary| == |once.primary|
    && (forall j: nat :: j < |once.primary| ==>
          s.primary[j] == if Lent(once, spare, k, j) then None else once.primary[j])
    && (forall j: nat :: j < |once.primary| && Lent(once, spare, k, j) && once.primary[j].value < |once.types| ==>
          s.types[once.primary[j].value] == Overlay)
    && (forall p: nat :: p < |once.types| && !LentPlane(once, spare, k, p) ==> s.types[p] == once.types[p])
  }

  /** Every CRTC with a spare plane got it in the last pass, which began at q. */
  ghost predicate Supplied(q: Config, once: Config, spare: seq<nat>)
    requires |q.primary| == |once.primary|
  {
    forall j: nat :: j < |once.primary| && Lent(once, spare, 0, j) ==> Filled(q, once, |once.primary|, j)
  }

  lemma HealRound(q: Config, once: Config, s: Config, spare: seq<nat>, k: nat)
    requires Paired(once) && |q.primary| == |once.primary| && k < |once.primary|
    requires FromFront(q, once, |once.primary|) && Supplied(q, once, spare)
    requires Shape(s) && Healing(once, s, spare, k)
    ensures Healing(once, FillOne(s, k), spare, k + 1)
  {
    assert once.primary[k] != None;
    if Lent(once, spare, k, k) { HealLent(q, once, s, spare, k); }
    else { HealOther(once, s, spare, k); }
  }

  lemma HealLent(q: Config, once: Config, s: Config, spare: seq<nat>, k: nat)
    requires Paired(once) && |q.primary| == |once.primary| && k < |once.primary|
    requires FromFront(q, once, |once.primary|) && Supplied(q, once, spare)
    requires Shape(s) && Healing(once, s, spare, k) && Lent(once, spare, k, k)
    ensures Healing(once, FillOne(s, k), spare, k + 1)
  {
    var r, p := FillOne(s, k), once.primary[k].value;
    assert s.types[p] == Overlay;
    FirstFreeIsTheOld(q, once, s, spare, k);
    hide FromFront, Supplied;
    assert r == Config(s.types[p := Primary], s.primary[k := Some(p)]);
    assert once.types[p] == Primary by { assert once.primary[k] in once.primary; }
    forall j: nat | j < |once.primary| && Lent(once, spare, k + 1, j)
      ensures Lent(once, spare, k, j) && once.primary[j] != Some(p)
    {
    }
    forall x: nat | x < |once.types| && x != p && LentPlane(once, spare, k, x)
      ensures LentPlane(once, spare, k + 1, x)
    {
      var j: nat :| j < |once.primary| && Lent(once, spare, k, j) && once.primary[j] == Some(x);
      assert Lent(once, spare, k + 1, j);
    }
  }

  lemma HealOther(once: Config, s: Config, spare: seq<nat>, k: nat)
    requires k < |once.primary| && once.primary[k] != None && !Lent(once, spare, k, k)
    requires Shape(s) && Healing(once, s, spare, k)
    ensures Healing(once, FillOne(s, k), spare, k + 1)
  {
    assert FillOne(s, k) == s;
    forall j: nat | j < |once.primary| ensures Lent(once, spare, k + 1, j) <==> Lent(once, spare, k, j) {
    }
    forall x: nat | LentPlane(once, spare, k, x) ensures LentPlane(once, spare, k + 1, x) {
      var j: nat :| j < |once.primary| && Lent(once, spare, k, j) && once.primary[j] == Some(x);
      assert Lent(once, spare, k + 1, j);
    }
  }

  /** The first overlay the repeated pass finds is the plane the CRTC had. */
  lemma FirstFreeIsTheOld(q: Config, once: Config, s: Config, spare: seq<nat>, k: nat)
    requires Paired(once) && |q.primary| == |once.primary| && k < |once.primary|
    requires FromFront(q, once, |once.primary|) && Supplied(q, once, spare)
    requires Shape(s) && Healing(once, s, spare, k) && Lent(once, spare, k, k)
    ensures IndexOf(s.types, Overlay) == once.primary[k].value
  {
    var p := once.primary[k].value;
    var f := IndexOf(s.types, Overlay);
    assert s.types[p] == Overlay && s.types[f] == Overlay;
    assert Lent(once, spare, 0, k);
    if LentPlane(once, spare, k, f) {
      var j: nat :| j < |once.primary| && Lent(once, spare, k, j) && once.primary[j] == Some(f);
      assert Lent(once, spare, 0, j);
    }
    NotBefore(s.types, Overlay, p);
  }

  lemma {:induction false} Heals(q: Config, once: Config, s: Config, spare: seq<nat>, k: nat)
    requires Paired(once) && |q.primary| == |once.primary| && k <= |once.primary|
    requires FromFront(q, once, |once.primary|) && Supplied(q, once, spare)
    requires Shape(s) && Healing(once, s, spare, 0)
    ensures k <= |s.primary| && Healing(once, Fill(s, k), spare, k)
  {
    hide Paired, FromFront, Supplied, FillOne, Healing;
    SameSize(once, s, spare);
    if k > 0 {
      Heals(q, once, s, spare, k - 1);
      HealRound(q, once, Fill(s, k - 1), spare, k - 1);
    }
  }

  lemma SameSize(once: Config, s: Config, spare: seq<nat>)
    requires Healing(once, s, spare, 0)
    ensures |s.types| == |once.types| && |s.primary| == |once.primary|
  {
  }

  lemma Healed(once: Config, s: Config, spare: seq<nat>)
    requires Healing(once, s, spare, |once.primary|)
    ensures s == once
  {
    assert s.primary == once.primary;
    assert s.types == once.types;
  }

  /** The situation after reset and pairing of the repeated fix-up. */
  ghost predicate Repairing(once: Config, r: Config, q: Config, crtcs: seq<nat>, planes: seq<nat>, n: nat) {
    && Paired(once) && n <= |crtcs| && n <= |planes| && Distinct(planes)
    && PlanesOf(once, planes) && CrtcsOf(once, crtcs)
    && |r.types| == |once.types| && |r.primary| == |once.primary| && Resets(once, r, planes, |planes|)
    && |q.types| == |once.types| && |q.primary| == |once.primary| && Pairs(r, q, crtcs, planes, n)
    && forall i :: 0 <= i < n ==> once.primary[crtcs[i]] == Some(planes[i])
  }

  lemma SpareIs(planes: seq<nat>, n: nat, p: nat)
    requires Distinct(planes) && n <= |planes|
    ensures p in planes[n..] <==> p in planes && p !in planes[..n]
  {
    if p in planes && p !in planes[..n] {
      var i :| 0 <= i < |planes| && planes[i] == p;
      assert planes == planes[..n] + planes[n..];
    }
    if p in planes[n..] {
      var i :| 0 <= i < |planes[n..]| && planes[n..][i] == p;
      assert planes[n + i] == p;
    }
  }

  lemma RepairedPrimary(once: Config, r: Config, q: Config, crtcs: seq<nat>, planes: seq<nat>, n: nat, j: nat)
    requires Repairing(once, r, q, crtcs, planes, n) && j < |once.primary|
    ensures q.primary[j] == if Lent(once, planes[n..], 0, j) then None else once.primary[j]
  {
    assert planes[..|planes|] == planes;
    assert once.primary[j] != None;
    var p := once.primary[j].value;
    SpareIs(planes, n, p);
    forall i | 0 <= i < n && planes[i] == p ensures j in crtcs[..n] {
      assert once.primary[crtcs[i]] == once.primary[j];
      assert crtcs[i] in crtcs[..n];
    }
    if j in crtcs[..n] {
      var i :| 0 <= i < n && crtcs[i] == j;
      assert planes[i] in planes[..n];
    }
  }

  lemma RepairedType(once: Config, r: Config, q: Config, crtcs: seq<nat>, planes: seq<nat>, n: nat, p: nat)
    requires Repairing(once, r, q, crtcs, planes, n) && p < |once.types|
    ensures q.types[p] == if LentPlane(once, planes[n..], 0, p) then Overlay else once.types[p]
  {
    assert planes[..|planes|] == planes;
    SpareIs(planes, n, p);
    if p in planes[..n] {
      var i :| 0 <= i < n && planes[i] == p;
      assert once.primary[crtcs[i]] in once.primary;
    }
    if once.types[p] == Primary && p in planes[n..] {
      var j :| 0 <= j < |once.primary| && once.primary[j] == Some(p);
      assert Lent(once, planes[n..], 0, j);
    }
    if LentPlane(once, planes[n..], 0, p) {
      var j: nat :| j < |once.primary| && Lent(once, planes[n..], 0, j) && once.primary[j] == Some(p);
      assert once.primary[j] in once.primary;
    }
  }

  /** After reset and pairing of the repeated fix-up only the spare planes are missing. */
  lemma RepairBegins(once: Config, r: Config, q: Config, crtcs: seq<nat>, planes: seq<nat>, n: nat)
    requires Repairing(once, r, q, crtcs, planes, n)
    ensures Healing(once, q, planes[n..], 0)
  {
    var spare := planes[n..];
    forall j: nat | j < |once.primary|
      ensures q.primary[j] == if Lent(once, spare, 0, j) then None else once.primary[j]
    {
      RepairedPrimary(once, r, q, crtcs, planes, n, j);
    }
    forall p: nat | p < |once.types|
      ensures q.types[p] == if LentPlane(once, spare, 0, p) then Overlay else once.types[p] {
      RepairedType(once, r, q, crtcs, planes, n, p);
    }
    hide Pairs, Resets, Distinct, Paired;
    forall j: nat | j < |once.primary| && Lent(once, spare, 0, j) && once.primary[j].value < |once.types|
      ensures LentPlane(once, spare, 0, once.primary[j].value)
    {
    }
  }

  /** What a CRTC owns after the fix-up and nobody was paired with, it got in the last pass. */
  lemma SuppliedLast(c: Config, crtcs: seq<nat>, planes: seq<nat>)
    requires Paired(c) && PlanesOf(c, planes) && CrtcsOf(c, crtcs) && Distinct(planes) && Distinct(crtcs)
    ensures var n := Min(|crtcs|, |planes|);
      var q := Pair(Reset(c, planes, |planes|), crtcs, planes, n);
      Supplied(q, Fixup(c, crtcs, planes), planes[n..])
  {
    var n := Min(|crtcs|, |planes|);
    var r := Reset(c, planes, |planes|);
    var q := Pair(r, crtcs, planes, n);
    var once := Fixup(c, crtcs, planes);
    assert multiset(c.primary)[None] == 0;
    ResetKeeps(c, planes, |planes|);
    PairKeeps(r, crtcs, planes, n);
    FillKeeps(q, |q.primary|);
    FixupPairs(c, crtcs, planes);
    hide Reset, Pair, Fill, Fixup;
    forall j: nat | j < |once.primary| && Lent(once, planes[n..], 0, j) ensures q.primary[j] == None {
      var i :| 0 <= i < |planes[n..]| && planes[n..][i] == once.primary[j].value;
      assert planes[n + i] == once.primary[j].value;
      assert q.types[planes[n + i]] != Primary;
      assert Some(planes[n + i]) !in q.primary;
      assert q.primary[j] in q.primary;
    }
  }

  /** Leasing again what was just leased changes nothing at all, also with planes or CRTCs to
      spare: the planes taken back come out of the last pass in the places they had. */
  lemma FixupIsStable(c: Config, crtcs: seq<nat>, planes: seq<nat>)
    requires Paired(c) && PlanesOf(c, planes) && CrtcsOf(c, crtcs) && Distinct(planes) && Distinct(crtcs)
    ensures var once := Fixup(c, crtcs, planes); Fixup(once, crtcs, planes) == once
  {
    var n := Min(|crtcs|, |planes|);
    var q := Pair(Reset(c, planes, |planes|), crtcs, planes, n);
    var once := Fixup(c, crtcs, planes);
    FillsFromFront(q, |q.primary|);
    FixupPairs(c, crtcs, planes);
    SuppliedLast(c, crtcs, planes);
    assert FromFront(q, once, |once.primary|);
    var r2 := Reset(once, planes, |planes|);
    ResetIs(once, planes, |planes|);
    AllReset(once, r2, crtcs, planes, n);
    PairIs(r2, crtcs, planes, n);
    var q2 := Pair(r2, crtcs, planes, n);
    RepairBegins(once, r2, q2, crtcs, planes, n);
    Heals(q, once, q2, planes[n..], |once.primary|);
    Healed(once, Fill(q2, |once.primary|), planes[n..]);
  }

  lemma AllReset(once: Config, r: Config, crtcs: seq<nat>, planes: seq<nat>, n: nat)
    requires n <= |crtcs| && n <= |planes| && CrtcsOf(once, crtcs)
    requires |r.types| == |once.types| && |r.primary| == |once.primary| && Resets(once, r, planes, |planes|)
    requires forall i :: 0 <= i < n ==> once.primary[crtcs[i]] == Some(planes[i])
    ensures forall i :: 0 <= i < n ==> r.primary[crtcs[i]] == None
  {
    assert planes[..|planes|] == planes;
  }
}
