/** What the lease allocator keeps: the objects of the device, the leases and the CRTCs
    every encoder may still drive, and what the allocation promises about them. */
module LeaseTables {
  import opened LeaseFixup
  import opened LeasePlanes

  const MAX_LEASE_OBJECT_COUNT: nat := 64
  const EINVAL: int := 22
  const EBUSY: int := 16
  const ENOENT: int := 2

  /** A connector with the encoder its first encoder id names, if there is one. */
  datatype Connector = Connector(id: nat, encoder: Option<nat>)

  datatype Tables = Tables(
    planeNames: seq<string>, planes: seq<nat>,
    crtcs: seq<nat>,
    connectorNames: seq<string>, connectors: seq<Connector>,
    isVirtual: seq<bool>)      // by encoder

  datatype Lease = Lease(active: bool, ids: seq<nat>)

  /** The lists a lease device names; an absent list is empty. */
  datatype Wanted = Wanted(planes: seq<string>, connectors: seq<string>)

  function ConnectorIds(t: Tables): (s: seq<nat>)
    ensures |s| == |t.connectors| && forall i :: 0 <= i < |s| ==> s[i] == t.connectors[i].id
  {
    seq(|t.connectors|, i requires 0 <= i < |t.connectors| => t.connectors[i].id)
  }

  ghost predicate Sound(t: Tables) {
    && |t.planeNames| == |t.planes| && |t.connectorNames| == |t.connectors|
    && Distinct(t.planes + t.crtcs + ConnectorIds(t))
    && (forall k :: 0 <= k < |t.connectors| && t.connectors[k].encoder.Some? ==>
          t.connectors[k].encoder.value < |t.isVirtual|)
  }

  // ----- leased objects -----

  predicate Leased(leases: seq<Lease>, id: nat) {
    exists l :: 0 <= l < |leases| && id in leases[l].ids
  }

  /** _obj_is_leased: leased to someone or already on the list being built. */
  predicate Taken(leases: seq<Lease>, ids: seq<nat>, id: nat) {
    Leased(leases, id) || id in ids
  }

  /** A list that may become a lease. */
  ghost predicate Fresh(leases: seq<Lease>, ids: seq<nat>) {
    && |ids| <= MAX_LEASE_OBJECT_COUNT && Distinct(ids)
    && forall i :: 0 <= i < |ids| ==> !Leased(leases, ids[i])
  }

  /** No lease is too long, holds an object twice or shares one with another lease. */
  ghost predicate Separate(leases: seq<Lease>) {
    && (forall l :: 0 <= l < |leases| ==> |leases[l].ids| <= MAX_LEASE_OBJECT_COUNT && Distinct(leases[l].ids))
    && (forall l, m, i, j :: 0 <= l < |leases| && 0 <= m < |leases| && l != m
                             && 0 <= i < |leases[l].ids| && 0 <= j < |leases[m].ids|
                             ==> leases[l].ids[i] != leases[m].ids[j])
  }

  lemma FreshGrows(leases: seq<Lease>, ids: seq<nat>, id: nat)
    requires Fresh(leases, ids) && |ids| < MAX_LEASE_OBJECT_COUNT && !Taken(leases, ids, id)
    ensures Fresh(leases, ids + [id])
  {
  }

  lemma SeparateByFresh(leases: seq<Lease>, l: nat, ids: seq<nat>)
    requires Separate(leases) && Fresh(leases, ids) && l < |leases|
    ensures Separate(leases[l := Lease(true, ids)])
  {
  }

  // ----- connectors with their CRTCs -----

  /** The CRTC at position c of the device is the only one encoder e may drive. */
  predicate Bound(possible: seq<set<nat>>, e: nat, c: nat) {
    e < |possible| && possible[e] == {c}
  }

  /** At position i of the list stands a connector, behind it the one CRTC of its encoder. */
  predicate PairAt(t: Tables, possible: seq<set<nat>>, ids: seq<nat>, i: nat) {
    && i + 1 < |ids|
    && var k := IndexOf(ConnectorIds(t), ids[i]);
    && k < |t.connectors| && t.connectors[k].encoder.Some?
    && var c := IndexOf(t.crtcs, ids[i + 1]);
    && c < |t.crtcs| && Bound(possible, t.connectors[k].encoder.value, c)
  }

  /** Every connector of the list has its CRTC behind it and its encoder narrowed to that. */
  ghost predicate Connected(t: Tables, possible: seq<set<nat>>, ids: seq<nat>) {
    forall i: nat :: i < |ids| && ids[i] in ConnectorIds(t) ==> PairAt(t, possible, ids, i)
  }

  /** So it is in the lease of every device that names connectors. */
  ghost predicate AllConnected(t: Tables, possible: seq<set<nat>>, leases: seq<Lease>, wanted: seq<Wanted>) {
    && |wanted| == |leases|
    && forall l :: 0 <= l < |leases| && wanted[l].connectors != [] ==> Connected(t, possible, leases[l].ids)
  }

  lemma PlanesAreConnected(t: Tables, possible: seq<set<nat>>, ids: seq<nat>)
    requires Sound(t) && forall i :: 0 <= i < |ids| ==> ids[i] in t.planes
    ensures Connected(t, possible, ids)
  {
    SoundParts(t);
    forall i: nat | i < |ids| && ids[i] in t.planes ensures ids[i] !in ConnectorIds(t) {
      var p :| 0 <= p < |t.planes| && t.planes[p] == ids[i];
      assert forall k :: 0 <= k < |t.connectors| ==> ConnectorIds(t)[k] != t.planes[p];
    }
  }

  /** Narrowing an encoder to a CRTC nobody holds touches no pair made before. */
  lemma NarrowingKeepsPairs(t: Tables, possible: seq<set<nat>>, e: nat, c: nat, ids: seq<nat>)
    requires Connected(t, possible, ids)
    requires e < |possible| && c < |t.crtcs| && c in possible[e] && t.crtcs[c] !in ids
    ensures Connected(t, possible[e := {c}], ids)
  {
    forall i: nat | i < |ids| && ids[i] in ConnectorIds(t) ensures PairAt(t, possible[e := {c}], ids, i) {
      assert PairAt(t, possible, ids, i);
      assert ids[i + 1] in ids;
      assert IndexOf(t.crtcs, ids[i + 1]) != c;
    }
  }

  lemma IndexOfDistinct(s: seq<nat>, k: nat)
    requires Distinct(s) && k < |s|
    ensures IndexOf(s, s[k]) == k
  {
  }

  lemma SoundParts(t: Tables)
    requires Sound(t)
    ensures Distinct(t.planes) && Distinct(t.crtcs) && Distinct(ConnectorIds(t))
    ensures forall c, k :: 0 <= c < |t.crtcs| && 0 <= k < |t.connectors| ==> t.crtcs[c] != t.connectors[k].id
    ensures forall p, k :: 0 <= p < |t.planes| && 0 <= k < |t.connectors| ==> t.planes[p] != t.connectors[k].id
  {
    var all := t.planes + t.crtcs + ConnectorIds(t);
    forall i, j | 0 <= i < j < |t.planes| ensures t.planes[i] != t.planes[j] {
      assert all[i] == t.planes[i] && all[j] == t.planes[j];
    }
    forall i, j | 0 <= i < j < |t.crtcs| ensures t.crtcs[i] != t.crtcs[j] {
      assert all[|t.planes| + i] == t.crtcs[i] && all[|t.planes| + j] == t.crtcs[j];
    }
    forall i, j | 0 <= i < j < |t.connectors| ensures ConnectorIds(t)[i] != ConnectorIds(t)[j] {
      assert all[|t.planes| + |t.crtcs| + i] == ConnectorIds(t)[i]
             && all[|t.planes| + |t.crtcs| + j] == ConnectorIds(t)[j];
    }
    forall c, k | 0 <= c < |t.crtcs| && 0 <= k < |t.connectors| ensures t.crtcs[c] != t.connectors[k].id {
      assert all[|t.planes| + c] == t.crtcs[c] && all[|t.planes| + |t.crtcs| + k] == ConnectorIds(t)[k];
    }
    forall p, k | 0 <= p < |t.planes| && 0 <= k < |t.connectors| ensures t.planes[p] != t.connectors[k].id {
      assert all[p] == t.planes[p] && all[|t.planes| + |t.crtcs| + k] == ConnectorIds(t)[k];
    }
  }

  /** Adding a connector and a free CRTC of its encoder keeps every promise and pairs the two. */
  lemma ConnectorAdded(t: Tables, possible: seq<set<nat>>, leases: seq<Lease>, wanted: seq<Wanted>,
                       ids: seq<nat>, k: nat, c: nat)
    requires Sound(t) && |possible| == |t.isVirtual|
    requires AllConnected(t, possible, leases, wanted) && Connected(t, possible, ids) && Fresh(leases, ids)
    requires |ids| < MAX_LEASE_OBJECT_COUNT - 1 && k < |t.connectors| && t.connectors[k].encoder.Some? && c < |t.crtcs|
    requires c in possible[t.connectors[k].encoder.value]
    requires !Taken(leases, ids, t.connectors[k].id) && !Taken(leases, ids, t.crtcs[c])
    ensures var narrowed := possible[t.connectors[k].encoder.value := {c}];
            var longer := ids + [t.connectors[k].id, t.crtcs[c]];
            && AllConnected(t, narrowed, leases, wanted) && Connected(t, narrowed, longer) && Fresh(leases, longer)
            && PairAt(t, narrowed, longer, |ids|)
  {
    var e := t.connectors[k].encoder.value;
    var narrowed := possible[e := {c}];
    SoundParts(t);
    forall l | 0 <= l < |leases| && wanted[l].connectors != [] ensures Connected(t, narrowed, leases[l].ids) {
      NarrowingKeepsPairs(t, possible, e, c, leases[l].ids);
    }
    NarrowingKeepsPairs(t, possible, e, c, ids);
    PairAdded(t, narrowed, ids, k, c);
    FreshGrows(leases, ids, t.connectors[k].id);
    FreshGrows(leases, ids + [t.connectors[k].id], t.crtcs[c]);
    assert ids + [t.connectors[k].id] + [t.crtcs[c]] == ids + [t.connectors[k].id, t.crtcs[c]];
  }

  lemma PairAdded(t: Tables, possible: seq<set<nat>>, ids: seq<nat>, k: nat, c: nat)
    requires Sound(t) && Connected(t, possible, ids) && k < |t.connectors| && c < |t.crtcs|
    requires t.connectors[k].encoder.Some? && Bound(possible, t.connectors[k].encoder.value, c)
    ensures var longer := ids + [t.connectors[k].id, t.crtcs[c]];
            Connected(t, possible, longer) && PairAt(t, possible, longer, |ids|)
  {
    SoundParts(t);
    IndexOfDistinct(ConnectorIds(t), k);
    IndexOfDistinct(t.crtcs, c);
    var longer := ids + [t.connectors[k].id, t.crtcs[c]];
    assert longer[|ids|] == ConnectorIds(t)[k] && longer[|ids| + 1] == t.crtcs[c];
    assert t.crtcs[c] !in ConnectorIds(t);
    forall i: nat | i < |longer| && longer[i] in ConnectorIds(t) ensures PairAt(t, possible, longer, i) {
      if i < |ids| { assert PairAt(t, possible, ids, i); }
    }
  }

  // ----- planes and CRTCs of a lease -----

  function PlanesIn(t: Tables, ids: seq<nat>): seq<nat> {
    Found(t.planes, ids)
  }

  function CrtcsIn(t: Tables, ids: seq<nat>): seq<nat> {
    Found(t.crtcs, ids)
  }

  /** The configuration is about the planes and CRTCs of the tables. */
  ghost predicate Fits(t: Tables, c: Config) {
    |c.types| == |t.planes| && |c.primary| == |t.crtcs|
  }

  lemma FitsPlaces(t: Tables, c: Config, ids: seq<nat>)
    requires Fits(t, c)
    ensures PlanesOf(c, PlanesIn(t, ids)) && CrtcsOf(c, CrtcsIn(t, ids))
  {
  }

  /** The i-th CRTC of the list owns its i-th plane. */
  ghost predicate Owns(t: Tables, c: Config, ids: seq<nat>)
    requires Fits(t, c)
  {
    var cs, ps := CrtcsIn(t, ids), PlanesIn(t, ids);
    forall i :: 0 <= i < |cs| && i < |ps| ==> c.primary[cs[i]] == Some(ps[i])
  }

  function Refixed(t: Tables, c: Config, ids: seq<nat>): Config
    requires Shape(c) && Fits(t, c)
  {
    FitsPlaces(t, c, ids);
    if ids == [] then c else Fixup(c, CrtcsIn(t, ids), PlanesIn(t, ids))
  }

  lemma RefixedOwns(t: Tables, c: Config, ids: seq<nat>)
    requires Paired(c) && Fits(t, c) && Distinct(ids)
    ensures Paired(Refixed(t, c, ids)) && Fits(t, Refixed(t, c, ids)) && Owns(t, Refixed(t, c, ids), ids)
  {
    FitsPlaces(t, c, ids);
    FoundDistinct(t.planes, ids);
    FoundDistinct(t.crtcs, ids);
    if ids != [] { FixupPairs(c, CrtcsIn(t, ids), PlanesIn(t, ids)); }
  }

  lemma RefixedSparesOthers(t: Tables, c: Config, ids: seq<nat>, others: seq<nat>)
    requires Paired(c) && Fits(t, c) && Distinct(ids) && Owns(t, c, others)
    requires forall i, j :: 0 <= i < |ids| && 0 <= j < |others| ==> ids[i] != others[j]
    ensures Fits(t, Refixed(t, c, ids)) && Owns(t, Refixed(t, c, ids), others)
  {
    FitsPlaces(t, c, ids);
    FoundDistinct(t.planes, ids);
    FoundDistinct(t.crtcs, ids);
    if ids != [] {
      var cs, ps := CrtcsIn(t, others), PlanesIn(t, others);
      forall i | 0 <= i < |cs| && i < |ps| ensures Refixed(t, c, ids).primary[cs[i]] == Some(ps[i]) {
        assert t.crtcs[cs[i]] in others && t.planes[ps[i]] in others;
        assert cs[i] !in CrtcsIn(t, ids) && ps[i] !in PlanesIn(t, ids);
        FixupLeaves(c, CrtcsIn(t, ids), PlanesIn(t, ids), cs[i]);
      }
    }
  }

  // ----- everything together -----

  /** What holds between any two notifications. */
  ghost predicate Kept(t: Tables, possible: seq<set<nat>>, leases: seq<Lease>, wanted: seq<Wanted>, c: Config) {
    && Sound(t) && |possible| == |t.isVirtual|
    && Separate(leases) && AllConnected(t, possible, leases, wanted)
    && Fits(t, c) && Paired(c)
    && forall l :: 0 <= l < |leases| ==> Owns(t, c, leases[l].ids)
  }

  /** Recording a new list and re-pairing the planes keeps everything. */
  lemma RecordKeeps(t: Tables, possible: seq<set<nat>>, leases: seq<Lease>, wanted: seq<Wanted>, c: Config,
                    l: nat, ids: seq<nat>)
    requires Kept(t, possible, leases, wanted, c) && l < |leases| && |wanted| == |leases|
    requires Fresh(leases, ids) && (wanted[l].connectors != [] ==> Connected(t, possible, ids))
    ensures Kept(t, possible, leases[l := Lease(true, ids)], wanted, Refixed(t, c, ids))
  {
    hide Fixup, Owns, Connected;
    SeparateByFresh(leases, l, ids);
    RefixedOwns(t, c, ids);
    forall m | 0 <= m < |leases| && m != l ensures Owns(t, Refixed(t, c, ids), leases[m].ids) {
      forall i, j | 0 <= i < |ids| && 0 <= j < |leases[m].ids| ensures ids[i] != leases[m].ids[j] {
        assert leases[m].ids[j] in leases[m].ids;
      }
      RefixedSparesOthers(t, c, ids, leases[m].ids);
    }
  }

  lemma EmptyIsFresh(leases: seq<Lease>)
    ensures Fresh(leases, [])
  {
  }

  lemma KeptMeans(t: Tables, possible: seq<set<nat>>, leases: seq<Lease>, wanted: seq<Wanted>, c: Config)
    requires Kept(t, possible, leases, wanted, c)
    ensures Sound(t) && |possible| == |t.isVirtual| && AllConnected(t, possible, leases, wanted)
  {
  }

  /** Narrowed encoders that spare all pairs keep everything. */
  lemma NarrowedKept(t: Tables, possible: seq<set<nat>>, narrowed: seq<set<nat>>, leases: seq<Lease>,
                     wanted: seq<Wanted>, c: Config)
    requires Kept(t, possible, leases, wanted, c)
    requires |narrowed| == |t.isVirtual| && AllConnected(t, narrowed, leases, wanted)
    ensures Kept(t, narrowed, leases, wanted, c)
  {
  }

  /** Once every lease is bound, the last one without objects takes what is left. */
  function Target(leases: seq<Lease>): (r: Option<nat>)
    ensures r.Some? ==> r.value < |leases| && leases[r.value].ids == []
    ensures r.Some? ==> forall l :: 0 <= l < |leases| ==> leases[l].active
    ensures r.Some? ==> forall l :: r.value < l < |leases| ==> leases[l].ids != []
    ensures r.None? ==> (exists l :: 0 <= l < |leases| && !leases[l].active)
                        || forall l :: 0 <= l < |leases| ==> leases[l].ids != []
  {
    if exists l :: 0 <= l < |leases| && !leases[l].active then None else LastEmpty(leases, |leases|)
  }

  function LastEmpty(leases: seq<Lease>, n: nat): (r: Option<nat>)
    requires n <= |leases|
    ensures r.Some? ==> r.value < n && leases[r.value].ids == []
    ensures r.Some? ==> forall l :: r.value < l < n ==> leases[l].ids != []
    ensures r.None? ==> forall l :: 0 <= l < n ==> leases[l].ids != []
  {
    if n == 0 then None else if leases[n - 1].ids == [] then Some(n - 1) else LastEmpty(leases, n - 1)
  }
}
