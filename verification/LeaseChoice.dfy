/** Which of the objects a device names can be leased to it, as a condition on the tables, the
    leases and the encoders before its list is built: how far the names go, and which code the
    first obstacle gives. */
module LeaseChoice {
  import opened LeaseFixup
  import opened LeasePlanes
  import opened LeaseTables

  /** The object added i-th is the first one of the i-th name. */
  predicate Named(table: seq<string>, objects: seq<nat>, names: seq<string>, i: int, id: nat) {
    && 0 <= i < |names|
    && var k := IndexOf(table, names[i]);
    && k < |objects| && objects[k] == id
  }

  lemma NamedAmong(table: seq<string>, objects: seq<nat>, names: seq<string>, i: nat, id: nat)
    requires i < |names| && Named(table, objects, [names[i]], 0, id)
    ensures Named(table, objects, names, i, id)
  {
  }

  // ----- planes -----

  /** The i-th name is that of a plane nobody has and no earlier name asked for, and there is room. */
  ghost predicate PlaneFits(t: Tables, leases: seq<Lease>, held: seq<nat>, names: seq<string>, i: nat)
    requires i < |names|
  {
    && |held| + i < MAX_LEASE_OBJECT_COUNT
    && (exists k :: 0 <= k < |t.planes| && k == IndexOf(t.planeNames, names[i]) && !Taken(leases, held, t.planes[k]))
    && forall j :: 0 <= j < i ==> names[j] != names[i]
  }

  /** What is wrong with the i-th name. */
  function PlaneCode(t: Tables, held: seq<nat>, names: seq<string>, i: nat): int
    requires i < |names|
  {
    if |held| + i >= MAX_LEASE_OBJECT_COUNT then -EINVAL
    else if names[i] !in t.planeNames then -ENOENT
    else -EBUSY
  }

  ghost predicate PlanesFit(t: Tables, leases: seq<Lease>, held: seq<nat>, names: seq<string>, n: nat)
    requires n <= |names|
  {
    forall i: nat :: i < n ==> PlaneFits(t, leases, held, names, i)
  }

  /** A list whose last objects are the first i named planes holds the next one exactly if it
      did before or the name came before. */
  lemma NextPlane(t: Tables, leases: seq<Lease>, held: seq<nat>, names: seq<string>, i: nat, ids: seq<nat>)
    requires Sound(t) && i < |names| && held <= ids && |ids| == |held| + i
    requires forall j :: |held| <= j < |ids| ==> Named(t.planeNames, t.planes, names, j - |held|, ids[j])
    ensures var k := IndexOf(t.planeNames, names[i]);
            k < |t.planes| ==>
              (Taken(leases, ids, t.planes[k])
               <==> Taken(leases, held, t.planes[k]) || exists j :: 0 <= j < i && names[j] == names[i])
  {
    SoundParts(t);
    var k := IndexOf(t.planeNames, names[i]);
    if k < |t.planes| {
      var id := t.planes[k];
      forall j | 0 <= j < i ensures ids[|held| + j] == id <==> names[j] == names[i] {
        assert Named(t.planeNames, t.planes, names, j, ids[|held| + j]);
      }
      if id in ids && id !in held {
        assert forall q :: 0 <= q < |held| ==> held[q] == ids[q];
        var p :| 0 <= p < |ids| && ids[p] == id;
        assert ids[|held| + (p - |held|)] == id;
      }
      if j :| 0 <= j < i && names[j] == names[i] { assert ids[|held| + j] in ids; }
      if id in held { var p :| 0 <= p < |held| && held[p] == id; assert ids[p] == id; }
    }
  }

  // ----- connectors -----

  /** The encoder of the connector of that name. */
  function EncoderOf(t: Tables, name: string): (e: Option<nat>)
    ensures e.Some? ==> name in t.connectorNames
  {
    var k := IndexOf(t.connectorNames, name);
    if k < |t.connectors| && k < |t.connectorNames| then t.connectors[k].encoder else None
  }

  /** CRTC c can go to the j-th named connector: its encoder may drive it, nobody has it, and it
      went to none of the connectors named before. */
  ghost predicate CrtcFits(t: Tables, leases: seq<Lease>, held: seq<nat>, mask: seq<set<nat>>, names: seq<string>,
                           picks: seq<nat>, j: nat, c: nat)
    requires j < |names| && j <= |picks|
  {
    && c < |t.crtcs| && !Taken(leases, held, t.crtcs[c])
    && (var e := EncoderOf(t, names[j]); e.Some? && e.value < |mask| && c in mask[e.value])
    && forall i :: 0 <= i < j ==> picks[i] != c
  }

  /** The j-th named connector can be added behind the earlier ones, which got the CRTCs picks. */
  ghost predicate ConnectorFits(t: Tables, leases: seq<Lease>, held: seq<nat>, mask: seq<set<nat>>,
                                names: seq<string>, picks: seq<nat>, j: nat)
    requires j < |names| && j <= |picks|
  {
    && |held| + 2 * j + 2 <= MAX_LEASE_OBJECT_COUNT
    && (exists k :: 0 <= k < |t.connectors| && k == IndexOf(t.connectorNames, names[j])
                    && !Taken(leases, held, t.connectors[k].id))
    && (forall i :: 0 <= i < j ==> names[i] != names[j])
    && (forall i :: 0 <= i < j ==> EncoderOf(t, names[i]) != EncoderOf(t, names[j]))
    && exists c: nat :: CrtcFits(t, leases, held, mask, names, picks, j, c)
  }

  /** What is wrong with the j-th name. */
  function ConnectorCode(t: Tables, leases: seq<Lease>, held: seq<nat>, names: seq<string>, j: nat): int
    requires j < |names| && |t.connectorNames| == |t.connectors|
  {
    var k := IndexOf(t.connectorNames, names[j]);
    if |held| + 2 * j + 2 > MAX_LEASE_OBJECT_COUNT then -EINVAL
    else if k == |t.connectors| then -ENOENT
    else if Taken(leases, held, t.connectors[k].id) || names[j] in names[..j] then -EBUSY
    else -ENOENT
  }

  /** Each connector in turn takes the first CRTC it can. */
  ghost predicate InTurn(t: Tables, leases: seq<Lease>, held: seq<nat>, mask: seq<set<nat>>, names: seq<string>,
                         picks: seq<nat>) {
    |picks| <= |names| && forall j: nat :: j < |picks| ==> Picked(t, leases, held, mask, names, picks, j)
  }

  ghost predicate Picked(t: Tables, leases: seq<Lease>, held: seq<nat>, mask: seq<set<nat>>, names: seq<string>,
                         picks: seq<nat>, j: nat)
    requires j < |names| && j < |picks|
  {
    && ConnectorFits(t, leases, held, mask, names, picks, j)
    && CrtcFits(t, leases, held, mask, names, picks, j, picks[j])
    && forall c: nat :: c < picks[j] ==> !CrtcFits(t, leases, held, mask, names, picks, j, c)
  }

  /** After these the next connector cannot be added. */
  ghost predicate Stuck(t: Tables, leases: seq<Lease>, held: seq<nat>, mask: seq<set<nat>>, names: seq<string>,
                        picks: seq<nat>) {
    && InTurn(t, leases, held, mask, names, picks)
    && |picks| < |names| && !ConnectorFits(t, leases, held, mask, names, picks, |picks|)
  }

  /** All named connectors get a CRTC. */
  ghost predicate ConnectorsFit(t: Tables, leases: seq<Lease>, held: seq<nat>, mask: seq<set<nat>>,
                                names: seq<string>) {
    exists picks :: |picks| == |names| && InTurn(t, leases, held, mask, names, picks)
  }

  /** There is only one way to take turns. */
  lemma {:induction false} TurnsAgree(t: Tables, leases: seq<Lease>, held: seq<nat>, mask: seq<set<nat>>,
                                      names: seq<string>, a: seq<nat>, b: seq<nat>, n: nat)
    requires InTurn(t, leases, held, mask, names, a) && InTurn(t, leases, held, mask, names, b)
    requires n <= |a| && n <= |b|
    ensures a[..n] == b[..n]
  {
    if n > 0 {
      var j := n - 1;
      TurnsAgree(t, leases, held, mask, names, a, b, j);
      SamePicks(t, leases, held, mask, names, a, b, j);
      assert Picked(t, leases, held, mask, names, a, j) && Picked(t, leases, held, mask, names, b, j);
      hide ConnectorFits, CrtcFits;
      assert CrtcFits(t, leases, held, mask, names, b, j, a[j]) && CrtcFits(t, leases, held, mask, names, a, j, b[j]);
      assert a[..n] == a[..j] + [a[j]] && b[..n] == b[..j] + [b[j]];
    }
  }

  lemma SamePicks(t: Tables, leases: seq<Lease>, held: seq<nat>, mask: seq<set<nat>>, names: seq<string>,
                  a: seq<nat>, b: seq<nat>, j: nat)
    requires j < |names| && j <= |a| && j <= |b| && a[..j] == b[..j]
    ensures forall c: nat :: CrtcFits(t, leases, held, mask, names, a, j, c)
                             <==> CrtcFits(t, leases, held, mask, names, b, j, c)
    ensures ConnectorFits(t, leases, held, mask, names, a, j) <==> ConnectorFits(t, leases, held, mask, names, b, j)
  {
    assert forall i :: 0 <= i < j ==> a[i] == a[..j][i] && b[i] == b[..j][i];
  }

  /** Where all connectors fit one never gets stuck. */
  lemma GoesOn(t: Tables, leases: seq<Lease>, held: seq<nat>, mask: seq<set<nat>>, names: seq<string>, picks: seq<nat>)
    requires InTurn(t, leases, held, mask, names, picks) && |picks| < |names|
    requires ConnectorsFit(t, leases, held, mask, names)
    ensures ConnectorFits(t, leases, held, mask, names, picks, |picks|)
  {
    hide ConnectorFits, CrtcFits;
    var all :| |all| == |names| && InTurn(t, leases, held, mask, names, all);
    var j := |picks|;
    TurnsAgree(t, leases, held, mask, names, picks, all, j);
    SamePicks(t, leases, held, mask, names, picks, all, j);
    assert Picked(t, leases, held, mask, names, all, j);
  }

  lemma StuckIsUnfit(t: Tables, leases: seq<Lease>, held: seq<nat>, mask: seq<set<nat>>, names: seq<string>,
                     picks: seq<nat>)
    requires Stuck(t, leases, held, mask, names, picks)
    ensures !ConnectorsFit(t, leases, held, mask, names)
  {
    hide ConnectorFits, ConnectorsFit, InTurn;
    if ConnectorsFit(t, leases, held, mask, names) { GoesOn(t, leases, held, mask, names, picks); }
  }

  lemma AllFit(t: Tables, leases: seq<Lease>, held: seq<nat>, mask: seq<set<nat>>, names: seq<string>, picks: seq<nat>)
    requires InTurn(t, leases, held, mask, names, picks) && |picks| == |names|
    ensures ConnectorsFit(t, leases, held, mask, names)
  {
  }

  // ----- the list while it is built -----

  /** The list ids and the encoders mask' after the connectors that got the CRTCs picks. */
  ghost predicate Built(t: Tables, held: seq<nat>, mask: seq<set<nat>>, names: seq<string>, picks: seq<nat>,
                        ids: seq<nat>, mask': seq<set<nat>>) {
    && |picks| <= |names| && held <= ids && |ids| == |held| + 2 * |picks| && |mask'| == |mask|
    && (forall j: nat :: j < |picks| ==> PairOf(t, names[j], picks[j], ids, |held| + 2 * j, mask'))
    && (forall e: nat :: e < |mask| && (forall j :: 0 <= j < |picks| ==> EncoderOf(t, names[j]) != Some(e)) ==>
          mask'[e] == mask[e])
  }

  /** At position p the connector of that name and CRTC c, the only one its encoder may drive. */
  ghost predicate PairOf(t: Tables, name: string, c: nat, ids: seq<nat>, p: nat, mask: seq<set<nat>>) {
    && p + 1 < |ids| && c < |t.crtcs| && ids[p + 1] == t.crtcs[c]
    && (var k := IndexOf(t.connectorNames, name); k < |t.connectors| && ids[p] == t.connectors[k].id)
    && (var e := EncoderOf(t, name); e.Some? && e.value < |mask| && mask[e.value] == {c})
  }

  lemma NothingBuilt(t: Tables, leases: seq<Lease>, held: seq<nat>, mask: seq<set<nat>>, names: seq<string>)
    ensures Built(t, held, mask, names, [], held, mask) && InTurn(t, leases, held, mask, names, [])
  {
  }

  /** What the list holds. */
  lemma Members(t: Tables, held: seq<nat>, mask: seq<set<nat>>, names: seq<string>, picks: seq<nat>,
                ids: seq<nat>, mask': seq<set<nat>>, x: nat)
    requires Built(t, held, mask, names, picks, ids, mask')
    ensures x in ids <==>
              x in held || exists i: nat :: i < |picks| && (ids[|held| + 2 * i] == x || ids[|held| + 2 * i + 1] == x)
  {
    hide PairOf;
    if x in ids && x !in held {
      assert forall q :: 0 <= q < |held| ==> held[q] == ids[q];
      var p :| 0 <= p < |ids| && ids[p] == x;
      var i := (p - |held|) / 2;
      assert i < |picks| && (p == |held| + 2 * i || p == |held| + 2 * i + 1);
    }
    if x in held { var p :| 0 <= p < |held| && held[p] == x; assert ids[p] == x; }
  }

  /** The connector of the next name is on the list exactly if it was before or the name was used. */
  lemma NextConnector(t: Tables, leases: seq<Lease>, held: seq<nat>, mask: seq<set<nat>>, names: seq<string>,
                      picks: seq<nat>, ids: seq<nat>, mask': seq<set<nat>>)
    requires Sound(t) && Built(t, held, mask, names, picks, ids, mask') && |picks| < |names|
    ensures var k := IndexOf(t.connectorNames, names[|picks|]);
            k < |t.connectors| ==>
              (Taken(leases, ids, t.connectors[k].id)
               <==> Taken(leases, held, t.connectors[k].id)
                    || exists i :: 0 <= i < |picks| && names[i] == names[|picks|])
  {
    var j := |picks|;
    var k := IndexOf(t.connectorNames, names[j]);
    if k < |t.connectors| {
      SoundParts(t);
      var x := t.connectors[k].id;
      Members(t, held, mask, names, picks, ids, mask', x);
      forall i: nat | i < j
        ensures ids[|held| + 2 * i] == x <==> names[i] == names[j]
        ensures ids[|held| + 2 * i + 1] != x
      {
        assert PairOf(t, names[i], picks[i], ids, |held| + 2 * i, mask');
        var m := IndexOf(t.connectorNames, names[i]);
        assert ConnectorIds(t)[m] == ids[|held| + 2 * i] && ConnectorIds(t)[k] == x;
      }
    }
  }

  /** The CRTCs the next connector could have are those that fit; an encoder that was narrowed
      before has none. */
  lemma NextCrtcs(t: Tables, leases: seq<Lease>, held: seq<nat>, mask: seq<set<nat>>, names: seq<string>,
                  picks: seq<nat>, ids: seq<nat>, mask': seq<set<nat>>, c: nat)
    requires Sound(t) && Built(t, held, mask, names, picks, ids, mask') && |picks| < |names|
    requires EncoderOf(t, names[|picks|]).Some? && EncoderOf(t, names[|picks|]).value < |mask| && c < |t.crtcs|
    ensures var j := |picks|;
            var e := EncoderOf(t, names[j]).value;
            c in mask'[e] && !Taken(leases, ids, t.crtcs[c])
            <==> CrtcFits(t, leases, held, mask, names, picks, j, c)
                 && forall i :: 0 <= i < j ==> EncoderOf(t, names[i]) != EncoderOf(t, names[j])
  {
    var j := |picks|;
    var e := EncoderOf(t, names[j]).value;
    CrtcTaken(t, held, mask, names, picks, ids, mask', c);
    if i: nat :| i < j && EncoderOf(t, names[i]) == Some(e) {
      assert PairOf(t, names[i], picks[i], ids, |held| + 2 * i, mask');
      assert ids[|held| + 2 * i + 1] in ids;
    } else {
      assert mask'[e] == mask[e];
    }
  }

  lemma CrtcTaken(t: Tables, held: seq<nat>, mask: seq<set<nat>>, names: seq<string>, picks: seq<nat>,
                  ids: seq<nat>, mask': seq<set<nat>>, c: nat)
    requires Sound(t) && Built(t, held, mask, names, picks, ids, mask') && c < |t.crtcs|
    ensures t.crtcs[c] in ids <==> t.crtcs[c] in held || exists i: nat :: i < |picks| && picks[i] == c
  {
    SoundParts(t);
    var x := t.crtcs[c];
    Members(t, held, mask, names, picks, ids, mask', x);
    forall i: nat | i < |picks|
      ensures ids[|held| + 2 * i] != x
      ensures ids[|held| + 2 * i + 1] == x <==> picks[i] == c
    {
      assert PairOf(t, names[i], picks[i], ids, |held| + 2 * i, mask');
    }
  }

  // ----- one more connector, or none -----

  lemma Extended(t: Tables, leases: seq<Lease>, held: seq<nat>, mask: seq<set<nat>>, names: seq<string>,
                 picks: seq<nat>, ids: seq<nat>, mask': seq<set<nat>>, c: nat)
    requires Sound(t) && |mask| == |t.isVirtual|
    requires Built(t, held, mask, names, picks, ids, mask') && InTurn(t, leases, held, mask, names, picks)
    requires |picks| < |names| && Chosen(t, leases, names[|picks|], ids, mask', c)
    ensures var k := IndexOf(t.connectorNames, names[|picks|]);
            && k < |t.connectors| && t.connectors[k].encoder.Some? && t.connectors[k].encoder.value < |mask'|
            && Built(t, held, mask, names, picks + [c], ids + [t.connectors[k].id, t.crtcs[c]],
                     mask'[t.connectors[k].encoder.value := {c}])
    ensures InTurn(t, leases, held, mask, names, picks + [c])
  {
    hide InTurn;
    ExtendedList(t, leases, held, mask, names, picks, ids, mask', c);
    ExtendedTurn(t, leases, held, mask, names, picks, ids, mask', c);
    PickedLast(t, leases, held, mask, names, picks, c);
  }

  /** The next connector is free and c is the first free CRTC of its encoder. */
  ghost predicate Chosen(t: Tables, leases: seq<Lease>, name: string, ids: seq<nat>, mask: seq<set<nat>>, c: nat) {
    && |ids| < MAX_LEASE_OBJECT_COUNT - 1
    && (var k := IndexOf(t.connectorNames, name); k < |t.connectors| && !Taken(leases, ids, t.connectors[k].id))
    && (var e := EncoderOf(t, name);
        && e.Some? && e.value < |mask| && c < |t.crtcs| && c in mask[e.value] && !Taken(leases, ids, t.crtcs[c])
        && forall i: nat :: i < c && i in mask[e.value] ==> Taken(leases, ids, t.crtcs[i]))
  }

  lemma ExtendedList(t: Tables, leases: seq<Lease>, held: seq<nat>, mask: seq<set<nat>>, names: seq<string>,
                     picks: seq<nat>, ids: seq<nat>, mask': seq<set<nat>>, c: nat)
    requires Sound(t) && Built(t, held, mask, names, picks, ids, mask')
    requires |picks| < |names| && Chosen(t, leases, names[|picks|], ids, mask', c)
    ensures var k := IndexOf(t.connectorNames, names[|picks|]);
            && k < |t.connectors| && t.connectors[k].encoder.Some? && t.connectors[k].encoder.value < |mask'|
            && Built(t, held, mask, names, picks + [c], ids + [t.connectors[k].id, t.crtcs[c]],
                     mask'[t.connectors[k].encoder.value := {c}])
  {
    var j, k := |picks|, IndexOf(t.connectorNames, names[|picks|]);
    var e := t.connectors[k].encoder.value;
    NextCrtcs(t, leases, held, mask, names, picks, ids, mask', c);
    var longer, narrowed, more := ids + [t.connectors[k].id, t.crtcs[c]], mask'[e := {c}], picks + [c];
    forall i: nat | i < |more| ensures PairOf(t, names[i], more[i], longer, |held| + 2 * i, narrowed) {
      if i < j { assert PairOf(t, names[i], picks[i], ids, |held| + 2 * i, mask'); }
    }
    forall f: nat | f < |mask| && (forall i :: 0 <= i < |more| ==> EncoderOf(t, names[i]) != Some(f))
      ensures narrowed[f] == mask[f]
    {
      assert EncoderOf(t, names[j]) != Some(f);
    }
  }

  lemma ExtendedTurn(t: Tables, leases: seq<Lease>, held: seq<nat>, mask: seq<set<nat>>, names: seq<string>,
                     picks: seq<nat>, ids: seq<nat>, mask': seq<set<nat>>, c: nat)
    requires Sound(t) && Built(t, held, mask, names, picks, ids, mask')
    requires |picks| < |names| && Chosen(t, leases, names[|picks|], ids, mask', c)
    ensures ConnectorFits(t, leases, held, mask, names, picks, |picks|)
    ensures CrtcFits(t, leases, held, mask, names, picks, |picks|, c)
    ensures forall i: nat :: i < c ==> !CrtcFits(t, leases, held, mask, names, picks, |picks|, i)
  {
    hide CrtcFits, Built;
    NextConnector(t, leases, held, mask, names, picks, ids, mask');
    BuiltSize(t, held, mask, names, picks, ids, mask');
    forall i: nat | i <= c ensures CrtcFits(t, leases, held, mask, names, picks, |picks|, i) <==> i == c {
      NextCrtcs(t, leases, held, mask, names, picks, ids, mask', c);
      NextCrtcs(t, leases, held, mask, names, picks, ids, mask', i);
    }
    NextCrtcs(t, leases, held, mask, names, picks, ids, mask', c);
    var k := IndexOf(t.connectorNames, names[|picks|]);
    assert !Taken(leases, held, t.connectors[k].id);
    hide Taken;
    assert CrtcFits(t, leases, held, mask, names, picks, |picks|, c);
  }

  lemma BuiltSize(t: Tables, held: seq<nat>, mask: seq<set<nat>>, names: seq<string>, picks: seq<nat>,
                  ids: seq<nat>, mask': seq<set<nat>>)
    requires Built(t, held, mask, names, picks, ids, mask')
    ensures |picks| <= |names| && |ids| == |held| + 2 * |picks| && |mask'| == |mask|
  {
  }

  lemma PickedLast(t: Tables, leases: seq<Lease>, held: seq<nat>, mask: seq<set<nat>>, names: seq<string>,
                   picks: seq<nat>, c: nat)
    requires InTurn(t, leases, held, mask, names, picks) && |picks| < |names|
    requires ConnectorFits(t, leases, held, mask, names, picks, |picks|)
    requires CrtcFits(t, leases, held, mask, names, picks, |picks|, c)
    requires forall i: nat :: i < c ==> !CrtcFits(t, leases, held, mask, names, picks, |picks|, i)
    ensures InTurn(t, leases, held, mask, names, picks + [c])
  {
    var more := picks + [c];
    forall j: nat | j < |more| ensures Picked(t, leases, held, mask, names, more, j) {
      assert j < |picks| ==> Picked(t, leases, held, mask, names, picks, j);
      assert more[..j] == picks[..j];
      SamePicks(t, leases, held, mask, names, picks, more, j);
      hide ConnectorFits, CrtcFits;
    }
  }

  /** The list is full, or the connector is missing, taken, without an encoder or without a CRTC. */
  ghost predicate Refused(t: Tables, leases: seq<Lease>, name: string, ids: seq<nat>, mask: seq<set<nat>>) {
    || |ids| >= MAX_LEASE_OBJECT_COUNT - 1
    || (var k := IndexOf(t.connectorNames, name);
        k < |t.connectors| ==>
          || Taken(leases, ids, t.connectors[k].id) || t.connectors[k].encoder.None?
          || (var e := t.connectors[k].encoder.value;
              e < |mask| && forall c :: 0 <= c < |t.crtcs| && c in mask[e] ==> Taken(leases, ids, t.crtcs[c])))
  }

  lemma NoneAdded(t: Tables, leases: seq<Lease>, held: seq<nat>, mask: seq<set<nat>>, names: seq<string>,
                  picks: seq<nat>, ids: seq<nat>, mask': seq<set<nat>>)
    requires Sound(t) && |mask| == |t.isVirtual|
    requires Built(t, held, mask, names, picks, ids, mask') && InTurn(t, leases, held, mask, names, picks)
    requires |picks| < |names| && Refused(t, leases, names[|picks|], ids, mask')
    ensures Stuck(t, leases, held, mask, names, picks)
  {
    hide InTurn, Built, CrtcFits;
    var j := |picks|;
    NextConnector(t, leases, held, mask, names, picks, ids, mask');
    BuiltSize(t, held, mask, names, picks, ids, mask');
    if ConnectorFits(t, leases, held, mask, names, picks, j) {
      var c: nat :| CrtcFits(t, leases, held, mask, names, picks, j, c);
      InRange(t, leases, held, mask, names, picks, j, c);
      NextCrtcs(t, leases, held, mask, names, picks, ids, mask', c);
      assert false;
    }
  }

  lemma InRange(t: Tables, leases: seq<Lease>, held: seq<nat>, mask: seq<set<nat>>, names: seq<string>,
                picks: seq<nat>, j: nat, c: nat)
    requires j < |names| && j <= |picks| && CrtcFits(t, leases, held, mask, names, picks, j, c)
    ensures c < |t.crtcs| && EncoderOf(t, names[j]).Some? && EncoderOf(t, names[j]).value < |mask|
  {
  }

  /** The code of a refusal, told from the list at that moment and from the first list. */
  function RefusalCode(t: Tables, leases: seq<Lease>, name: string, ids: seq<nat>): int
    requires |t.connectorNames| == |t.connectors|
  {
    var k := IndexOf(t.connectorNames, name);
    if |ids| >= MAX_LEASE_OBJECT_COUNT - 1 then -EINVAL
    else if k < |t.connectors| && Taken(leases, ids, t.connectors[k].id) then -EBUSY
    else -ENOENT
  }

  lemma CodeOfRefusal(t: Tables, leases: seq<Lease>, held: seq<nat>, mask: seq<set<nat>>, names: seq<string>,
                      picks: seq<nat>, ids: seq<nat>, mask': seq<set<nat>>)
    requires Sound(t) && Built(t, held, mask, names, picks, ids, mask') && |picks| < |names|
    ensures RefusalCode(t, leases, names[|picks|], ids) == ConnectorCode(t, leases, held, names, |picks|) != 0
  {
    hide Built, Taken;
    NextConnector(t, leases, held, mask, names, picks, ids, mask');
    BuiltSize(t, held, mask, names, picks, ids, mask');
    assert names[|picks|] in names[..|picks|] <==> exists i :: 0 <= i < |picks| && names[i] == names[|picks|];
  }

  /** The connectors of a list as it was built. */
  lemma BuiltNames(t: Tables, held: seq<nat>, mask: seq<set<nat>>, names: seq<string>, picks: seq<nat>,
                   ids: seq<nat>, mask': seq<set<nat>>)
    requires Built(t, held, mask, names, picks, ids, mask')
    ensures |picks| <= |names| && held <= ids && |ids| == |held| + 2 * |picks|
    ensures forall j :: 0 <= j < |picks| ==> Named(t.connectorNames, ConnectorIds(t), names, j, ids[|held| + 2 * j])
    ensures forall j: nat :: j < |picks| ==> picks[j] < |t.crtcs| && ids[|held| + 2 * j + 1] == t.crtcs[picks[j]]
  {
    forall j: nat | j < |picks|
      ensures Named(t.connectorNames, ConnectorIds(t), names, j, ids[|held| + 2 * j])
      ensures picks[j] < |t.crtcs| && ids[|held| + 2 * j + 1] == t.crtcs[picks[j]]
    {
      assert PairOf(t, names[j], picks[j], ids, |held| + 2 * j, mask');
    }
  }

  // ----- the list of a device -----

  predicate NamedPlanes(t: Tables, names: seq<string>, held: seq<nat>) {
    |held| == |names| && forall i :: 0 <= i < |held| ==> Named(t.planeNames, t.planes, names, i, held[i])
  }

  lemma NamedPlanesOnce(t: Tables, names: seq<string>, a: seq<nat>, b: seq<nat>)
    requires NamedPlanes(t, names, a) && NamedPlanes(t, names, b)
    ensures a == b
  {
    forall i | 0 <= i < |a| ensures a[i] == b[i] {
      assert Named(t.planeNames, t.planes, names, i, a[i]) && Named(t.planeNames, t.planes, names, i, b[i]);
    }
  }

  /** The device can have what it names: all its planes, and for each of its connectors, which
      are not more than its planes, a CRTC. */
  ghost predicate Parses(t: Tables, leases: seq<Lease>, mask: seq<set<nat>>, w: Wanted) {
    || w.planes == []
    || (&& PlanesFit(t, leases, [], w.planes, |w.planes|)
        && (|| w.connectors == []
            || (&& |w.connectors| <= |w.planes|
                && exists held ::
                     NamedPlanes(t, w.planes, held) && ConnectorsFit(t, leases, held, mask, w.connectors))))
  }

  /** The code of the first obstacle. */
  ghost predicate ParseCode(t: Tables, leases: seq<Lease>, mask: seq<set<nat>>, w: Wanted, rc: int)
    requires |t.connectorNames| == |t.connectors|
  {
    if !PlanesFit(t, leases, [], w.planes, |w.planes|) then
      exists n: nat :: n < |w.planes| && PlanesFit(t, leases, [], w.planes, n)
                       && !PlaneFits(t, leases, [], w.planes, n) && rc == PlaneCode(t, [], w.planes, n)
    else if |w.connectors| > |w.planes| then rc == -EINVAL
    else
      exists held, picks :: NamedPlanes(t, w.planes, held) && Stuck(t, leases, held, mask, w.connectors, picks)
                            && rc == ConnectorCode(t, leases, held, w.connectors, |picks|)
  }

  // ----- the list of the device that gets the rest -----

  /** Added in the order of the device. */
  ghost predicate Ascending(objects: seq<nat>, ids: seq<nat>, from: nat) {
    forall i, j :: from <= i < j < |ids| ==> IndexOf(objects, ids[i]) < IndexOf(objects, ids[j])
  }

  /** Object c is taken, or the list was full before its turn came. */
  ghost predicate Passed(objects: seq<nat>, leases: seq<Lease>, ids: seq<nat>, from: nat, c: nat)
    requires c < |objects|
  {
    || Taken(leases, ids, objects[c])
    || (|ids| >= MAX_LEASE_OBJECT_COUNT && forall i :: from <= i < |ids| ==> IndexOf(objects, ids[i]) < c)
  }

  /** A pass over the first n objects, which adds those in chosen to the list that begins with ids. */
  ghost predicate Sweep(objects: seq<nat>, leases: seq<Lease>, ids: seq<nat>, out: seq<nat>, n: nat, chosen: set<nat>) {
    && n <= |objects| && ids <= out && Ascending(objects, out, |ids|)
    && (forall i :: |ids| <= i < |out| ==> IndexOf(objects, out[i]) < n && IndexOf(objects, out[i]) in chosen)
    && (forall c: nat :: c < n && c in chosen ==> Taken(leases, out, objects[c]))
  }

  ghost function Below(n: nat): (s: set<nat>)
    ensures forall k: nat :: k in s <==> k < n
  {
    if n == 0 then {} else Below(n - 1) + {n - 1}
  }

  lemma SweepBegins(objects: seq<nat>, leases: seq<Lease>, ids: seq<nat>, chosen: set<nat>)
    ensures Sweep(objects, leases, ids, ids, 0, chosen)
  {
  }

  lemma SweepSkips(objects: seq<nat>, leases: seq<Lease>, ids: seq<nat>, out: seq<nat>, n: nat, chosen: set<nat>)
    requires Sweep(objects, leases, ids, out, n, chosen) && n < |objects|
    requires n in chosen ==> Taken(leases, out, objects[n])
    ensures Sweep(objects, leases, ids, out, n + 1, chosen)
  {
    hide Taken;
  }

  lemma SweepAdds(objects: seq<nat>, leases: seq<Lease>, ids: seq<nat>, out: seq<nat>, n: nat, chosen: set<nat>)
    requires Sweep(objects, leases, ids, out, n, chosen) && n < |objects| && n in chosen && Distinct(objects)
    ensures Sweep(objects, leases, ids, out + [objects[n]], n + 1, chosen)
  {
    IndexOfDistinct(objects, n);
    var more := out + [objects[n]];
    assert objects[n] in more;
    forall c: nat | c < n && c in chosen ensures Taken(leases, more, objects[c]) {
      assert Taken(leases, out, objects[c]);
    }
    hide IndexOf, Distinct, Taken;
  }

  lemma SweepEnds(objects: seq<nat>, leases: seq<Lease>, ids: seq<nat>, out: seq<nat>, n: nat, chosen: set<nat>)
    requires Sweep(objects, leases, ids, out, n, chosen)
    requires n == |objects| || |out| >= MAX_LEASE_OBJECT_COUNT
    ensures ids <= out && Ascending(objects, out, |ids|)
    ensures forall i :: |ids| <= i < |out| ==>
              IndexOf(objects, out[i]) < |objects| && IndexOf(objects, out[i]) in chosen
    ensures forall c: nat :: c < |objects| && c in chosen ==> Passed(objects, leases, out, |ids|, c)
    ensures |out| < MAX_LEASE_OBJECT_COUNT ==>
              forall c: nat :: c < |objects| && c in chosen ==> Taken(leases, out, objects[c])
  {
    hide Taken, IndexOf;
    forall c: nat | c < |objects| && c in chosen ensures Passed(objects, leases, out, |ids|, c) {
    }
  }

  /** Every plane that nobody has, in order, as long as there is room. */
  ghost predicate PlanePass(t: Tables, leases: seq<Lease>, ids: seq<nat>) {
    && Ascending(t.planes, ids, 0) && (forall k: nat :: k < |t.planes| ==> Passed(t.planes, leases, ids, 0, k))
    && forall i :: 0 <= i < |ids| ==> ids[i] in t.planes && !Leased(leases, ids[i])
  }

  /** The planes such a list starts with: those named, up to the first obstacle, or all there are. */
  ghost predicate StartOf(t: Tables, leases: seq<Lease>, w: Wanted, start: seq<nat>) {
    if w.planes == [] then PlanePass(t, leases, start)
    else
      && |start| <= |w.planes| && PlanesFit(t, leases, [], w.planes, |start|)
      && (|start| < |w.planes| ==> !PlaneFits(t, leases, [], w.planes, |start|))
      && forall i :: 0 <= i < |start| ==> Named(t.planeNames, t.planes, w.planes, i, start[i])
  }

  /** And with named connectors it goes on with those, each with its CRTC, up to the first obstacle. */
  ghost predicate RestIsNamed(t: Tables, leases: seq<Lease>, mask: seq<set<nat>>, w: Wanted, ids: seq<nat>,
                              mask': seq<set<nat>>) {
    exists start, picks ::
      && StartOf(t, leases, w, start) && Built(t, start, mask, w.connectors, picks, ids, mask')
      && InTurn(t, leases, start, mask, w.connectors, picks)
      && (|picks| < |w.connectors| ==> Stuck(t, leases, start, mask, w.connectors, picks))
  }
}
