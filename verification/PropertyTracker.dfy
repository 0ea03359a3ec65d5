/** The property helper of msm_prop.c in its own form: a lookup that remembers its last hit,
    property states with intrusive dirty lists and blob pointers, and a cache of two state
    objects. */
module PropertyTracker {
  import opened PropertyHolders
  import opened PropertyRefs
  import opened PropertyQueue

  const MSM_PROP_STATE_CACHE_SIZE: nat := 2
  const EINVAL: int := 22
  const EAGAIN: int := 11

  /** One event on a dirty list. */
  function After(dirty: seq<nat>, e: Event): seq<nat> {
    match e
    case SetDirty(i) => Marked(dirty, i)
    case PopDirty => Popped(dirty)
  }

  ghost predicate RecordedIn(st: States, happened: map<nat, seq<Event>>) {
    forall h :: h in st ==> h in happened && Dirty(happened[h]) == st[h].dirty
  }

  lemma RecordedWith(st: States, happened: map<nat, seq<Event>>, h: nat, s: PropState, es: seq<Event>)
    requires RecordedIn(st, happened) && h in st && |es| <= 1
    requires s.dirty == if es == [] then st[h].dirty else After(st[h].dirty, es[0])
    ensures h in happened && RecordedIn(st[h := s], happened[h := happened[h] + es])
  {
    if es == [] {
      assert happened[h] + es == happened[h];
    } else {
      assert happened[h] + es == happened[h] + [es[0]];
      DirtyStep(happened[h], es[0]);
    }
    hide Dirty;
  }

  lemma RecordedAnew(st: States, happened: map<nat, seq<Event>>, h: nat, s: PropState)
    requires s.dirty == []
    ensures RecordedIn(st, happened) ==> RecordedIn(st[h := s], happened[h := []])
  {
  }

  lemma RecordedLess(st: States, happened: map<nat, seq<Event>>, h: nat)
    ensures RecordedIn(st, happened) ==> RecordedIn(st - {h}, happened)
  {
  }

  class PropertyInfo {
    const props: seq<nat>           // the property objects
    const isBlob: seq<bool>         // their blob flag
    const defaults: seq<nat>
    const forceDirty: seq<bool>
    const blobCount: nat
    const stateSize: nat

    var recent: int
    var cache: seq<nat>             // addresses of unused state objects
    var raw: set<nat>               // allocated, not yet reset or copied to
    var states: States
    var refs: Refs
    ghost var others: Refs
    ghost var happened: map<nat, seq<Event>>    // to each state since it was initialised

    ghost predicate Shaped() {
      && |isBlob| == |props| && |defaults| == |props| && |forceDirty| == |props| && blobCount <= |props|
    }

    ghost predicate Valid()
      reads this
    {
      && Shaped()
      && (if props == [] then recent == 0 else 0 <= recent < |props|)
      && |cache| <= MSM_PROP_STATE_CACHE_SIZE
      && (forall a, b :: 0 <= a < b < |cache| ==> cache[a] != cache[b])
      && (forall a :: 0 <= a < |cache| ==> cache[a] !in InUse())
      && raw !! states.Keys
      && StatesOk(states)
    }

    ghost predicate StatesOk(st: States) {
      forall h :: h in st ==> StateOk(st[h])
    }

    ghost predicate StateOk(s: PropState) {
      && |s.slots| == |props|
      && Distinct(s.dirty)
      && forall a :: 0 <= a < |s.dirty| ==> s.dirty[a] < |props|
    }

    ghost function InUse(): set<nat>
      reads this
    {
      states.Keys + raw
    }

    /** The dirty list of every state is what its history makes it. */
    ghost predicate Recorded()
      reads this
    {
      RecordedIn(states, happened)
    }

    /** So it holds exactly the properties set since they were last popped, once each, in the
        order of their first setting. */
    lemma DirtyInOrder(h: nat) returns (first: seq<nat>)
      requires Recorded() && h in states
      ensures h in happened && Distinct(states[h].dirty) && Dated(happened[h], states[h].dirty, first)
      ensures forall k: nat, i: nat :: Pending(happened[h], k, i) ==> i in states[h].dirty
    {
      hide Dirty, Dated, Pending, Distinct;
      first := DirtyIsFirstSetOrder(happened[h]);
    }

    /** The blob references add up. */
    ghost predicate Exact()
      reads this
    {
      Accounted(refs, others, states)
    }

    constructor (props: seq<nat>, isBlob: seq<bool>, defaults: seq<nat>, forceDirty: seq<bool>,
                 blobCount: nat, stateSize: nat)
      requires |isBlob| == |props| && |defaults| == |props| && |forceDirty| == |props|
      ensures Valid() && Exact() && Recorded() && this.props == props && states == map[] && cache == []
    {
      this.props, this.isBlob, this.defaults, this.forceDirty := props, isBlob, defaults, forceDirty;
      this.blobCount := if blobCount > |props| then |props| else blobCount;
      this.stateSize := stateSize;
      recent, cache, raw, states, refs, others, happened := 0, [], {}, map[], map[], map[], map[];
    }

    // ----- lookup -----

    /** The first match on the way down from the last hit, wrapping once; the hit is remembered. */
    method Index(p: nat) returns (rc: int)
      requires Valid()
      modifies this`recent
      ensures Valid()
      ensures rc == -EINVAL <==> p !in props
      ensures rc == -EINVAL ==> recent == old(recent)
      ensures rc != -EINVAL ==> 0 <= rc < |props| && recent == rc && FoundFrom(props, old(recent), p, rc)
    {
      rc := -EINVAL;
      var idx, count := recent, |props|;
      while count > 0
        invariant 0 <= count <= |props|
        invariant count > 0 ==> idx == Visited(recent, |props|, |props| - count)
        invariant forall k: nat :: k < |props| - count ==> props[Visited(recent, |props|, k)] != p
      {
        count := count - 1;
        if props[idx] == p {
          assert idx == Visited(recent, |props|, |props| - count - 1);
          recent := idx;
          rc := idx;
          return;
        }
        idx := idx - 1;
        if idx < 0 { idx := |props| - 1; }
      }
      if p in props {
        var i :| 0 <= i < |props| && props[i] == p;
        VisitsEachOnce(recent, |props|, i);
      }
    }

    // ----- the dirty list -----

    method Relist(h: nat, dirty: seq<nat>, ghost e: Event)
      requires Valid() && h in states && StateOk(states[h].(dirty := dirty)) && dirty == After(states[h].dirty, e)
      modifies this`states, this`happened
      ensures Valid() && states == old(states)[h := old(states)[h].(dirty := dirty)]
      ensures old(Exact()) ==> Exact()
      ensures old(Recorded()) ==> Recorded() && happened == old(happened)[h := old(happened)[h] + [e]]
    {
      hide Accounted, RecordedIn, After;
      if Exact() { DirtyKeepsAccounts(refs, others, states, h, dirty); }
      if Recorded() {
        RecordedWith(states, happened, h, states[h].(dirty := dirty), [e]);
        happened := happened[h := happened[h] + [e]];
      }
      states := states[h := states[h].(dirty := dirty)];
    }

    lemma MarkedOk(s: PropState, i: nat)
      requires Shaped() && StateOk(s) && i < |props|
      ensures StateOk(s.(dirty := Marked(s.dirty, i))) && StateOk(s.(dirty := Popped(s.dirty)))
    {
    }

    method SetDirty(h: nat, i: int) returns (rc: int)
      requires Valid() && h in states
      modifies this`states, this`happened
      ensures Valid() && rc == 0
      ensures states == if 0 <= i < |props|
              then old(states)[h := old(states)[h].(dirty := Marked(old(states)[h].dirty, i))]
                        else old(states)
      ensures old(Exact()) ==> Exact()
      ensures old(Recorded()) ==>
                Recorded()
                && happened == if 0 <= i < |props| then old(happened)[h := old(happened)[h] + [Event.SetDirty(i)]]
                               else old(happened)
    {
      hide Accounted, StateOk, RecordedIn;
      if 0 <= i < |props| {
        MarkedOk(states[h], i);
        var dirty := if i in states[h].dirty then states[h].dirty else states[h].dirty + [i];
        Relist(h, dirty, Event.SetDirty(i));
      }
      rc := 0;
    }

    /** The oldest dirty property, or -EAGAIN. */
    method PopDirty(h: nat) returns (rc: int)
      requires Valid() && h in states
      modifies this`states, this`happened
      ensures Valid()
      ensures old(Recorded()) ==> Recorded() && happened == old(happened)[h := old(happened)[h] + [Event.PopDirty]]
      ensures rc == -EAGAIN <==> old(states)[h].dirty == []
      ensures rc == -EAGAIN ==> states == old(states)
      ensures rc != -EAGAIN ==> h in states && rc >= 0 && old(states)[h].dirty == [rc as nat] + states[h].dirty
      ensures states == old(states)[h := old(states)[h].(dirty := Popped(old(states)[h].dirty))]
      ensures old(Exact()) ==> Exact()
    {
      hide Accounted, RecordedIn;
      var d := states[h].dirty;
      if d == [] {
        rc := -EAGAIN;
        assert states == states[h := states[h].(dirty := [])];
        Relist(h, [], Event.PopDirty);
      } else {
        rc := d[0];
        assert d == [d[0]] + d[1..];
        Relist(h, d[1..], Event.PopDirty);
      }
    }

    static lemma Moved(done: seq<nat>, before: seq<nat>, x: nat, rest: seq<nat>)
      requires before == [x] + rest
      ensures done + before == done + [x] + rest
    {
    }

    /** What callers do each frame: pop until there is nothing more. */
    method DrainDirty(h: nat) returns (popped: seq<nat>)
      requires Valid() && h in states
      modifies this`states, this`happened
      ensures Valid() && h in states && states[h] == old(states)[h].(dirty := [])
      ensures old(Recorded()) ==> Recorded()
      ensures popped == old(states)[h].dirty && |popped| <= |props|
      ensures old(Exact()) ==> Exact()
    {
      hide Accounted, Distinct, Popped, RecordedIn;
      popped := [];
      DistinctIsShort(states[h].dirty, |props|);
      while true
        invariant Valid() && h in states && states[h].slots == old(states)[h].slots
        invariant popped + states[h].dirty == old(states)[h].dirty
        invariant (old(Exact()) ==> Exact()) && (old(Recorded()) ==> Recorded())
        decreases |states[h].dirty|
      {
        ghost var before := states[h].dirty;
        var rc := PopDirty(h);
        if rc == -EAGAIN { return; }
        Moved(popped, before, rc, states[h].dirty);
        popped := popped + [rc as nat];
      }
    }

    // ----- setting a property -----

    /** What slot s of property i and the references become when the property is set to val. */
    ghost function SetSlot(r: Refs, i: nat, s: Slot, val: nat): (Refs, Slot)
      requires Shaped() && i < |props| && (s.blob.Some? ==> s.blob.value in r)
    {
      if isBlob[i] && i < blobCount then SetBlob(r, s, val) else (r, s.(value := val))
    }

    /** What the state becomes: the property is dirty if its value changed or it always is. */
    ghost function SetState(s: PropState, i: nat, t: Slot): PropState
      requires Shaped() && StateOk(s) && i < |props|
    {
      PropState(s.slots[i := t],
                if s.slots[i].value != t.value || forceDirty[i] then Marked(s.dirty, i) else s.dirty)
    }

    lemma SetStateOk(s: PropState, i: nat, t: Slot)
      requires Shaped() && StateOk(s) && i < |props|
      ensures StateOk(SetState(s, i, t))
    {
    }

    ghost predicate Loses(r: Refs, i: nat, s: Slot, val: nat)
      requires Shaped() && i < |props|
    {
      isBlob[i] && i < blobCount && Misses(r, s, val) && s.blob.Some?
    }

    /** The blob part: drop the old reference, look the new blob up, save what was found. */
    method SaveBlob(h: nat, i: nat, val: nat) returns (v: nat)
      requires h in states && i < |states[h].slots|
      requires states[h].slots[i].blob.Some? ==> states[h].slots[i].blob.value in refs
      modifies this`refs, this`states
      ensures refs == SetBlob(old(refs), old(states)[h].slots[i], val).0
      ensures v == SetBlob(old(refs), old(states)[h].slots[i], val).1.value
      ensures var s := old(states)[h].slots[i];
              states == Written(old(states), h, i, Slot(s.value, SetBlob(old(refs), s, val).1.blob))
    {
      hide SetBlob, Dropped, Got, Written, BlobId;
      SetBlobCases(refs, states[h].slots[i], val);
      DropOld(states[h].slots[i]);
      var id := BlobId(val);
      if id in refs {
        refs := Got(refs, id);
        v := id;
        SetPointer(h, i, Some(id));
      } else {
        v := 0;
        if val == 0 { SetPointer(h, i, None); }
        else { Rewritten(states, h, i); }
      }
    }

    method DropOld(s: Slot)
      requires s.blob.Some? ==> s.blob.value in refs
      modifies this`refs
      ensures refs == Dropped(old(refs), s)
    {
      if s.blob.Some? { refs := Put(refs, s.blob.value); }
    }

    method SetPointer(h: nat, i: nat, blob: Option<nat>)
      requires h in states && i < |states[h].slots|
      modifies this`states
      ensures states == Written(old(states), h, i, Slot(old(states)[h].slots[i].value, blob))
    {
      states := states[h := states[h].(slots := states[h].slots[i := states[h].slots[i].(blob := blob)])];
    }

    lemma Rewritten(st: States, h: nat, i: nat)
      requires h in st && i < |st[h].slots|
      ensures Written(st, h, i, st[h].slots[i]) == st
    {
      assert st[h].slots[i := st[h].slots[i]] == st[h].slots;
    }

    method SaveValue(h: nat, i: nat, v: nat)
      requires Shaped() && h in states && StateOk(states[h]) && i < |props|
      modifies this`states
      ensures var s := old(states)[h];
              states == old(states)[h := SetState(s, i, s.slots[i].(value := v))]
    {
      var s := states[h];
      if s.slots[i].value != v || forceDirty[i] {
        var dirty := if i in s.dirty then s.dirty else s.dirty + [i];
        states := states[h := PropState(s.slots[i := s.slots[i].(value := v)], dirty)];
      } else {
        assert s.slots[i := s.slots[i].(value := v)] == s.slots;
        assert states == states[h := s];
      }
    }

    ghost function RefsAfter(r: Refs, st: States, h: nat, i: nat, val: nat): Refs
      requires Shaped() && i < |props| && h in st && StateOk(st[h]) && PointsToLive(r, st[h].slots[i])
    {
      SetSlot(r, i, st[h].slots[i], val).0
    }

    ghost function StatesAfter(r: Refs, st: States, h: nat, i: nat, val: nat): States
      requires Shaped() && i < |props| && h in st && StateOk(st[h]) && PointsToLive(r, st[h].slots[i])
    {
      st[h := SetState(st[h], i, SetSlot(r, i, st[h].slots[i], val).1)]
    }

    ghost predicate PointsToLive(r: Refs, s: Slot) {
      s.blob.Some? ==> s.blob.value in r
    }

    method Apply(h: nat, i: nat, val: nat)
      requires Shaped() && h in states && StateOk(states[h]) && i < |props|
      requires PointsToLive(refs, states[h].slots[i])
      modifies this`refs, this`states
      ensures refs == RefsAfter(old(refs), old(states), h, i, val)
      ensures states == StatesAfter(old(refs), old(states), h, i, val)
    {
      hide SetBlob, SetState, Written;
      ghost var was, s := states, states[h].slots[i];
      ghost var t := SetSlot(refs, i, s, val).1;
      TwoWrites(was, h, i, t);
      Rewritten(states, h, i);
      var v := val;
      if isBlob[i] && i < blobCount { v := SaveBlob(h, i, val); }
      assert states == Written(was, h, i, Slot(s.value, t.blob)) && v == t.value;
      hide SetSlot, StateOk;
      SaveValue(h, i, v);
    }

    /** msm_property_atomic_set: one slot of one state changes.  A plain property takes the value;
        a blob property the id and the pointer if that blob is still alive once the old one is
        given back, value 0 and no pointer for id 0, and value 0 beside the old pointer if the
        lookup fails.  The property becomes dirty, last unless it is listed, exactly when its
        value changed or it always is.  The accounts stay exact if and only if no lookup fails
        for a slot that holds a blob. */
    method AtomicSet(h: nat, p: nat, val: nat) returns (rc: int)
      requires Valid() && Exact() && h in states
      modifies this`recent, this`refs, this`states, this`happened
      ensures Valid() && (old(Recorded()) ==> Recorded())
      ensures p !in props ==> rc == -EINVAL && states == old(states) && refs == old(refs)
      ensures p in props ==> rc == 0 && 0 <= recent < |props| && props[recent] == p
      ensures p in props ==> PointsToLive(old(refs), old(states)[h].slots[recent])
      ensures p in props ==> h in states && |states[h].slots| == |old(states)[h].slots| == |props|
                             && states == old(states)[h := states[h]]
      ensures p in props ==> forall j :: 0 <= j < |props| && j != recent ==>
                               states[h].slots[j] == old(states)[h].slots[j]
      ensures p in props ==>
                var was, now, id := old(states)[h].slots[recent], states[h].slots[recent], val % 0x1_0000_0000;
                var blobs := isBlob[recent] && recent < blobCount;
                var found := id in old(refs) && !(was.blob == Some(id) && old(refs)[id] <= 1);
                && (!blobs ==> now.value == val && now.blob == was.blob)
                && (blobs && found ==> now.value == id && now.blob == Some(id))
                && (blobs && !found && val == 0 ==> now.value == 0 && now.blob == None)
                && (blobs && !found && val != 0 ==> now.value == 0 && now.blob == was.blob)
                && (forall b: nat :: RefCount(refs, b) == RefCount(old(refs), b)
                                     - (if blobs && was.blob == Some(b) then 1 else 0)
                                     + (if blobs && found && b == id then 1 else 0))
      ensures p in props ==>
                states[h].dirty ==
                if (states[h].slots[recent].value != old(states)[h].slots[recent].value || forceDirty[recent])
                   && recent !in old(states)[h].dirty
                then old(states)[h].dirty + [recent] else old(states)[h].dirty
      ensures p in props ==> (Exact() <==> !Loses(old(refs), recent, old(states)[h].slots[recent], val))
    {
      hide Accounted, Loses, StatesOk, FoundFrom, PointsToLive, RecordedIn;
      var i := Index(p);
      if i == -EINVAL { return -EINVAL; }
      SetFound(h, i, val);
      rc := 0;
    }

    method SetFound(h: nat, i: nat, val: nat)
      requires Valid() && Exact() && h in states && i < |props|
      modifies this`refs, this`states, this`happened
      ensures Valid() && (old(Recorded()) ==> Recorded())
      ensures |old(states)[h].slots| == |props| && h in states && states == old(states)[h := states[h]]
      ensures SetLike(old(states)[h], states[h], i)
      ensures PointsToLive(old(refs), old(states)[h].slots[i])
      ensures SlotMeans(old(refs), refs, i, old(states)[h].slots[i], states[h].slots[i], val)
      ensures Exact() <==> !Loses(old(refs), i, old(states)[h].slots[i], val)
    {
      hide Accounted, RefsAfter, StatesAfter, Loses, StatesOk, PointsToLive, RecordedIn, SlotMeans;
      SetIsSound(h, i, val);
      SetMeans(refs, states, h, i, val);
      if Recorded() { happened := SetRecorded(h, i, val); }
      Apply(h, i, val);
    }

    /** Only slot i differs, and the property is dirty if that changed it or it always is. */
    ghost predicate SetLike(was: PropState, now: PropState, i: nat)
      requires Shaped() && i < |props| && |was.slots| == |props|
    {
      && |now.slots| == |props|
      && (forall j :: 0 <= j < |props| && j != i ==> now.slots[j] == was.slots[j])
      && now.dirty == if (now.slots[i].value != was.slots[i].value || forceDirty[i]) && i !in was.dirty
                      then was.dirty + [i] else was.dirty
    }

    /** What a set makes of the slot, the references and the dirty list. */
    lemma SetMeans(r: Refs, st: States, h: nat, i: nat, val: nat)
      requires Shaped() && i < |props| && h in st && StateOk(st[h]) && PointsToLive(r, st[h].slots[i]) && Positive(r)
      ensures var after := StatesAfter(r, st, h, i, val);
              h in after && after == st[h := after[h]] && SetLike(st[h], after[h], i)
              && SlotMeans(r, RefsAfter(r, st, h, i, val), i, st[h].slots[i], after[h].slots[i], val)
    {
      hide SetSlot, SlotMeans;
      SlotIsSet(r, i, st[h].slots[i], val);
    }

    ghost predicate SlotMeans(r: Refs, r': Refs, i: nat, was: Slot, now: Slot, val: nat)
      requires Shaped() && i < |props|
    {
      var id, blobs := val % 0x1_0000_0000, isBlob[i] && i < blobCount;
      var found := id in r && !(was.blob == Some(id) && r[id] <= 1);
      && (!blobs ==> now.value == val && now.blob == was.blob)
      && (blobs && found ==> now.value == id && now.blob == Some(id))
      && (blobs && !found && val == 0 ==> now.value == 0 && now.blob == None)
      && (blobs && !found && val != 0 ==> now.value == 0 && now.blob == was.blob)
      && (forall b: nat :: RefCount(r', b) == RefCount(r, b) - (if blobs && was.blob == Some(b) then 1 else 0)
                                              + (if blobs && found && b == id then 1 else 0))
    }

    lemma SlotIsSet(r: Refs, i: nat, s: Slot, val: nat)
      requires Shaped() && i < |props| && PointsToLive(r, s) && Positive(r)
      ensures SlotMeans(r, SetSlot(r, i, s, val).0, i, s, SetSlot(r, i, s, val).1, val)
    {
    }

    /** The history after a set: the property was set dirty if its value changed or it always is. */
    lemma SetRecorded(h: nat, i: nat, val: nat) returns (now: map<nat, seq<Event>>)
      requires Recorded() && Shaped() && i < |props| && h in states && StateOk(states[h])
      requires PointsToLive(refs, states[h].slots[i])
      ensures RecordedIn(StatesAfter(refs, states, h, i, val), now)
    {
      hide RecordedIn, SetSlot, Dirty;
      var s, t := states[h], SetSlot(refs, i, states[h].slots[i], val).1;
      var es := if s.slots[i].value != t.value || forceDirty[i] then [Event.SetDirty(i)] else [];
      RecordedWith(states, happened, h, SetState(s, i, t), es);
      now := happened[h := happened[h] + es];
    }

    /** What there is to know before a set: the old blob is alive, the new states are in order,
        and whether the accounts will be exact. */
    lemma SetIsSound(h: nat, i: nat, val: nat)
      requires Valid() && Exact() && h in states && i < |props|
      ensures StateOk(states[h]) && PointsToLive(refs, states[h].slots[i]) && Positive(refs)
      ensures StatesOk(StatesAfter(refs, states, h, i, val)) && StatesAfter(refs, states, h, i, val).Keys == states.Keys
      ensures Accounted(RefsAfter(refs, states, h, i, val), others, StatesAfter(refs, states, h, i, val))
              <==> !Loses(refs, i, states[h].slots[i], val)
    {
      assert Positive(refs);
      hide Accounted, SetState, SetSlot, Loses;
      if states[h].slots[i].blob.Some? { HeldIsLive(refs, others, states, h, i); }
      SetStateOk(states[h], i, SetSlot(refs, i, states[h].slots[i], val).1);
      AccountsAfterSet(refs, states, h, i, val);
    }

    /** Saving the blob and then the value sets the whole slot. */
    lemma TwoWrites(st: States, h: nat, i: nat, t: Slot)
      requires Shaped() && h in st && StateOk(st[h]) && i < |props|
      ensures var mid := Written(st, h, i, Slot(st[h].slots[i].value, t.blob));
              && h in mid && StateOk(mid[h])
              && mid[h := SetState(mid[h], i, mid[h].slots[i].(value := t.value))] == st[h := SetState(st[h], i, t)]
    {
      var mid := Written(st, h, i, Slot(st[h].slots[i].value, t.blob));
      assert mid[h].slots[i := t] == st[h].slots[i := t];
    }

    lemma AccountsAfterSet(r0: Refs, st: States, h: nat, i: nat, val: nat)
      requires Shaped() && h in st && StateOk(st[h]) && i < |props| && Accounted(r0, others, st)
      requires st[h].slots[i].blob.Some? ==> st[h].slots[i].blob.value in r0
      ensures Accounted(SetSlot(r0, i, st[h].slots[i], val).0, others,
                        st[h := SetState(st[h], i, SetSlot(r0, i, st[h].slots[i], val).1)])
              <==> !Loses(r0, i, st[h].slots[i], val)
    {
      hide Accounted, SetBlob, Misses;
      var s := st[h].slots[i];
      var (r, t) := SetSlot(r0, i, s, val);
      var written := Written(st, h, i, t);
      if isBlob[i] && i < blobCount { SetKeepsAccountsIff(r0, others, st, h, i, val); }
      else { ValueKeepsAccounts(r0, others, st, h, i, val); }
      SameSlotsSameAccounts(r, written, st[h := SetState(st[h], i, t)], h);
    }

    lemma SameSlotsSameAccounts(r: Refs, a: States, b: States, h: nat)
      requires h in a && h in b && a[h].slots == b[h].slots && b == a[h := b[h]]
      ensures Accounted(r, others, a) <==> Accounted(r, others, b)
    {
      forall x: nat ensures Holders(a, x) == Holders(b, x) {
      }
    }

    // ----- states coming and going -----

    /** msm_property_alloc_state: a cached object, else what the system allocator returns. */
    method AllocState(memory: Option<nat>) returns (h: Option<nat>)
      requires Valid() && (memory.Some? ==> memory.value !in InUse() && memory.value !in cache)
      modifies this`cache, this`raw
      ensures Valid()
      ensures h == if old(cache) != [] then Some(old(cache)[|old(cache)| - 1])
                   else if stateSize > 0 then memory else None
      ensures h.Some? ==> h.value !in old(InUse()) && raw == old(raw) + {h.value}
      ensures h.None? ==> raw == old(raw)
      ensures cache == if old(cache) != [] then old(cache)[..|old(cache)| - 1] else []
    {
      h := None;
      if cache != [] {
        var n := |cache| - 1;
        h := Some(cache[n]);
        cache := cache[..n];
      } else if stateSize > 0 {
        h := memory;
      }
      if h.Some? { raw := raw + {h.value}; }
    }

    ghost function Default(): (s: PropState)
      requires Shaped()
      ensures StateOk(s) && Blobless(s) && s.dirty == []
      ensures forall i :: 0 <= i < |props| ==> s.slots[i].value == defaults[i]
    {
      PropState(seq(|props|, i requires 0 <= i < |props| => Slot(defaults[i], None)), [])
    }

    /** msm_property_reset_state.  On a state already in use the accounts stay exact if and
        only if it holds no blob. */
    method ResetState(h: nat)
      requires Valid() && Exact() && h in InUse()
      modifies this`states, this`raw, this`happened
      ensures Valid() && InUse() == old(InUse()) && (old(Recorded()) ==> Recorded())
      ensures states == old(states)[h := Default()] && raw == old(raw) - {h}
      ensures Exact() <==> (h in old(states) ==> Blobless(old(states)[h]))
    {
      hide Accounted, Blobless, RecordedIn;
      RecordedAnew(states, happened, h, Default());
      happened := happened[h := []];
      if h in states { ResetKeepsAccountsIff(refs, others, states, h, Default()); }
      else { AdditionKeepsAccounts(refs, others, states, h, Default()); }
      var slots := [];
      for i := 0 to |props|
        invariant |slots| == i && forall j :: 0 <= j < i ==> slots[j] == Slot(defaults[j], None)
      {
        slots := slots + [Slot(defaults[i], None)];
      }
      assert PropState(slots, []) == Default();
      states := states[h := PropState(slots, [])];
      raw := raw - {h};
    }

    /** msm_property_duplicate_state: the copy shares the blobs and starts clean. */
    method DuplicateState(from: nat, h: nat)
      requires Valid() && Exact() && from in states && h in raw
      modifies this`states, this`raw, this`refs, this`happened
      ensures Valid() && Exact() && InUse() == old(InUse()) && (old(Recorded()) ==> Recorded())
      ensures states == old(states)[h := PropState(old(states)[from].slots, [])] && raw == old(raw) - {h}
    {
      hide Accounted, AccountedUpTo, RecordedIn;
      RecordedAnew(states, happened, h, PropState(states[from].slots, []));
      happened := happened[h := []];
      CountingStarts(refs, others, states, h, PropState(states[from].slots, []));
      states := states[h := PropState(states[from].slots, [])];
      raw := raw - {h};
      for i := 0 to |props|
        invariant AccountedUpTo(refs, others, states, h, i)
        invariant states == old(states)[h := PropState(old(states)[from].slots, [])] && raw == old(raw) - {h}
        invariant happened == old(happened)[h := []]
      {
        CountingStep(refs, others, states, from, h, i);
        var blob := states[h].slots[i].blob;
        if blob.Some? { refs := Got(refs, blob.value); }
      }
      CountingEnds(refs, others, states, h);
    }

    /** msm_property_destroy_state: every blob reference goes back, the object to the cache. */
    method DestroyState(h: nat)
      requires Valid() && Exact() && h in states
      modifies this`states, this`refs, this`cache
      ensures Valid() && Exact() && (old(Recorded()) ==> Recorded())
      ensures states == old(states) - {h} && h !in InUse()
      ensures cache == if |old(cache)| < MSM_PROP_STATE_CACHE_SIZE then old(cache) + [h] else old(cache)
    {
      hide Accounted, Blobless, RecordedIn;
      RecordedLess(states, happened, h);
      for i := 0 to |props|
        invariant cache == old(cache)
        invariant Exact() && h in states && states.Keys == old(states).Keys && states - {h} == old(states) - {h}
        invariant |states[h].slots| == |props| && forall j :: 0 <= j < i ==> states[h].slots[j].blob == None
      {
        var s := states[h].slots[i];
        if s.blob.Some? {
          PutKeepsAccounts(refs, others, states, h, i);
          refs := Put(refs, s.blob.value);
          states := Written(states, h, i, s.(blob := None));
        }
      }
      assert Blobless(states[h]) by { BloblessIf(states[h]); }
      RemovalKeepsAccounts(refs, others, states, h);
      states := states - {h};
      if |cache| < MSM_PROP_STATE_CACHE_SIZE { cache := cache + [h]; }
    }

    lemma BloblessIf(s: PropState)
      requires forall j :: 0 <= j < |s.slots| ==> s.slots[j].blob == None
      ensures Blobless(s)
    {
    }

    // ----- the rest of the kernel -----

    /** A reference to a blob is taken outside, possibly the first. */
    method TakeOutside(b: nat)
      requires Valid() && Exact() && b > 0
      modifies this`refs, this`others
      ensures Valid() && Exact() && RefCount(refs, b) == old(RefCount(refs, b)) + 1
    {
      hide Accounted;
      OutsideKeepsAccounts(refs, others, states, b);
      refs := refs[b := RefCount(refs, b) + 1];
      others := others[b := RefCount(others, b) + 1];
    }

    method DropOutside(b: nat)
      requires Valid() && Exact() && b in others
      modifies this`refs, this`others
      ensures Valid() && Exact() && RefCount(refs, b) == old(RefCount(refs, b)) - 1
    {
      OutsideKeepsAccounts(refs, others, states, b);
      refs := Put(refs, b);
      others := Put(others, b);
    }
  }
}
