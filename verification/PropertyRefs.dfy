/** The reference counts of property blobs against the slots that point at them. */
module PropertyRefs {
  import opened PropertyHolders

  /** References to every live blob; a blob without references is gone. */
  type Refs = map<nat, nat>

  ghost predicate Positive(refs: Refs) {
    forall b :: b in refs ==> b > 0 && refs[b] > 0
  }

  function RefCount(refs: Refs, b: nat): nat {
    if b in refs then refs[b] else 0
  }

  function Got(refs: Refs, b: nat): Refs
    requires b in refs
  {
    refs[b := refs[b] + 1]
  }

  function Put(refs: Refs, b: nat): Refs
    requires b in refs
  {
    if refs[b] <= 1 then refs - {b} else refs[b := refs[b] - 1]
  }

  /** The references to every blob are those of other parts of the kernel and of user space
      and one for each slot that points at it. */
  ghost predicate Accounted(refs: Refs, others: Refs, states: States) {
    Positive(refs) && Positive(others)
      && forall b: nat :: RefCount(refs, b) == RefCount(others, b) + |Holders(states, b)|
  }

  /** A pointer in a slot is to a live blob. */
  lemma HeldIsLive(refs: Refs, others: Refs, states: States, h: nat, i: nat)
    requires Accounted(refs, others, states)
    requires h in states && i < |states[h].slots| && states[h].slots[i].blob.Some?
    ensures states[h].slots[i].blob.value in refs
  {
    var b := states[h].slots[i].blob.value;
    assert (h, i) in Holders(states, b);
  }

  // ----- msm_property_atomic_set -----

  /** A property value names a blob by its lower 32 bits. */
  function BlobId(val: nat): nat {
    val % 0x1_0000_0000
  }

  /** The references while the old blob of the slot is already dropped. */
  function Dropped(refs: Refs, s: Slot): Refs
    requires s.blob.Some? ==> s.blob.value in refs
  {
    if s.blob.Some? then Put(refs, s.blob.value) else refs
  }

  /** The blob id names nothing that is alive: it never did, or the slot itself held the
      last reference to it. */
  predicate Misses(refs: Refs, s: Slot, val: nat) {
    val != 0 && (BlobId(val) !in refs || (s.blob == Some(BlobId(val)) && refs[BlobId(val)] <= 1))
  }

  /** What the slot of a blob property and the references become. */
  function SetBlob(refs: Refs, s: Slot, val: nat): (Refs, Slot)
    requires s.blob.Some? ==> s.blob.value in refs
  {
    var r := Dropped(refs, s);
    var id := BlobId(val);
    if id in r then (Got(r, id), Slot(id, Some(id)))
    else if val != 0 then (r, s.(value := 0))
    else (r, Slot(0, None))
  }

  lemma SetBlobCases(refs: Refs, s: Slot, val: nat)
    requires s.blob.Some? ==> s.blob.value in refs
    ensures var r, id := Dropped(refs, s), BlobId(val);
            && (id in r ==> SetBlob(refs, s, val) == (Got(r, id), Slot(id, Some(id))))
            && (id !in r && val != 0 ==> SetBlob(refs, s, val) == (r, Slot(0, s.blob)))
            && (id !in r && val == 0 ==> SetBlob(refs, s, val) == (r, Slot(0, None)))
  {
  }

  lemma SetBlobCounts(refs: Refs, s: Slot, val: nat, b: nat)
    requires Positive(refs) && (s.blob.Some? ==> s.blob.value in refs)
    ensures Positive(SetBlob(refs, s, val).0)
    ensures var (r, t) := SetBlob(refs, s, val);
            && RefCount(r, b) == RefCount(refs, b) - (if s.blob == Some(b) then 1 else 0)
                                 + (if !Misses(refs, s, val) && t.blob == Some(b) then 1 else 0)
            && (Misses(refs, s, val) ==> t.blob == s.blob)
  {
  }

  /** Setting a blob property keeps the references exact if and only if the lookup succeeds
      or the slot was empty: a failed lookup drops the old reference but keeps the pointer. */
  lemma SetKeepsAccountsIff(refs: Refs, others: Refs, states: States, h: nat, i: nat, val: nat)
    requires Accounted(refs, others, states) && h in states && i < |states[h].slots|
    ensures var s := states[h].slots[i];
            && (s.blob.Some? ==> s.blob.value in refs)
            && (Accounted(SetBlob(refs, s, val).0, others, Written(states, h, i, SetBlob(refs, s, val).1))
                <==> !(Misses(refs, s, val) && s.blob.Some?))
  {
    hide SetBlob, Misses, Holders, Written;
    var s := states[h].slots[i];
    if s.blob.Some? { HeldIsLive(refs, others, states, h, i); }
    var (r, t) := SetBlob(refs, s, val);
    var after := Written(states, h, i, t);
    var lost := Misses(refs, s, val) && s.blob.Some?;
    SetBlobCounts(refs, s, val, 0);
    forall b: nat
      ensures RefCount(r, b) == RefCount(others, b) + |Holders(after, b)| <==> !(lost && s.blob == Some(b))
    {
      assert RefCount(refs, b) == RefCount(others, b) + |Holders(states, b)|;
      WrittenSize(states, h, i, t, b);
      SetBlobCounts(refs, s, val, b);
    }
    if lost { assert RefCount(r, s.blob.value) != RefCount(others, s.blob.value) + |Holders(after, s.blob.value)|; }
  }

  /** A slot whose value is no blob leaves the accounts alone. */
  lemma ValueKeepsAccounts(refs: Refs, others: Refs, states: States, h: nat, i: nat, v: nat)
    requires Accounted(refs, others, states) && h in states && i < |states[h].slots|
    ensures Accounted(refs, others, Written(states, h, i, states[h].slots[i].(value := v)))
  {
    var after := Written(states, h, i, states[h].slots[i].(value := v));
    forall b: nat ensures RefCount(refs, b) == RefCount(others, b) + |Holders(after, b)| {
      assert RefCount(refs, b) == RefCount(others, b) + |Holders(states, b)|;
      WrittenSize(states, h, i, states[h].slots[i].(value := v), b);
      hide Holders, Written;
    }
  }

  /** Only the slots matter. */
  lemma DirtyKeepsAccounts(refs: Refs, others: Refs, states: States, h: nat, dirty: seq<nat>)
    requires Accounted(refs, others, states) && h in states
    ensures Accounted(refs, others, states[h := states[h].(dirty := dirty)])
  {
    forall b: nat ensures Holders(states[h := states[h].(dirty := dirty)], b) == Holders(states, b) {
    }
  }

  /** The failing set, concretely: the state holds the only reference to blob 7 and is asked for blob 9. */
  lemma FailedLookupLosesCount()
    ensures var states: States := map[0 := PropState([Slot(7, Some(7))], [])];
            var refs: Refs := map[7 := 1];
            && Accounted(refs, map[], states)
            && SetBlob(refs, Slot(7, Some(7)), 9) == (map[], Slot(0, Some(7)))
            && !Accounted(map[], map[], Written(states, 0, 0, Slot(0, Some(7))))
  {
    var states: States := map[0 := PropState([Slot(7, Some(7))], [])];
    forall b: nat ensures Holders(states, b) == if b == 7 then {(0, 0)} else {} {
    }
    var after := Written(states, 0, 0, Slot(0, Some(7)));
    WrittenHolders(states, 0, 0, Slot(0, Some(7)), 7);
    assert (0, 0) in Holders(after, 7);
    assert RefCount(map[], 7) == 0;
  }

  // ----- whole states -----

  /** All but the first n slots of state h are still to be counted. */
  ghost predicate AccountedUpTo(refs: Refs, others: Refs, states: States, h: nat, n: nat) {
    Positive(refs) && Positive(others) && forall b: nat :: CountedRight(refs, others, states, h, n, b)
  }

  ghost predicate CountedRight(refs: Refs, others: Refs, states: States, h: nat, n: nat, b: nat) {
    RefCount(refs, b) == RefCount(others, b) + |Counted(states, b, h, n)|
  }

  lemma CountingStarts(refs: Refs, others: Refs, states: States, h: nat, s: PropState)
    requires Accounted(refs, others, states) && h !in states
    ensures AccountedUpTo(refs, others, states[h := s], h, 0)
  {
    var after := states[h := s];
    forall b: nat ensures CountedRight(refs, others, after, h, 0, b) {
      assert RefCount(refs, b) == RefCount(others, b) + |Holders(states, b)|;
      CountedEnds(after, b, h);
      NewHolders(states, h, s, b);
    }
  }

  lemma CountingEnds(refs: Refs, others: Refs, states: States, h: nat)
    requires h in states && AccountedUpTo(refs, others, states, h, |states[h].slots|)
    ensures Accounted(refs, others, states)
  {
    forall b: nat ensures RefCount(refs, b) == RefCount(others, b) + |Holders(states, b)| {
      assert CountedRight(refs, others, states, h, |states[h].slots|, b);
      CountedEnds(states, b, h);
    }
  }

  function Shared(refs: Refs, s: Slot): Refs
    requires s.blob.Some? ==> s.blob.value in refs
  {
    if s.blob.Some? then Got(refs, s.blob.value) else refs
  }

  lemma OriginalCounts(states: States, b: nat, from: nat, h: nat, n: nat)
    requires from in states && from != h && n < |states[from].slots| && states[from].slots[n].blob == Some(b)
    ensures |Counted(states, b, h, n)| > 0
  {
    assert (from, n) in Counted(states, b, h, n);
  }

  /** One slot of a copied state takes its reference; the original keeps the blob alive. */
  lemma CountingStep(refs: Refs, others: Refs, states: States, from: nat, h: nat, n: nat)
    requires AccountedUpTo(refs, others, states, h, n)
    requires from in states && h in states && from != h && n < |states[h].slots|
    requires states[from].slots == states[h].slots
    ensures states[h].slots[n].blob.Some? ==> states[h].slots[n].blob.value in refs
    ensures AccountedUpTo(Shared(refs, states[h].slots[n]), others, states, h, n + 1)
  {
    hide Counted, Holders;
    var s := states[h].slots[n];
    if s.blob.Some? {
      OriginalCounts(states, s.blob.value, from, h, n);
      assert CountedRight(refs, others, states, h, n, s.blob.value);
    }
    var r, m := Shared(refs, s), n + 1;
    forall b: nat ensures CountedRight(r, others, states, h, m, b) {
      assert CountedRight(refs, others, states, h, n, b);
      CountedStep(states, b, h, n);
    }
  }

  /** One slot of a state that goes away gives its reference back. */
  lemma PutKeepsAccounts(refs: Refs, others: Refs, states: States, h: nat, i: nat)
    requires Accounted(refs, others, states) && h in states && i < |states[h].slots| && states[h].slots[i].blob.Some?
    ensures states[h].slots[i].blob.value in refs
    ensures Accounted(Put(refs, states[h].slots[i].blob.value), others,
                      Written(states, h, i, states[h].slots[i].(blob := None)))
  {
    hide Holders, Written;
    HeldIsLive(refs, others, states, h, i);
    var s := states[h].slots[i];
    var after := Written(states, h, i, s.(blob := None));
    forall b: nat ensures RefCount(Put(refs, s.blob.value), b) == RefCount(others, b) + |Holders(after, b)| {
      assert RefCount(refs, b) == RefCount(others, b) + |Holders(states, b)|;
      WrittenSize(states, h, i, s.(blob := None), b);
    }
  }

  ghost predicate Blobless(s: PropState) {
    forall i :: 0 <= i < |s.slots| ==> s.slots[i].blob == None
  }

  lemma RemovalKeepsAccounts(refs: Refs, others: Refs, states: States, h: nat)
    requires Accounted(refs, others, states) && h in states && Blobless(states[h])
    ensures Accounted(refs, others, states - {h})
  {
    forall b: nat ensures Holders(states - {h}, b) == Holders(states, b) {
      ClearedHolders(states, h, b);
    }
  }

  lemma AdditionKeepsAccounts(refs: Refs, others: Refs, states: States, h: nat, s: PropState)
    requires Accounted(refs, others, states) && h !in states && Blobless(s)
    ensures Accounted(refs, others, states[h := s])
  {
    forall b: nat ensures Holders(states[h := s], b) == Holders(states, b) {
      ClearedHolders(states[h := s], h, b);
      NewHolders(states, h, s, b);
    }
  }

  /** Resetting a state in use keeps the references exact if and only if it held no blob:
      the pointers are overwritten without giving their references back. */
  lemma ResetKeepsAccountsIff(refs: Refs, others: Refs, states: States, h: nat, s: PropState)
    requires Accounted(refs, others, states) && h in states && Blobless(s)
    ensures Accounted(refs, others, states[h := s]) <==> Blobless(states[h])
  {
    var after := states[h := s];
    if Blobless(states[h]) {
      RemovalKeepsAccounts(refs, others, states, h);
      AdditionKeepsAccounts(refs, others, states - {h}, h, s);
      assert (states - {h})[h := s] == after;
    } else {
      var i :| 0 <= i < |states[h].slots| && states[h].slots[i].blob != None;
      var b := states[h].slots[i].blob.value;
      assert Holders(after, b) < Holders(states, b) by {
        assert (h, i) in Holders(states, b) && (h, i) !in Holders(after, b);
      }
      SmallerSet(Holders(after, b), Holders(states, b));
      assert RefCount(refs, b) == RefCount(others, b) + |Holders(states, b)|;
      assert RefCount(refs, b) != RefCount(others, b) + |Holders(after, b)|;
    }
  }

  lemma SmallerSet(a: set<(nat, nat)>, b: set<(nat, nat)>)
    requires a < b
    ensures |a| < |b|
  {
    assert b == a + (b - a) && b - a != {};
  }

  /** A reference taken or dropped elsewhere. */
  lemma OutsideKeepsAccounts(refs: Refs, others: Refs, states: States, b: nat)
    requires Accounted(refs, others, states) && b > 0
    ensures Accounted(refs[b := RefCount(refs, b) + 1], others[b := RefCount(others, b) + 1], states)
    ensures b in others ==> b in refs && Accounted(Put(refs, b), Put(others, b), states)
  {
    hide Holders;
    forall c: nat ensures RefCount(refs, c) == RefCount(others, c) + |Holders(states, c)| {
    }
  }
}
