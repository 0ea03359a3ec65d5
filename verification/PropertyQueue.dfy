/** The dirty list of a property state against the history of its calls, and the cyclic
    property lookup against a plain search. */
module PropertyQueue {

  // ----- the dirty list -----

  /** What happened to a state since it was initialised. */
  datatype Event = SetDirty(i: nat) | PopDirty

  function Marked(dirty: seq<nat>, i: nat): seq<nat> {
    if i in dirty then dirty else dirty + [i]
  }

  function Popped(dirty: seq<nat>): seq<nat> {
    if dirty == [] then [] else dirty[1..]
  }

  /** The dirty list after a history, newest event last. */
  function Dirty(h: seq<Event>): seq<nat> {
    if h == [] then [] else
    var d := Dirty(h[..|h| - 1]);
    match h[|h| - 1]
    case SetDirty(i) => Marked(d, i)
    case PopDirty => Popped(d)
  }

  /** The event popped property i. */
  predicate Pops(h: seq<Event>, k: nat, i: nat)
    requires k < |h|
  {
    h[k] == PopDirty && var d := Dirty(h[..k]); d != [] && d[0] == i
  }

  /** At k property i was set and it has not been popped from then on. */
  ghost predicate Pending(h: seq<Event>, k: nat, i: nat) {
    k < |h| && h[k] == SetDirty(i) && forall j :: k < j < |h| ==> !Pops(h, j, i)
  }

  /** k is the first time i was set since it was last popped. */
  ghost predicate Since(h: seq<Event>, k: nat, i: nat) {
    Pending(h, k, i) && forall j :: 0 <= j < k ==> !Pending(h, j, i)
  }

  lemma PendingStep(h: seq<Event>, e: Event, k: nat, i: nat)
    ensures Pending(h + [e], k, i) <==>
              (Pending(h, k, i) && !(e == PopDirty && Dirty(h) != [] && Dirty(h)[0] == i))
              || (k == |h| && e == SetDirty(i))
  {
    var g := h + [e];
    assert forall j :: 0 <= j < |h| ==> g[..j] == h[..j];
    assert g[..|h|] == h;
    if k < |h| && h[k] == SetDirty(i) {
      assert forall j :: k < j < |h| ==> (Pops(g, j, i) <==> Pops(h, j, i));
      assert Pops(g, |h|, i) <==> e == PopDirty && Dirty(h) != [] && Dirty(h)[0] == i;
    }
  }

  lemma SinceStep(h: seq<Event>, e: Event, k: nat, i: nat)
    ensures Since(h + [e], k, i) <==>
              (Since(h, k, i) && !(e == PopDirty && Dirty(h) != [] && Dirty(h)[0] == i))
              || (k == |h| && e == SetDirty(i) && forall j: nat :: j < |h| ==> !Pending(h, j, i))
  {
    hide Pending;
    forall j: nat { PendingStep(h, e, j, i); }
    if Since(h + [e], k, i) && k == |h| {
      assert forall j: nat :: j < |h| ==> !Pending(h + [e], j, i);
    }
    assert k < |h| ==> (Since(h + [e], k, i) ==> Since(h, k, i)) by { PendingBound(h, k, i); }
    PendingBound(h, k, i);
    PendingBound(h + [e], k, i);
  }

  lemma PendingBound(h: seq<Event>, k: nat, i: nat)
    ensures Pending(h, k, i) ==> k < |h|
  {
  }

  ghost predicate Distinct(s: seq<nat>) {
    forall a, b :: 0 <= a < b < |s| ==> s[a] != s[b]
  }

  /** first lists, entry by entry, when the properties of d were first set since popped. */
  ghost predicate Dated(h: seq<Event>, d: seq<nat>, first: seq<nat>) {
    && |first| == |d|
    && (forall a :: 0 <= a < |d| ==> Since(h, first[a], d[a]))
    && (forall a, b :: 0 <= a < b < |d| ==> first[a] < first[b])
  }

  ghost predicate Ordered(h: seq<Event>, first: seq<nat>) {
    && Distinct(Dirty(h)) && Dated(h, Dirty(h), first)
    && forall k: nat, i: nat :: Pending(h, k, i) ==> i in Dirty(h)
  }

  lemma DirtyStep(h: seq<Event>, e: Event)
    ensures Dirty(h + [e]) == match e case SetDirty(i) => Marked(Dirty(h), i) case PopDirty => Popped(Dirty(h))
  {
    assert (h + [e])[..|h|] == h;
  }

  lemma SetOrdered(h: seq<Event>, i: nat, before: seq<nat>)
    requires Ordered(h, before)
    ensures Ordered(h + [SetDirty(i)], if i in Dirty(h) then before else before + [|h|])
  {
    hide Pending, Since, Dirty;
    var e, d := SetDirty(i), Dirty(h);
    var g := h + [e];
    DirtyStep(h, e);
    forall k: nat, x: nat | Pending(g, k, x) ensures x in Dirty(g) {
      PendingStep(h, e, k, x);
    }
    forall a | 0 <= a < |d| ensures Since(g, before[a], d[a]) && before[a] < |h| {
      SinceStep(h, e, before[a], d[a]);
      SinceBound(h, before[a], d[a]);
    }
    if i !in d {
      SinceStep(h, e, |h|, i);
      assert Since(g, |h|, i);
    }
  }

  lemma PopOrdered(h: seq<Event>, before: seq<nat>)
    requires Ordered(h, before)
    ensures Ordered(h + [PopDirty], if Dirty(h) == [] then [] else before[1..])
  {
    hide Pending, Since;
    var e, d := PopDirty, Dirty(h);
    var g := h + [e];
    assert g[..|h|] == h;
    assert Dirty(g) == Popped(d);
    forall k: nat, x: nat ensures Pending(g, k, x) <==> Pending(h, k, x) && !(d != [] && d[0] == x) {
      PendingStep(h, e, k, x);
    }
    forall a | 1 <= a < |d| ensures Since(g, before[a], d[a]) {
      SinceStep(h, e, before[a], d[a]);
    }
  }

  /** The dirty list holds exactly the properties set since they were last popped, each once,
      in the order of the first such setting. */
  lemma {:induction false} DirtyIsFirstSetOrder(h: seq<Event>) returns (first: seq<nat>)
    ensures Distinct(Dirty(h)) && Dated(h, Dirty(h), first)
    ensures forall k: nat, i: nat :: Pending(h, k, i) ==> i in Dirty(h)
    decreases |h|
  {
    hide Pending, Since;
    if h == [] {
      forall i: nat, k: nat ensures !Pending(h, k, i) { PendingBound(h, k, i); }
      return [];
    }
    var p, e := h[..|h| - 1], h[|h| - 1];
    assert h == p + [e];
    first := DirtyIsFirstSetOrder(p);
    assert Ordered(p, first);
    match e
    case SetDirty(i) =>
      SetOrdered(p, i, first);
      first := if i in Dirty(p) then first else first + [|p|];
    case PopDirty =>
      PopOrdered(p, first);
      first := if Dirty(p) == [] then [] else first[1..];
  }

  lemma SinceBound(h: seq<Event>, k: nat, i: nat)
    ensures Since(h, k, i) ==> k < |h|
  {
  }

  function Times(n: nat): seq<Event> {
    seq(n, _ => PopDirty)
  }

  /** Popping empties the list from its front. */
  lemma {:induction false} PoppingDrains(h: seq<Event>, n: nat)
    requires n <= |Dirty(h)|
    ensures Dirty(h + Times(n)) == Dirty(h)[n..]
  {
    if n == 0 {
      assert h + Times(0) == h;
    } else {
      PoppingDrains(h, n - 1);
      var g := h + Times(n);
      assert g[..|g| - 1] == h + Times(n - 1);
    }
  }

  lemma {:induction false} DistinctIsShort(s: seq<nat>, n: nat)
    requires Distinct(s) && forall a :: 0 <= a < |s| ==> s[a] < n
    ensures |s| <= n
  {
    if s != [] {
      assert s[0] < n;
      if n - 1 in s {
        var a :| 0 <= a < |s| && s[a] == n - 1;
        DistinctIsShort(s[..a] + s[a + 1..], n - 1);
      } else {
        DistinctIsShort(s, n - 1);
      }
    }
  }

  lemma {:induction false} DirtyIsBounded(h: seq<Event>, count: nat)
    requires forall k :: 0 <= k < |h| && h[k].SetDirty? ==> h[k].i < count
    ensures forall a :: 0 <= a < |Dirty(h)| ==> Dirty(h)[a] < count
  {
    if h != [] { DirtyIsBounded(h[..|h| - 1], count); }
  }

  /** A loop that pops until the list is empty sees every dirty property once, in order,
      within the number of properties. */
  lemma DrainingIsComplete(h: seq<Event>, count: nat)
    requires forall k :: 0 <= k < |h| && h[k].SetDirty? ==> h[k].i < count
    ensures |Dirty(h)| <= count && Dirty(h + Times(|Dirty(h)|)) == []
    ensures forall n :: 0 <= n < |Dirty(h)| ==> Dirty(h + Times(n)) != [] && Dirty(h + Times(n))[0] == Dirty(h)[n]
  {
    var first := DirtyIsFirstSetOrder(h);
    DirtyIsBounded(h, count);
    DistinctIsShort(Dirty(h), count);
    forall n: nat | n <= |Dirty(h)| ensures Dirty(h + Times(n)) == Dirty(h)[n..] { PoppingDrains(h, n); }
  }

  // ----- the lookup -----

  /** The k-th index visited: downwards from the start, then from the top. */
  function Visited(start: nat, n: nat, k: nat): nat
    requires start < n && k < n
  {
    if k <= start then start - k else start + n - k
  }

  /** Every index is visited, at exactly one step. */
  lemma VisitsEachOnce(start: nat, n: nat, i: nat)
    requires start < n && i < n
    ensures exists k: nat :: k < n && Visited(start, n, k) == i
    ensures forall k: nat, l: nat :: k < n && l < n && Visited(start, n, k) == i && Visited(start, n, l) == i ==> k == l
  {
    var k := if i <= start then start - i else start + n - i;
    assert Visited(start, n, k) == i;
  }

  /** What a search down from start finds, for properties that may occur more than once. */
  ghost predicate FoundFrom(props: seq<nat>, start: nat, p: nat, i: nat)
    requires start < |props|
  {
    exists k: nat :: k < |props| && i == Visited(start, |props|, k) && props[i] == p
                     && forall j: nat :: j < k ==> props[Visited(start, |props|, j)] != p
  }

  /** For distinct properties the answer does not depend on where the search starts. */
  lemma SearchIsPlain(props: seq<nat>, start: nat, p: nat, i: nat, j: nat)
    requires Distinct(props) && start < |props| && FoundFrom(props, start, p, i)
    requires j < |props| && props[j] == p
    ensures i == j
  {
  }
}
