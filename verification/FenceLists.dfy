/** The fence list of a context as a value, together with the flags and references of
    its fences: what a trigger does to them fence by fence, and what it adds up to. */
module FenceLists {
  import opened FenceTimeline
  import opened FenceLedger

  /** What the kernel answers while a fence and its file descriptor are made. */
  datatype FdOutcome = Installed | OutOfMemory | NoFd(err: int) | NoSyncFile

  datatype Lists = Lists(fences: seq<Fence>, signaled: set<nat>, created: nat, ledger: Ledger)

  ghost function Ids(fs: seq<Fence>): set<nat> {
    set f | f in fs :: f.id
  }

  ghost predicate Distinct(fs: seq<Fence>) {
    forall i, j :: 0 <= i < j < |fs| ==> fs[i].id != fs[j].id
  }

  ghost predicate Consistent(l: Lists) {
    Distinct(l.fences) && Accounted(l.ledger, Ids(l.fences)) && forall id :: id in l.ledger.refs ==> id < l.created
  }

  /** The fences of all[..|local|], newest first. */
  ghost predicate ReversedPrefix(local: seq<Fence>, all: seq<Fence>) {
    |local| <= |all| && forall j :: 0 <= j < |local| ==> local[j] == all[|local| - 1 - j]
  }

  lemma ReversedRest(local: seq<Fence>, all: seq<Fence>)
    requires local != [] && ReversedPrefix(local, all)
    ensures local[0] == all[|local| - 1] && ReversedPrefix(local[1..], all)
  {}

  function Settled(l: Lists, fc: Fence, done: U32): Lists
    requires fc.id in l.ledger.refs
  {
    if SignaledAt(fc, done) then
      l.(signaled := l.signaled + {fc.id}, ledger := Drop(l.ledger, fc.id))
    else
      l.(fences := [fc] + l.fences)
  }

  function Appended(l: Lists, val: U32): Lists {
    l.(fences := l.fences + [Fence(l.created, val)],
       created := l.created + 1,
       ledger := Attach(Register(l.ledger, l.created), l.created))
  }

  // ----- identities -----

  lemma IdsConcat(a: seq<Fence>, b: seq<Fence>)
    ensures Ids(a + b) == Ids(a) + Ids(b)
  {
    forall x: nat ensures x in Ids(a + b) <==> x in Ids(a) + Ids(b) {
      if x in Ids(a) {
        var f :| f in a && f.id == x;
        assert f in a + b;
      }
      if x in Ids(b) {
        var f :| f in b && f.id == x;
        assert f in a + b;
      }
    }
  }

  lemma {:induction false} UnsignaledMembers(fs: seq<Fence>, done: U32, f: Fence)
    ensures f in Unsignaled(fs, done) <==> f in fs && !SignaledAt(f, done)
  {
    if fs != [] {
      UnsignaledMembers(fs[..|fs| - 1], done, f);
      assert fs == fs[..|fs| - 1] + [fs[|fs| - 1]];
    }
  }

  lemma {:induction false} UnsignaledDistinct(fs: seq<Fence>, done: U32)
    requires Distinct(fs)
    ensures Distinct(Unsignaled(fs, done))
  {
    if fs != [] {
      var front, f := fs[..|fs| - 1], fs[|fs| - 1];
      UnsignaledDistinct(front, done);
      forall g | g in Unsignaled(front, done) ensures g.id != f.id {
        UnsignaledMembers(front, done, g);
      }
    }
  }

  lemma SignaledSplit(f: Fence, rest: seq<Fence>, done: U32)
    ensures SignaledIds([f] + rest, done) == SignaledIds(rest, done) + (if SignaledAt(f, done) then {f.id} else {})
  {
    forall x: nat
      ensures x in SignaledIds([f] + rest, done)
              <==> x in SignaledIds(rest, done) + (if SignaledAt(f, done) then {f.id} else {})
    {
      if x in SignaledIds(rest, done) {
        var g :| g in rest && SignaledAt(g, done) && g.id == x;
        assert g in [f] + rest;
      }
      if SignaledAt(f, done) && x == f.id {
        assert f in [f] + rest;
      }
    }
  }

  lemma UnsignaledFirst(f: Fence, rest: seq<Fence>, done: U32)
    ensures Unsignaled([f] + rest, done) == (if SignaledAt(f, done) then [] else [f]) + Unsignaled(rest, done)
  {
    UnsignaledConcat([f], rest, done);
    assert [f][..0] == [];
  }

  lemma AloneOnList(all: seq<Fence>, n: nat, done: U32)
    requires Distinct(all) && n < |all|
    ensures all[n].id !in Ids(all[..n])
    ensures all[n].id !in Ids(Unsignaled(all[n + 1..], done))
  {
    forall g | g in Unsignaled(all[n + 1..], done) ensures g.id != all[n].id {
      UnsignaledMembers(all[n + 1..], done, g);
    }
  }

  // ----- a trigger, fence by fence -----

  /** The fences that are on the local list or back on the context list while a trigger
      has still to look at the oldest n of all. */
  ghost function Listed(all: seq<Fence>, n: nat, done: U32): set<nat>
    requires n <= |all|
  {
    Ids(all[..n]) + Ids(Unsignaled(all[n..], done))
  }

  lemma ListedRound(all: seq<Fence>, n: nat, done: U32)
    requires Distinct(all) && n < |all|
    ensures all[n].id in Listed(all, n + 1, done)
    ensures Listed(all, n, done)
            == if SignaledAt(all[n], done) then Listed(all, n + 1, done) - {all[n].id} else Listed(all, n + 1, done)
  {
    var f, rest := all[n], all[n + 1..];
    assert all[n..] == [f] + rest;
    assert all[..n + 1] == all[..n] + [f];
    UnsignaledFirst(f, rest, done);
    IdsConcat(all[..n], [f]);
    assert Ids([f]) == {f.id};
    IdsConcat([f], Unsignaled(rest, done));
    AloneOnList(all, n, done);
  }

  /** A trigger that began at start and has still to look at the oldest n fences. */
  ghost predicate Midway(n: nat, done: U32, start: Lists, now: Lists) {
    && n <= |start.fences|
    && now.fences == Unsignaled(start.fences[n..], done)
    && now.signaled == start.signaled + SignaledIds(start.fences[n..], done)
    && now.created == start.created
  }

  ghost predicate LedgerMidway(n: nat, done: U32, start: Lists, now: Lists) {
    && n <= |start.fences|
    && Accounted(now.ledger, Listed(start.fences, n, done))
    && now.ledger.refs.Keys <= start.ledger.refs.Keys
    && now.ledger.openFds == start.ledger.openFds && now.ledger.owned
  }

  lemma MidwayStart(done: U32, start: Lists)
    requires Consistent(start) && start.ledger.owned
    ensures Midway(|start.fences|, done, start, start.(fences := []))
    ensures LedgerMidway(|start.fences|, done, start, start.(fences := []))
  {
    var all := start.fences;
    assert all[..|all|] == all && all[|all|..] == [];
    assert Listed(all, |all|, done) == Ids(all);
  }

  lemma LedgerRound(n: nat, done: U32, start: Lists, now: Lists)
    requires Distinct(start.fences) && n < |start.fences| && LedgerMidway(n + 1, done, start, now)
    ensures start.fences[n].id in now.ledger.refs
    ensures LedgerMidway(n, done, start, Settled(now, start.fences[n], done))
  {
    ListedRound(start.fences, n, done);
    var f, listed := start.fences[n], Listed(start.fences, n + 1, done);
    if SignaledAt(f, done) {
      ListPut(now.ledger, listed, f.id);
      DropSize(now.ledger, f.id);
    }
  }

  lemma ListRound(all: seq<Fence>, n: nat, done: U32)
    requires n < |all|
    ensures Unsignaled(all[n..], done)
            == (if SignaledAt(all[n], done) then [] else [all[n]]) + Unsignaled(all[n + 1..], done)
    ensures SignaledIds(all[n..], done)
            == SignaledIds(all[n + 1..], done) + (if SignaledAt(all[n], done) then {all[n].id} else {})
  {
    assert all[n..] == [all[n]] + all[n + 1..];
    UnsignaledFirst(all[n], all[n + 1..], done);
    SignaledSplit(all[n], all[n + 1..], done);
  }

  lemma MidwayRound(n: nat, done: U32, start: Lists, now: Lists)
    requires n < |start.fences| && Midway(n + 1, done, start, now)
    requires start.fences[n].id in now.ledger.refs
    ensures Midway(n, done, start, Settled(now, start.fences[n], done))
  {
    ListRound(start.fences, n, done);
  }

  lemma MidwayEnd(done: U32, start: Lists, now: Lists)
    requires Consistent(start) && Midway(0, done, start, now) && LedgerMidway(0, done, start, now)
    ensures now.fences == Unsignaled(start.fences, done)
    ensures now.signaled == start.signaled + SignaledIds(start.fences, done)
    ensures Consistent(now) && now.ledger.openFds == start.ledger.openFds && now.ledger.owned
  {
    UnsignaledDistinct(start.fences, done);
    assert start.fences[0..] == start.fences;
    assert Listed(start.fences, 0, done) == Ids(now.fences);
  }

  // ----- a new fence -----

  lemma AppendedIds(fs: seq<Fence>, f: Fence)
    requires Distinct(fs) && f.id !in Ids(fs)
    ensures Ids(fs + [f]) == Ids(fs) + {f.id} && Distinct(fs + [f])
  {
    IdsConcat(fs, [f]);
    assert Ids([f]) == {f.id};
    forall i | 0 <= i < |fs| ensures fs[i].id != f.id {
      assert fs[i] in fs;
    }
  }

  lemma AppendedConsistent(l: Lists, val: U32)
    requires Consistent(l) && l.ledger.owned
    ensures Consistent(Appended(l, val))
    ensures Appended(l, val).ledger.openFds == l.ledger.openFds + {l.created} && Appended(l, val).ledger.owned
  {
    InstallAccounted(l.ledger, Ids(l.fences), l.created);
    AppendedIds(l.fences, Fence(l.created, val));
  }
}
