/** The reference counts behind a fence context: one map entry per live fence, the files
    that hold fences, and the kref of the context itself. */
module FenceLedger {
  datatype Ledger = Ledger(refs: map<nat, nat>, openFds: set<nat>, kref: int, owned: bool, freed: bool)

  ghost predicate Held(l: Ledger, listed: set<nat>, id: nat) {
    id in l.refs && l.refs[id] == (if id in listed then 1 else 0) + (if id in l.openFds then 1 else 0)
  }

  /** Every live fence is referenced once by a list it is on and once by its file; the
      context is referenced by its owner and by every live fence, and freed at zero. */
  ghost predicate Accounted(l: Ledger, listed: set<nat>) {
    && l.refs.Keys == listed + l.openFds
    && (forall id :: id in l.refs ==> Held(l, listed, id))
    && l.kref == |l.refs| + (if l.owned then 1 else 0)
    && (l.freed <==> l.kref == 0)
  }

  /** dma_fence_put: the last reference frees the fence, which drops its reference to the
      context; the last reference to the context frees that. */
  function Drop(l: Ledger, id: nat): Ledger
    requires id in l.refs
  {
    if l.refs[id] <= 1 then
      l.(refs := l.refs - {id}, kref := l.kref - 1, freed := l.freed || l.kref - 1 == 0)
    else
      l.(refs := l.refs[id := l.refs[id] - 1])
  }

  lemma DropSize(l: Ledger, id: nat)
    requires id in l.refs
    ensures |Drop(l, id).refs| == |l.refs| - (if l.refs[id] <= 1 then 1 else 0)
    ensures Drop(l, id).refs.Keys == l.refs.Keys - (if l.refs[id] <= 1 then {id} else {})
  {
    var l' := Drop(l, id);
    assert |l'.refs.Keys| == |l'.refs| && |l.refs.Keys| == |l.refs|;
  }

  lemma ListPut(l: Ledger, listed: set<nat>, id: nat)
    requires Accounted(l, listed) && id in listed && !l.freed
    ensures Accounted(Drop(l, id), listed - {id})
  {
    var l' := Drop(l, id);
    DropSize(l, id);
    assert Held(l, listed, id);
    forall x | x in l'.refs ensures Held(l', listed - {id}, x) {
      assert Held(l, listed, x);
    }
  }

  lemma FilePut(l: Ledger, listed: set<nat>, id: nat)
    requires Accounted(l, listed) && id in l.openFds && !l.freed
    ensures Accounted(Drop(l, id).(openFds := l.openFds - {id}), listed)
  {
    var l' := Drop(l, id).(openFds := l.openFds - {id});
    DropSize(l, id);
    assert Held(l, listed, id);
    forall x | x in l'.refs ensures Held(l', listed, x) {
      assert Held(l, listed, x);
    }
  }

  function Register(l: Ledger, id: nat): Ledger {
    l.(refs := l.refs[id := 1], kref := l.kref + 1)
  }

  function Attach(l: Ledger, id: nat): Ledger
    requires id in l.refs
  {
    l.(refs := l.refs[id := l.refs[id] + 1], openFds := l.openFds + {id})
  }

  lemma RegisterAccounted(l: Ledger, listed: set<nat>, id: nat)
    requires Accounted(l, listed) && id !in l.refs && l.owned
    ensures Accounted(Register(l, id), listed + {id})
  {
    var l' := Register(l, id);
    assert l'.refs.Keys == l.refs.Keys + {id};
    assert |l'.refs.Keys| == |l'.refs| && |l.refs.Keys| == |l.refs|;
    forall x | x in l'.refs ensures Held(l', listed + {id}, x) {
      if x != id { assert Held(l, listed, x); }
    }
  }

  /** Dropping the only reference of a new fence undoes its registration. */
  lemma RegisterThenDrop(l: Ledger, id: nat)
    requires id !in l.refs && l.kref != 0 && !l.freed
    ensures Drop(Register(l, id), id) == l
  {
    assert l.refs[id := 1] - {id} == l.refs;
  }

  lemma AttachAccounted(l: Ledger, listed: set<nat>, id: nat)
    requires Accounted(l, listed) && id in listed && id !in l.openFds
    ensures Accounted(Attach(l, id), listed)
  {
    var l' := Attach(l, id);
    assert l'.refs.Keys == l.refs.Keys;
    assert |l'.refs.Keys| == |l'.refs| && |l.refs.Keys| == |l.refs|;
    assert Held(l, listed, id);
    forall x | x in l'.refs ensures Held(l', listed, x) {
      assert Held(l, listed, x);
    }
  }

  /** A new fence that got its file is referenced by list and file, the context once more. */
  lemma InstallAccounted(l: Ledger, listed: set<nat>, id: nat)
    requires Accounted(l, listed) && id !in l.refs && l.owned
    ensures Accounted(Attach(Register(l, id), id), listed + {id})
    ensures Attach(Register(l, id), id).openFds == l.openFds + {id}
    ensures Attach(Register(l, id), id).refs.Keys == l.refs.Keys + {id}
  {
    RegisterAccounted(l, listed, id);
    AttachAccounted(Register(l, id), listed + {id}, id);
  }
}
