/** The event ioctls and the release of a file, on the client list of the device. */
module EventDriver {
  import opened EventClients

  class Device {
    var clients: seq<Client>
    var calls: seq<Switch>          // successful calls of the kms layer, oldest first

    /** No file is listed twice for an event, an event is on exactly while it has a client,
        and it was switched on and off in turns. */
    ghost predicate Valid()
      reads this
    {
      NoDuplicates(clients) && OnWhileListed(clients, calls) && Alternate(calls)
    }

    constructor ()
      ensures Valid() && clients == [] && calls == []
    {
      clients, calls := [], [];
    }

    /** msm_event_client_count. */
    method ClientCount(key: Key) returns (count: nat)
      ensures count == Listed(clients, key)
    {
      count := CountIn(clients, key);
    }

    static method CountIn(l: seq<Client>, key: Key) returns (count: nat)
      ensures count == Listed(l, key)
    {
      count := 0;
      for i := 0 to |l|
        invariant count == Listed(l[..i], key)
      {
        assert l[..i + 1][..i] == l[..i];
        if l[i].key == key { count := count + 1; }
      }
      assert l[..|l|] == l;
    }

    /** msm_register_event: rc is what the kms layer answers. */
    method SwitchEvent(key: Key, on: bool, rc: int)
      modifies this`calls
      ensures calls == if rc == 0 then old(calls) + [Switch(key, on)] else old(calls)
    {
      if rc == 0 { calls := calls + [Switch(key, on)]; }
    }

    /** msm_ioctl_register_event. */
    method Register(file: nat, key: Key, supported: int, memory: bool, enable: int) returns (rc: int)
      requires Valid()
      modifies this
      ensures Valid()
      ensures supported != 0 ==> rc == supported
      ensures supported == 0 && Client(file, key) in old(clients) ==> rc == -EALREADY
      ensures supported == 0 && Client(file, key) !in old(clients) ==>
                rc == if !memory then -ENOMEM else if Listed(old(clients), key) > 0 then 0 else enable
      ensures clients == if rc == 0 then old(clients) + [Client(file, key)] else old(clients)
      ensures calls == if rc == 0 && Listed(old(clients), key) == 0 then old(calls) + [Switch(key, true)]
                       else old(calls)
      ensures supported == 0 && enable != -EALREADY ==> (rc == -EALREADY <==> Client(file, key) in old(clients))
    {
      if supported != 0 { return supported; }
      var duplicate := false;
      for i := 0 to |clients|
        invariant !duplicate && Client(file, key) !in clients[..i]
      {
        if clients[i].file != file { continue; }
        if clients[i].key == key { duplicate := true; break; }
      }
      if duplicate { return -EALREADY; }
      if !memory { return -ENOMEM; }
      var client := Client(file, key);
      var count := ClientCount(key);
      if count > 0 {
        AnotherListed(clients, calls, client);
        clients := clients + [client];
        return 0;
      }
      FirstOn(clients, calls, client);
      SwitchEvent(key, true, enable);
      rc := enable;
      if rc == 0 { clients := clients + [client]; }
    }

    /** msm_ioctl_deregister_event.  A listed client always goes; the event stays on without a
        client exactly when it was the last one and switching off fails. */
    method Deregister(file: nat, key: Key, supported: int, disable: int) returns (rc: int)
      requires Valid()
      modifies this
      ensures NoDuplicates(clients) && Alternate(calls)
      ensures supported != 0 || Client(file, key) !in old(clients) ==>
                rc == (if supported != 0 then supported else -ENOENT) && clients == old(clients) && calls == old(calls)
      ensures supported == 0 && Client(file, key) in old(clients) ==>
                && (exists i :: 0 <= i < |old(clients)| && old(clients)[i] == Client(file, key)
                                && clients == old(clients)[..i] + old(clients)[i + 1..])
                && rc == (if Listed(clients, key) == 0 then disable else 0)
                && calls == if Listed(clients, key) == 0 && disable == 0 then old(calls) + [Switch(key, false)]
                            else old(calls)
      ensures Valid() <==> !(supported == 0 && Client(file, key) in old(clients)
                             && Listed(clients, key) == 0 && disable != 0)
    {
      if supported != 0 { return supported; }
      var i := 0;
      while i < |clients| && clients[i] != Client(file, key)
        invariant i <= |clients| && Client(file, key) !in clients[..i]
      {
        i := i + 1;
      }
      if i == |clients| { return -ENOENT; }
      ghost var l := clients;
      clients := clients[..i] + clients[i + 1..];
      forall k { RemovedOne(l, i, k); }
      var count := ClientCount(key);
      rc := 0;
      assert IsOn(calls, key);
      if count == 0 {
        forall k { SwitchStep(calls, Switch(key, false), k); }
        AlternateStep(calls, Switch(key, false));
        SwitchEvent(key, false, disable);
        rc := disable;
      }
    }

    /** The event part of msm_release: all entries of the file go to a list of their own; an
        event is switched off when neither list has it any more.  fails holds the events that
        cannot be switched off: those of them that lose their last client stay on. */
    method Release(file: nat, fails: set<Key>)
      requires Valid()
      modifies this
      ensures clients == OfFile(old(clients), file, false)
      ensures NoDuplicates(clients) && Alternate(calls)
      ensures forall key ::
                IsOn(calls, key) <==> Listed(clients, key) > 0 || (key in fails && Listed(old(clients), key) > 0)
      ensures Valid() <==> forall key :: key in fails ==> !(Listed(old(clients), key) > 0 && Listed(clients, key) == 0)
    {
      ghost var was := clients;
      var kept, mine := [], [];
      for i := 0 to |clients|
        invariant clients == was
        invariant kept == OfFile(clients[..i], file, false) && mine == OfFile(clients[..i], file, true)
      {
        assert clients[..i + 1][..i] == clients[..i];
        if clients[i].file != file { kept := kept + [clients[i]]; }
        else { mine := mine + [clients[i]]; }
      }
      assert clients[..|clients|] == clients;
      forall key { OfFileSplits(was, file, key); }
      OfFileNoDuplicates(was, file, false);
      clients := kept;
      Retire(mine, was, fails);
    }

    /** The entries of a released file go one by one; what the events are left with. */
    ghost predicate Settling(mine: seq<Client>, was: seq<Client>, fails: set<Key>)
      reads this
    {
      && Alternate(calls)
      && (forall key :: Listed(mine, key) > 0 ==> Listed(was, key) > 0)
      && forall key :: IsOn(calls, key) <==>
           Listed(clients, key) + Listed(mine, key) > 0 || (key in fails && Listed(was, key) > 0)
    }

    method Retire(l: seq<Client>, ghost was: seq<Client>, fails: set<Key>)
      requires Settling(l, was, fails)
      modifies this`calls
      ensures Settling([], was, fails)
    {
      var mine := l;
      while mine != []
        invariant Settling(mine, was, fails)
        decreases |mine|
      {
        RetireOne(mine, was, fails);
        mine := mine[1..];
      }
    }

    method RetireOne(mine: seq<Client>, ghost was: seq<Client>, fails: set<Key>)
      requires mine != [] && Settling(mine, was, fails)
      modifies this`calls
      ensures Settling(mine[1..], was, fails)
    {
      hide Listed, IsOn, Alternate;
      var node, rest := mine[0], mine[1..];
      forall key ensures Listed(rest, key) == Listed(mine, key) - if node.key == key then 1 else 0 {
        RemovedOne(mine, 0, key);
        assert mine[..0] + mine[1..] == rest;
      }
      var count := ClientCount(node.key);
      var others := CountIn(rest, node.key);
      if count + others == 0 {
        var off := Switch(node.key, false);
        forall k ensures IsOn(calls + [off], k) == (if k == node.key then false else IsOn(calls, k)) {
          SwitchStep(calls, off, k);
        }
        AlternateStep(calls, off);
        SwitchEvent(node.key, false, if node.key in fails then -1 else 0);
      }
    }
  }
}
