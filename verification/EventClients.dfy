/** Clients of display events: one list for all files, whose entries are counted each time to
    decide when the event itself is switched on or off. */
module EventClients {

  const EALREADY: int := 114
  const ENOMEM: int := 12
  const ENOENT: int := 2

  datatype Key = Key(event: nat, objectId: nat)

  datatype Client = Client(file: nat, key: Key)

  /** A call that switched an event. */
  datatype Switch = Switch(key: Key, on: bool)

  function Listed(l: seq<Client>, key: Key): nat {
    if l == [] then 0 else (if l[|l| - 1].key == key then 1 else 0) + Listed(l[..|l| - 1], key)
  }

  /** Whether the event is on after the calls. */
  function IsOn(calls: seq<Switch>, key: Key): bool {
    if calls == [] then false
    else if calls[|calls| - 1].key == key then calls[|calls| - 1].on
    else IsOn(calls[..|calls| - 1], key)
  }

  /** For every event the calls switch it on, off, on and so on. */
  ghost predicate Alternate(calls: seq<Switch>) {
    forall i :: 0 <= i < |calls| ==> calls[i].on == !IsOn(calls[..i], calls[i].key)
  }

  ghost predicate NoDuplicates(l: seq<Client>) {
    forall i, j :: 0 <= i < j < |l| ==> l[i] != l[j]
  }

  /** An event is on exactly while it has a client. */
  ghost predicate OnWhileListed(l: seq<Client>, calls: seq<Switch>) {
    forall key :: IsOn(calls, key) <==> Listed(l, key) > 0
  }

  // ----- lists -----

  lemma ListedStep(l: seq<Client>, c: Client, key: Key)
    ensures Listed(l + [c], key) == Listed(l, key) + if c.key == key then 1 else 0
  {
    assert (l + [c])[..|l|] == l;
  }

  lemma {:induction false} ListedSplit(a: seq<Client>, b: seq<Client>, key: Key)
    ensures Listed(a + b, key) == Listed(a, key) + Listed(b, key)
  {
    if b == [] {
      assert a + b == a;
    } else {
      var front := b[..|b| - 1];
      ListedSplit(a, front, key);
      assert (a + b)[..|a + b| - 1] == a + front;
    }
  }

  lemma {:induction false} ListedHas(l: seq<Client>, key: Key)
    ensures Listed(l, key) > 0 <==> exists i :: 0 <= i < |l| && l[i].key == key
  {
    if l != [] {
      ListedHas(l[..|l| - 1], key);
    }
  }

  lemma SwitchStep(calls: seq<Switch>, s: Switch, key: Key)
    ensures IsOn(calls + [s], key) == if s.key == key then s.on else IsOn(calls, key)
  {
    assert (calls + [s])[..|calls|] == calls;
  }

  lemma AlternateStep(calls: seq<Switch>, s: Switch)
    requires Alternate(calls) && s.on == !IsOn(calls, s.key)
    ensures Alternate(calls + [s])
  {
    var more := calls + [s];
    forall i | 0 <= i < |more| ensures more[i].on == !IsOn(more[..i], more[i].key) {
      if i < |calls| { assert more[..i] == calls[..i]; } else { assert more[..i] == calls; }
    }
  }

  /** The first client of an event switches it on. */
  lemma FirstOn(l: seq<Client>, calls: seq<Switch>, c: Client)
    requires OnWhileListed(l, calls) && Alternate(calls) && Listed(l, c.key) == 0
    ensures OnWhileListed(l + [c], calls + [Switch(c.key, true)]) && Alternate(calls + [Switch(c.key, true)])
  {
    forall key ensures IsOn(calls + [Switch(c.key, true)], key) <==> Listed(l + [c], key) > 0 {
      ListedStep(l, c, key);
      SwitchStep(calls, Switch(c.key, true), key);
    }
    AlternateStep(calls, Switch(c.key, true));
  }

  lemma AnotherListed(l: seq<Client>, calls: seq<Switch>, c: Client)
    requires OnWhileListed(l, calls) && Listed(l, c.key) > 0
    ensures OnWhileListed(l + [c], calls)
  {
    forall key ensures IsOn(calls, key) <==> Listed(l + [c], key) > 0 { ListedStep(l, c, key); }
  }

  lemma RemovedOne(l: seq<Client>, i: nat, key: Key)
    requires i < |l|
    ensures Listed(l[..i] + l[i + 1..], key) == Listed(l, key) - if l[i].key == key then 1 else 0
  {
    ListedSplit(l[..i], l[i + 1..], key);
    ListedStep(l[..i], l[i], key);
    assert l == l[..i] + [l[i]] + l[i + 1..];
    ListedSplit(l[..i] + [l[i]], l[i + 1..], key);
  }

  /** The entries of a file, and the others. */
  function OfFile(l: seq<Client>, file: nat, mine: bool): (r: seq<Client>)
    ensures forall i :: 0 <= i < |r| ==> r[i] in l && ((r[i].file == file) == mine)
  {
    if l == [] then []
    else
      var n := |l| - 1;
      OfFile(l[..n], file, mine) + if (l[n].file == file) == mine then [l[n]] else []
  }

  lemma {:induction false} OfFileSplits(l: seq<Client>, file: nat, key: Key)
    ensures Listed(l, key) == Listed(OfFile(l, file, true), key) + Listed(OfFile(l, file, false), key)
  {
    if l != [] {
      var n := |l| - 1;
      OfFileSplits(l[..n], file, key);
      ListedStep(OfFile(l[..n], file, true), l[n], key);
      ListedStep(OfFile(l[..n], file, false), l[n], key);
      assert OfFile(l[..n], file, true) + [] == OfFile(l[..n], file, true);
      assert OfFile(l[..n], file, false) + [] == OfFile(l[..n], file, false);
    }
  }

  lemma {:induction false} OfFileNoDuplicates(l: seq<Client>, file: nat, mine: bool)
    requires NoDuplicates(l)
    ensures NoDuplicates(OfFile(l, file, mine))
  {
    if l != [] {
      var n := |l| - 1;
      OfFileNoDuplicates(l[..n], file, mine);
      assert l[n] !in l[..n];
    }
  }
}
