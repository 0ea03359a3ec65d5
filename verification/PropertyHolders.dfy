/** Which value slots of which property states point at a blob, and how that set moves
    when a state appears, disappears or has one slot written. */
module PropertyHolders {

  datatype Option<T> = None | Some(value: T)

  /** A property value and the blob saved with it. */
  datatype Slot = Slot(value: nat, blob: Option<nat>)

  /** The values of one state and the properties that are dirty, oldest first. */
  datatype PropState = PropState(slots: seq<Slot>, dirty: seq<nat>)

  type States = map<nat, PropState>

  ghost function Holders(states: States, b: nat): set<(nat, nat)> {
    set h, i | h in states && 0 <= i < |states[h].slots| && states[h].slots[i].blob == Some(b) :: (h, i)
  }

  /** The pointers at b that count already: in the state fill only the first n slots do. */
  ghost function Counted(states: States, b: nat, fill: nat, n: nat): set<(nat, nat)> {
    set p | p in Holders(states, b) && (p.0 == fill ==> p.1 < n)
  }

  function Written(states: States, h: nat, i: nat, s: Slot): States
    requires h in states && i < |states[h].slots|
  {
    states[h := states[h].(slots := states[h].slots[i := s])]
  }

  lemma WrittenHolders(states: States, h: nat, i: nat, s: Slot, b: nat)
    requires h in states && i < |states[h].slots|
    ensures Holders(Written(states, h, i, s), b) ==
            Holders(states, b) - {(h, i)} + (if s.blob == Some(b) then {(h, i)} else {})
    ensures (h, i) in Holders(states, b) <==> states[h].slots[i].blob == Some(b)
  {
  }

  lemma WrittenSize(states: States, h: nat, i: nat, s: Slot, b: nat)
    requires h in states && i < |states[h].slots|
    ensures |Holders(Written(states, h, i, s), b)| ==
            |Holders(states, b)| - (if states[h].slots[i].blob == Some(b) then 1 else 0)
              + (if s.blob == Some(b) then 1 else 0)
  {
    WrittenHolders(states, h, i, s, b);
    hide Holders;
    var rest := Holders(states, b) - {(h, i)};
    assert |Holders(Written(states, h, i, s), b)| == |rest| + if s.blob == Some(b) then 1 else 0;
  }

  lemma CountedStep(states: States, b: nat, h: nat, n: nat)
    requires h in states && n < |states[h].slots|
    ensures |Counted(states, b, h, n + 1)| ==
            |Counted(states, b, h, n)| + if states[h].slots[n].blob == Some(b) then 1 else 0
  {
    assert (h, n) in Holders(states, b) <==> states[h].slots[n].blob == Some(b);
    hide Holders;
    var now, next := Counted(states, b, h, n), Counted(states, b, h, n + 1);
    if states[h].slots[n].blob == Some(b) {
      assert next == now + {(h, n)};
    } else {
      assert next == now;
    }
  }

  lemma CountedEnds(states: States, b: nat, h: nat)
    requires h in states
    ensures Counted(states, b, h, |states[h].slots|) == Holders(states, b)
    ensures Counted(states, b, h, 0) == Holders(states - {h}, b)
  {
  }

  lemma NewHolders(states: States, h: nat, s: PropState, b: nat)
    requires h !in states
    ensures Holders(states[h := s] - {h}, b) == Holders(states, b)
  {
    assert states[h := s] - {h} == states;
  }

  lemma ClearedHolders(states: States, h: nat, b: nat)
    requires h in states && forall i :: 0 <= i < |states[h].slots| ==> states[h].slots[i].blob == None
    ensures Holders(states - {h}, b) == Holders(states, b)
  {
  }
}
