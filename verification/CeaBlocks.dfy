/** The data block collection of a CEA extension (section 7.5 of CTA-861-G): two scanners that
    were written apart, and the audio blocks that one of them collects. */
module CeaBlocks {

  const DBC_START_OFFSET: nat := 4
  const MAX_NUMBER_ADB: nat := 5
  const MAX_AUDIO_DATA_BLOCK_SIZE: nat := 30
  const AUDIO_DATA_BLOCK: nat := 1

  type Byte = x: int | 0 <= x < 256

  datatype Option<T> = None | Some(value: T)

  /** The bytes from the extension block on; the collection ends before the block does. */
  ghost predicate IsExtension(cea: seq<Byte>) {
    |cea| >= 128 && cea[2] < |cea|
  }

  function PayloadLen(cea: seq<Byte>, i: nat): (n: nat)
    requires i < |cea|
    ensures n < 32
  {
    cea[i] % 32
  }

  /** The first byte of a block is its tag in three bits and its length in five. */
  function Tag(cea: seq<Byte>, i: nat): (t: nat)
    requires i < |cea|
    ensures t < 8 && cea[i] == 32 * t + PayloadLen(cea, i)
  {
    cea[i] / 32
  }

  // ----- what there is to find -----

  /** The blocks that lie completely before end, one after the other from i on. */
  function Blocks(cea: seq<Byte>, i: nat, end: nat): (w: seq<nat>)
    requires end < |cea|
    ensures forall k :: 0 <= k < |w| ==> i <= w[k] < end && w[k] + PayloadLen(cea, w[k]) < end
    decreases end - i
  {
    if i < end && i + PayloadLen(cea, i) < end then [i] + Blocks(cea, i + PayloadLen(cea, i) + 1, end) else []
  }

  /** Where the complete blocks stop. */
  function Rest(cea: seq<Byte>, i: nat, end: nat): (t: nat)
    requires end < |cea|
    ensures t >= i && (t < end ==> t + PayloadLen(cea, t) >= end)
    decreases end - i
  {
    if i < end && i + PayloadLen(cea, i) < end then Rest(cea, i + PayloadLen(cea, i) + 1, end) else i
  }

  /** r is the first of the blocks with the tag. */
  ghost predicate FirstOf(cea: seq<Byte>, w: seq<nat>, tag: nat, r: Option<nat>)
    requires forall k :: 0 <= k < |w| ==> w[k] < |cea|
  {
    match r
    case None => forall k :: 0 <= k < |w| ==> cea[w[k]] / 32 != tag
    case Some(o) => exists k :: 0 <= k < |w| && w[k] == o && cea[o] / 32 == tag
                                && forall j :: 0 <= j < k ==> cea[w[j]] / 32 != tag
  }

  /** Every block lies right behind the payload of the one before, the lower five bits of its
      first byte. */
  ghost predicate Chained(cea: seq<Byte>, i: nat, w: seq<nat>)
    requires forall k :: 0 <= k < |w| ==> w[k] < |cea|
  {
    && (w != [] ==> w[0] == i)
    && forall k: nat :: k + 1 < |w| ==> w[k + 1] == w[k] + 1 + cea[w[k]] % 32
  }

  /** Where a chain goes on. */
  function Behind(cea: seq<Byte>, i: nat, w: seq<nat>): nat
    requires forall k :: 0 <= k < |w| ==> w[k] < |cea|
  {
    if w == [] then i else w[|w| - 1] + 1 + cea[w[|w| - 1]] % 32
  }

  /** The complete blocks are the chain from i on, up to the first one that reaches the end. */
  lemma {:induction false} BlocksAreTheChain(cea: seq<Byte>, i: nat, end: nat)
    requires end < |cea|
    ensures var w := Blocks(cea, i, end);
            && Chained(cea, i, w) && (forall k :: 0 <= k < |w| ==> w[k] + cea[w[k]] % 32 < end)
            && Behind(cea, i, w) == Rest(cea, i, end)
            && (Rest(cea, i, end) < end ==> Rest(cea, i, end) + cea[Rest(cea, i, end)] % 32 >= end)
    decreases end - i
  {
    if i < end && i + PayloadLen(cea, i) < end {
      var next := i + PayloadLen(cea, i) + 1;
      BlocksAreTheChain(cea, next, end);
      var rest := Blocks(cea, next, end);
      var w := Blocks(cea, i, end);
      assert w == [i] + rest;
      forall k: nat | k + 1 < |w| ensures w[k + 1] == w[k] + 1 + cea[w[k]] % 32 {
        if k > 0 { assert w[k] == rest[k - 1] && w[k + 1] == rest[k - 1 + 1]; }
      }
    }
  }

  /** The collection tiles its space: blocks without a gap or an overlap at the end. */
  predicate Tiles(cea: seq<Byte>, end: nat)
    requires end < |cea|
  {
    Rest(cea, DBC_START_OFFSET, end) == end
  }

  // ----- the two scanners -----

  /** sde_cea_db_offsets. */
  function Offsets(cea: seq<Byte>): (r: Option<nat>)
    requires |cea| >= 128
    ensures r.Some? ==> 4 <= r.value <= 127
  {
    var end := if cea[2] == 0 then 127 else cea[2];
    if end < 4 || end > 127 then None else Some(end)
  }

  function StrictFrom(cea: seq<Byte>, i: nat, end: nat, tag: nat): (r: Option<nat>)
    requires end < |cea|
    decreases end - i
  {
    if i < end && i + PayloadLen(cea, i) < end then
      if Tag(cea, i) == tag then Some(i) else StrictFrom(cea, i + PayloadLen(cea, i) + 1, end, tag)
    else None
  }

  lemma FirstCons(cea: seq<Byte>, i: nat, w: seq<nat>, tag: nat, r: Option<nat>)
    requires i < |cea| && forall k :: 0 <= k < |w| ==> w[k] < |cea|
    ensures Tag(cea, i) == tag ==> FirstOf(cea, [i] + w, tag, Some(i))
    ensures Tag(cea, i) != tag && FirstOf(cea, w, tag, r) ==> FirstOf(cea, [i] + w, tag, r)
  {
    var v := [i] + w;
    if Tag(cea, i) == tag { assert v[0] == i; }
    else if FirstOf(cea, w, tag, r) && r.Some? {
      var k :| 0 <= k < |w| && w[k] == r.value && cea[r.value] / 32 == tag
        && forall j :: 0 <= j < k ==> cea[w[j]] / 32 != tag;
      assert v[k + 1] == r.value;
      assert forall j :: 0 <= j < k + 1 ==> cea[v[j]] / 32 != tag;
    }
  }

  lemma {:induction false} StrictIsFirst(cea: seq<Byte>, i: nat, end: nat, tag: nat)
    requires end < |cea|
    ensures FirstOf(cea, Blocks(cea, i, end), tag, StrictFrom(cea, i, end, tag))
    decreases end - i
  {
    hide PayloadLen, Tag;
    if i < end && i + PayloadLen(cea, i) < end {
      var next := i + PayloadLen(cea, i) + 1;
      StrictIsFirst(cea, next, end, tag);
      FirstCons(cea, i, Blocks(cea, next, end), tag, StrictFrom(cea, next, end, tag));
    }
  }

  /** sde_edid_find_block. */
  method FindBlock(cea: seq<Byte>, tag: nat) returns (r: Option<nat>)
    requires IsExtension(cea)
    ensures cea[1] < 3 || 1 <= cea[2] <= 3 || cea[2] > 127 ==> r.None?
    ensures cea[1] >= 3 && cea[2] == 0 ==> FirstOf(cea, Blocks(cea, 4, 127), tag, r)
    ensures cea[1] >= 3 && 4 <= cea[2] <= 127 ==> FirstOf(cea, Blocks(cea, 4, cea[2]), tag, r)
  {
    if cea[1] < 3 { return None; }
    var offsets := Offsets(cea);
    if offsets.None? { return None; }
    var i, end := DBC_START_OFFSET, offsets.value;
    StrictIsFirst(cea, i, end, tag);
    while i < end && i + PayloadLen(cea, i) < end
      invariant StrictFrom(cea, DBC_START_OFFSET, end, tag) == StrictFrom(cea, i, end, tag)
      decreases end - i
    {
      if Tag(cea, i) == tag { return Some(i); }
      i := i + PayloadLen(cea, i) + 1;
    }
    r := None;
  }

  /** The blocks the second scanner takes: the complete ones, and one that ends on the byte
      behind the collection. */
  function LooseBlocks(cea: seq<Byte>, i: nat, dbc: nat): (w: seq<nat>)
    requires dbc < |cea|
    ensures forall k :: 0 <= k < |w| ==> i <= w[k] < dbc && w[k] + PayloadLen(cea, w[k]) <= dbc
    decreases dbc - i
  {
    if i >= dbc then []
    else
      var rest := LooseBlocks(cea, i + 1 + PayloadLen(cea, i), dbc);
      if i + PayloadLen(cea, i) <= dbc then [i] + rest else rest
  }

  /** What the second scanner finds. */
  function FoundFrom(cea: seq<Byte>, start: nat, tag: nat): (r: Option<nat>)
    requires |cea| >= 128 && cea[2] < |cea|
    ensures r.Some? ==> start <= r.value < cea[2] && r.value + PayloadLen(cea, r.value) <= cea[2]
    decreases cea[2] - start
  {
    var dbc := cea[2];
    if dbc == 0 || dbc == 4 || start >= dbc then None
    else if start + PayloadLen(cea, start) <= dbc && Tag(cea, start) == tag then Some(start)
    else FoundFrom(cea, start + 1 + PayloadLen(cea, start), tag)
  }

  lemma {:induction false} FoundIsFirst(cea: seq<Byte>, start: nat, tag: nat)
    requires IsExtension(cea) && cea[2] != 0 && cea[2] != 4
    ensures FirstOf(cea, LooseBlocks(cea, start, cea[2]), tag, FoundFrom(cea, start, tag))
    decreases cea[2] - start
  {
    hide PayloadLen, Tag;
    if start < cea[2] {
      var next := start + 1 + PayloadLen(cea, start);
      FoundIsFirst(cea, next, tag);
      FirstCons(cea, start, LooseBlocks(cea, next, cea[2]), tag, FoundFrom(cea, next, tag));
    }
  }

  /** _sde_edid_find_block: position and payload length. */
  method FindBlockFrom(cea: seq<Byte>, start: nat, tag: nat) returns (r: Option<nat>, len: nat)
    requires IsExtension(cea)
    ensures r == FoundFrom(cea, start, tag)
    ensures cea[2] == 0 || cea[2] == 4 ==> r.None?
    ensures cea[2] != 0 && cea[2] != 4 ==> FirstOf(cea, LooseBlocks(cea, start, cea[2]), tag, r)
    ensures r.Some? ==> start <= r.value < cea[2] && len == PayloadLen(cea, r.value) && r.value + len <= cea[2]
  {
    var dbc := cea[2];
    len := 0;
    if dbc == 0 || dbc == 4 { return None, 0; }
    FoundIsFirst(cea, start, tag);
    var offset := start;
    while offset < dbc
      invariant offset >= start
      invariant FoundFrom(cea, start, tag) == FoundFrom(cea, offset, tag)
      decreases dbc - offset
    {
      var blockLen := PayloadLen(cea, offset);
      if offset + blockLen <= dbc && Tag(cea, offset) == tag { return Some(offset), blockLen; }
      offset := offset + 1 + blockLen;
    }
    r := None;
  }

  // ----- the scanners against each other -----

  lemma {:induction false} LooseIsStrictAndOne(cea: seq<Byte>, i: nat, dbc: nat)
    requires dbc < |cea|
    ensures var t := Rest(cea, i, dbc);
            LooseBlocks(cea, i, dbc)
            == Blocks(cea, i, dbc) + if t < dbc && t + PayloadLen(cea, t) == dbc then [t] else []
    decreases dbc - i
  {
    hide PayloadLen, Tag;
    if i < dbc && i + PayloadLen(cea, i) < dbc {
      LooseIsStrictAndOne(cea, i + PayloadLen(cea, i) + 1, dbc);
    } else if i < dbc {
      assert LooseBlocks(cea, i + 1 + PayloadLen(cea, i), dbc) == [];
    }
  }

  lemma FirstIsUnique(cea: seq<Byte>, w: seq<nat>, tag: nat, a: Option<nat>, b: Option<nat>)
    requires forall k :: 0 <= k < |w| ==> w[k] < |cea|
    requires FirstOf(cea, w, tag, a) && FirstOf(cea, w, tag, b)
    ensures a == b
  {
    if a.Some? && b.Some? {
      var k :| 0 <= k < |w| && w[k] == a.value && cea[a.value] / 32 == tag
        && forall j :: 0 <= j < k ==> cea[w[j]] / 32 != tag;
      var l :| 0 <= l < |w| && w[l] == b.value && cea[b.value] / 32 == tag
        && forall j :: 0 <= j < l ==> cea[w[j]] / 32 != tag;
      assert k == l;
    }
  }

  /** With revision 3 and an ordinary end of the collection the scanners find the same block,
      whatever the bytes, except for one case: no complete block has the tag, and the first
      incomplete one has it and is too long by exactly one byte. */
  lemma ScannersAgreeIff(cea: seq<Byte>, tag: nat, a: Option<nat>, b: Option<nat>)
    requires IsExtension(cea) && 5 <= cea[2] <= 127
    requires FirstOf(cea, Blocks(cea, DBC_START_OFFSET, cea[2]), tag, a)
    requires FirstOf(cea, LooseBlocks(cea, DBC_START_OFFSET, cea[2]), tag, b)
    ensures var t := Rest(cea, DBC_START_OFFSET, cea[2]);
            a == b <==> !(a.None? && t < cea[2] && t + PayloadLen(cea, t) == cea[2] && Tag(cea, t) == tag)
  {
    hide PayloadLen;
    var dbc := cea[2];
    var w := Blocks(cea, DBC_START_OFFSET, dbc);
    var t := Rest(cea, DBC_START_OFFSET, dbc);
    LooseIsStrictAndOne(cea, DBC_START_OFFSET, dbc);
    var loose := LooseBlocks(cea, DBC_START_OFFSET, dbc);
    var found := if a.Some? then a
                 else if t < dbc && t + PayloadLen(cea, t) == dbc && Tag(cea, t) == tag then Some(t) else None;
    assert FirstOf(cea, loose, tag, found) by {
      if a.Some? {
        var k :| 0 <= k < |w| && w[k] == a.value && cea[a.value] / 32 == tag
          && forall j :: 0 <= j < k ==> cea[w[j]] / 32 != tag;
        assert loose[k] == a.value;
      } else if found.Some? {
        assert loose[|w|] == t;
      }
    }
    FirstIsUnique(cea, loose, tag, found, b);
  }

  /** On a collection that tiles its space they always agree. */
  lemma ScannersAgreeOnTiles(cea: seq<Byte>, tag: nat, a: Option<nat>, b: Option<nat>)
    requires IsExtension(cea) && 5 <= cea[2] <= 127 && Tiles(cea, cea[2])
    requires FirstOf(cea, Blocks(cea, DBC_START_OFFSET, cea[2]), tag, a)
    requires FirstOf(cea, LooseBlocks(cea, DBC_START_OFFSET, cea[2]), tag, b)
    ensures a == b
  {
    ScannersAgreeIff(cea, tag, a, b);
  }

  /** The exception, concretely: an audio block of one byte in a collection of one byte. */
  lemma OverrunIsSeenByOneScanner()
    ensures var cea: seq<Byte> := seq(128, i => if i == 1 then 3 else if i == 2 then 5 else if i == 4 then 33 else 0);
            IsExtension(cea) && StrictFrom(cea, 4, 5, AUDIO_DATA_BLOCK) == None
              && FoundFrom(cea, 4, AUDIO_DATA_BLOCK) == Some(4)
  {
  }

  /** Both scanners side by side, for every extension: without blocks they agree unless the
      length byte is 0, which only the first scanner takes for a full block, or beyond the block. */
  method FindBoth(cea: seq<Byte>, tag: nat) returns (a: Option<nat>, b: Option<nat>)
    requires IsExtension(cea)
    ensures cea[1] >= 3 && 5 <= cea[2] <= 127 ==>
              var t := Rest(cea, DBC_START_OFFSET, cea[2]);
              a == b <==> !(a.None? && t < cea[2] && t + PayloadLen(cea, t) == cea[2] && Tag(cea, t) == tag)
    ensures 1 <= cea[2] <= 4 ==> a == b == None
    ensures cea[2] == 0 ==> b == None
    ensures cea[2] > 127 ==> a == None
  {
    a := FindBlock(cea, tag);
    var len;
    b, len := FindBlockFrom(cea, DBC_START_OFFSET, tag);
    if cea[1] >= 3 && 5 <= cea[2] <= 127 { ScannersAgreeIff(cea, tag, a, b); }
  }
}
