/** The audio data blocks of a CEA extension, gathered into one buffer by repeated scans. */
module CeaAudio {
  import opened CeaBlocks

  // ----- what there is to gather -----

  /** The block at o and its payload are there. */
  predicate Within(cea: seq<Byte>, o: nat) {
    o < |cea| && o + PayloadLen(cea, o) < |cea|
  }

  ghost predicate AllWithin(cea: seq<Byte>, w: seq<nat>) {
    forall k :: 0 <= k < |w| ==> Within(cea, w[k])
  }

  /** The audio blocks among the given ones. */
  function AudioAmong(cea: seq<Byte>, w: seq<nat>): (r: seq<nat>)
    requires AllWithin(cea, w)
    ensures AllWithin(cea, r)
  {
    if w == [] then []
    else (if Tag(cea, w[0]) == AUDIO_DATA_BLOCK then [w[0]] else []) + AudioAmong(cea, w[1..])
  }

  /** The audio blocks of the extension, in order. */
  function AudioBlocks(cea: seq<Byte>): (r: seq<nat>)
    requires IsExtension(cea)
    ensures AllWithin(cea, r)
  {
    if cea[2] == 0 || cea[2] == 4 then []
    else AudioAmong(cea, LooseBlocks(cea, DBC_START_OFFSET, cea[2]))
  }

  function Payload(cea: seq<Byte>, o: nat): (p: seq<Byte>)
    requires Within(cea, o)
    ensures |p| == PayloadLen(cea, o)
  {
    cea[o + 1..o + 1 + PayloadLen(cea, o)]
  }

  function Payloads(cea: seq<Byte>, w: seq<nat>): seq<Byte>
    requires AllWithin(cea, w)
  {
    if w == [] then [] else Payloads(cea, w[..|w| - 1]) + Payload(cea, w[|w| - 1])
  }

  /** How many of the blocks are taken before one is refused: too long, or the sixth. */
  function Taken(cea: seq<Byte>, w: seq<nat>, n: nat): (k: nat)
    requires n <= |w| && AllWithin(cea, w)
    ensures n <= k <= |w|
    decreases |w| - n
  {
    if n == |w| || n >= MAX_NUMBER_ADB || PayloadLen(cea, w[n]) > MAX_AUDIO_DATA_BLOCK_SIZE then n
    else Taken(cea, w, n + 1)
  }

  // ----- what these are -----

  ghost predicate Increasing(w: seq<nat>) {
    forall j, k :: 0 <= j < k < |w| ==> w[j] < w[k]
  }

  /** The audio blocks are those among the blocks whose first byte has 1 in its upper three bits,
      in the same order. */
  lemma {:induction false} AudioAmongAll(cea: seq<Byte>, w: seq<nat>)
    requires AllWithin(cea, w) && Increasing(w)
    ensures var r := AudioAmong(cea, w);
            Increasing(r) && forall o :: o in r <==> o in w && cea[o] / 32 == 1
    decreases |w|
  {
    if w != [] {
      AudioAmongAll(cea, w[1..]);
      assert w == [w[0]] + w[1..];
      assert forall o :: o in w[1..] ==> w[0] < o;
      hide PayloadLen;
    }
  }

  lemma {:induction false} LooseIncreasing(cea: seq<Byte>, i: nat, dbc: nat)
    requires dbc < |cea|
    ensures Increasing(LooseBlocks(cea, i, dbc))
    decreases dbc - i
  {
    hide PayloadLen;
    if i < dbc { LooseIncreasing(cea, i + 1 + PayloadLen(cea, i), dbc); }
  }

  /** So the audio blocks of the extension are those of the second scanner's chain. */
  lemma AudioBlocksAre(cea: seq<Byte>)
    requires IsExtension(cea)
    ensures cea[2] == 0 || cea[2] == 4 ==> AudioBlocks(cea) == []
    ensures cea[2] != 0 && cea[2] != 4 ==>
              Increasing(AudioBlocks(cea))
              && forall o :: o in AudioBlocks(cea) <==> o in LooseBlocks(cea, 4, cea[2]) && cea[o] / 32 == 1
  {
    LooseIncreasing(cea, DBC_START_OFFSET, cea[2]);
    AudioAmongAll(cea, LooseBlocks(cea, DBC_START_OFFSET, cea[2]));
  }

  /** The first refused block is the sixth one or has more than 30 bytes. */
  lemma {:induction false} TakenMeans(cea: seq<Byte>, w: seq<nat>, n: nat)
    requires AllWithin(cea, w) && n <= |w|
    ensures var k := Taken(cea, w, n);
            && (forall i :: n <= i < k ==> i < 5 && cea[w[i]] % 32 <= 30)
            && (k < |w| ==> k >= 5 || cea[w[k]] % 32 > 30)
    decreases |w| - n
  {
    if n < |w| && n < MAX_NUMBER_ADB && PayloadLen(cea, w[n]) <= MAX_AUDIO_DATA_BLOCK_SIZE {
      assert cea[w[n]] % 32 <= 30;
      TakenMeans(cea, w, n + 1);
    }
  }

  /** Where the payload of each block begins in the buffer; the last entry is its size. */
  ghost predicate Starts(cea: seq<Byte>, w: seq<nat>, at: seq<nat>)
    requires AllWithin(cea, w)
  {
    && |at| == |w| + 1 && at[0] == 0
    && forall k: nat :: k < |w| ==> at[k + 1] == at[k] + cea[w[k]] % 32
  }

  /** The buffer holds the bytes that follow the first byte of each block, as many as that says. */
  ghost predicate Holds(cea: seq<Byte>, w: seq<nat>, at: seq<nat>, buf: seq<Byte>)
    requires AllWithin(cea, w) && Starts(cea, w, at)
  {
    && |buf| == at[|w|]
    && forall k: nat :: k < |w| ==> PayloadAt(cea, w[k], buf, at[k])
  }

  ghost predicate PayloadAt(cea: seq<Byte>, o: nat, buf: seq<Byte>, p: nat)
    requires Within(cea, o)
  {
    p + cea[o] % 32 <= |buf| && buf[p..p + cea[o] % 32] == cea[o + 1..o + 1 + cea[o] % 32]
  }

  lemma {:induction false} PayloadBytes(cea: seq<Byte>, w: seq<nat>) returns (at: seq<nat>)
    requires AllWithin(cea, w)
    ensures Starts(cea, w, at) && Holds(cea, w, at, Payloads(cea, w))
    decreases |w|
  {
    if w == [] { return [0]; }
    var n := |w| - 1;
    var before := PayloadBytes(cea, w[..n]);
    at := before + [before[n] + cea[w[n]] % 32];
    StartsLonger(cea, w, before, at);
    var past, now := Payloads(cea, w[..n]), Payloads(cea, w);
    assert now == past + Payload(cea, w[n]);
    forall k: nat | k < |w| ensures PayloadAt(cea, w[k], now, at[k]) {
      if k < n { assert PayloadAt(cea, w[..n][k], past, before[k]); KeptBytes(cea, w[k], past, now, at[k]); }
      else { LastBytes(cea, w[n], past, now); }
    }
  }

  lemma StartsLonger(cea: seq<Byte>, w: seq<nat>, before: seq<nat>, at: seq<nat>)
    requires AllWithin(cea, w) && w != [] && Starts(cea, w[..|w| - 1], before)
    requires at == before + [before[|w| - 1] + cea[w[|w| - 1]] % 32]
    ensures Starts(cea, w, at)
  {
    forall k: nat | k < |w| ensures at[k + 1] == at[k] + cea[w[k]] % 32 {
      if k < |w| - 1 { assert w[..|w| - 1][k] == w[k]; }
    }
  }

  lemma KeptBytes(cea: seq<Byte>, o: nat, past: seq<Byte>, now: seq<Byte>, p: nat)
    requires Within(cea, o) && PayloadAt(cea, o, past, p) && past <= now
    ensures PayloadAt(cea, o, now, p)
  {
    assert now[..|past|][p..p + cea[o] % 32] == now[p..p + cea[o] % 32];
  }

  lemma LastBytes(cea: seq<Byte>, o: nat, past: seq<Byte>, now: seq<Byte>)
    requires Within(cea, o) && now == past + Payload(cea, o)
    ensures PayloadAt(cea, o, now, |past|)
  {
    assert now[|past|..] == Payload(cea, o);
  }

  // ----- one pass of the loop -----

  datatype Gathering = Gathering(offset: nat, count: nat, buf: seq<Byte>)

  datatype Outcome = Returned(buf: seq<Byte>) | Again(g: Gathering)

  /** The body of the do-while loop and its condition; a refused block jumps to the condition
      with the offset unchanged. */
  function Pass(cea: seq<Byte>, g: Gathering): Outcome
    requires IsExtension(cea)
  {
    var adb := FoundFrom(cea, g.offset, AUDIO_DATA_BLOCK);
    if adb.None? then Returned(g.buf)
    else
      var len := PayloadLen(cea, adb.value);
      if len > MAX_AUDIO_DATA_BLOCK_SIZE || g.count >= MAX_NUMBER_ADB then
        if g.buf == [] then Returned([]) else Again(g)
      else Again(Gathering(adb.value + 1 + len, g.count + 1, g.buf + Payload(cea, adb.value)))
  }

  const Begin: Gathering := Gathering(DBC_START_OFFSET, 0, [])

  function Passes(cea: seq<Byte>, g: Gathering, n: nat): Outcome
    requires IsExtension(cea)
  {
    if n == 0 then Again(g)
    else match Passes(cea, g, n - 1)
         case Returned(buf) => Returned(buf)
         case Again(h) => Pass(cea, h)
  }

  ghost predicate Ends(cea: seq<Byte>)
    requires IsExtension(cea)
  {
    exists n: nat :: Passes(cea, Begin, n).Returned?
  }

  // ----- the loop walks the audio blocks -----

  /** The audio blocks from an offset on. */
  function From(cea: seq<Byte>, i: nat): (r: seq<nat>)
    requires IsExtension(cea)
    ensures AllWithin(cea, r)
  {
    if cea[2] == 0 || cea[2] == 4 then [] else AudioAmong(cea, LooseBlocks(cea, i, cea[2]))
  }

  lemma FromHere(cea: seq<Byte>, i: nat)
    requires IsExtension(cea) && cea[2] != 0 && cea[2] != 4 && i < cea[2]
    ensures From(cea, i) ==
            (if i + PayloadLen(cea, i) <= cea[2] && Tag(cea, i) == AUDIO_DATA_BLOCK then [i] else [])
            + From(cea, i + 1 + PayloadLen(cea, i))
  {
    var w, rest := LooseBlocks(cea, i, cea[2]), LooseBlocks(cea, i + 1 + PayloadLen(cea, i), cea[2]);
    if i + PayloadLen(cea, i) <= cea[2] { assert w[0] == i && w[1..] == rest; }
  }

  lemma {:induction false} FromIsFound(cea: seq<Byte>, i: nat)
    requires IsExtension(cea)
    ensures match FoundFrom(cea, i, AUDIO_DATA_BLOCK)
            case None => From(cea, i) == []
            case Some(o) => From(cea, i) == [o] + From(cea, o + 1 + PayloadLen(cea, o))
    decreases cea[2] - i
  {
    hide From, FoundFrom, PayloadLen, Tag;
    var dbc := cea[2];
    if dbc == 0 || dbc == 4 || i >= dbc {
      FromNothing(cea, i);
    } else {
      var next := i + 1 + PayloadLen(cea, i);
      FromHere(cea, i);
      FoundHere(cea, i);
      if !(i + PayloadLen(cea, i) <= dbc && Tag(cea, i) == AUDIO_DATA_BLOCK) {
        assert From(cea, i) == From(cea, next);
        FromIsFound(cea, next);
      }
    }
  }

  lemma FromNothing(cea: seq<Byte>, i: nat)
    requires IsExtension(cea) && (cea[2] == 0 || cea[2] == 4 || i >= cea[2])
    ensures From(cea, i) == [] && FoundFrom(cea, i, AUDIO_DATA_BLOCK) == None
  {
  }

  lemma FoundHere(cea: seq<Byte>, i: nat)
    requires IsExtension(cea) && cea[2] != 0 && cea[2] != 4 && i < cea[2]
    ensures FoundFrom(cea, i, AUDIO_DATA_BLOCK) ==
            if i + PayloadLen(cea, i) <= cea[2] && Tag(cea, i) == AUDIO_DATA_BLOCK then Some(i)
            else FoundFrom(cea, i + 1 + PayloadLen(cea, i), AUDIO_DATA_BLOCK)
  {
  }

  /** After n passes the first n audio blocks are gathered and the others lie ahead. */
  ghost predicate Gathered(cea: seq<Byte>, g: Gathering, n: nat)
    requires IsExtension(cea)
  {
    var w := AudioBlocks(cea);
    && g.count == n <= |w| && n <= MAX_NUMBER_ADB
    && From(cea, g.offset) == w[n..]
    && g.buf == Payloads(cea, w[..n])
    && |g.buf| <= n * MAX_AUDIO_DATA_BLOCK_SIZE
  }

  /** The next audio block, if there is one. */
  lemma NextBlock(cea: seq<Byte>, g: Gathering, n: nat)
    requires IsExtension(cea) && Gathered(cea, g, n)
    ensures var w := AudioBlocks(cea);
            if n == |w| then FoundFrom(cea, g.offset, AUDIO_DATA_BLOCK).None?
            else
              && FoundFrom(cea, g.offset, AUDIO_DATA_BLOCK) == Some(w[n])
              && From(cea, w[n] + 1 + PayloadLen(cea, w[n])) == w[n + 1..]
              && Payloads(cea, w[..n + 1]) == Payloads(cea, w[..n]) + Payload(cea, w[n])
  {
    hide From, FoundFrom, AudioBlocks;
    var w := AudioBlocks(cea);
    FromIsFound(cea, g.offset);
    if n < |w| {
      assert w[n..] == [w[n]] + w[n + 1..];
      assert w[..n + 1][..n] == w[..n] && w[..n + 1][n] == w[n];
    }
  }

  lemma PassGathers(cea: seq<Byte>, g: Gathering, n: nat)
    requires IsExtension(cea) && Gathered(cea, g, n)
    ensures var w := AudioBlocks(cea);
            if n == |w| then Pass(cea, g) == Returned(g.buf)
            else if n < Taken(cea, w, n) then Pass(cea, g).Again? && Gathered(cea, Pass(cea, g).g, n + 1)
            else if g.buf == [] then Pass(cea, g) == Returned([])
            else Pass(cea, g) == Again(g)
  {
    hide From, FoundFrom, AudioBlocks, Payloads, Payload;
    NextBlock(cea, g, n);
  }

  lemma {:induction false} PassesGather(cea: seq<Byte>, n: nat)
    requires IsExtension(cea) && n <= Taken(cea, AudioBlocks(cea), 0)
    ensures Passes(cea, Begin, n).Again? && Gathered(cea, Passes(cea, Begin, n).g, n)
  {
    hide Pass, Gathered;
    if n == 0 {
      Nothing(cea);
    } else {
      PassesGather(cea, n - 1);
      TakenStays(cea, AudioBlocks(cea), n - 1);
      PassGathers(cea, Passes(cea, Begin, n - 1).g, n - 1);
    }
  }

  lemma Nothing(cea: seq<Byte>)
    requires IsExtension(cea)
    ensures Gathered(cea, Begin, 0)
  {
    var w := AudioBlocks(cea);
    assert w[..0] == [] && w[0..] == w;
  }

  lemma {:induction false} TakenStays(cea: seq<Byte>, w: seq<nat>, n: nat)
    requires AllWithin(cea, w)
    requires n <= Taken(cea, w, 0)
    ensures Taken(cea, w, n) == Taken(cea, w, 0)
  {
    if n > 0 {
      TakenStays(cea, w, n - 1);
    }
  }

  lemma {:induction false} StuckForever(cea: seq<Byte>, n: nat, m: nat)
    requires IsExtension(cea) && n <= m
    requires Passes(cea, Begin, n).Again? && Pass(cea, Passes(cea, Begin, n).g) == Passes(cea, Begin, n)
    ensures Passes(cea, Begin, m) == Passes(cea, Begin, n)
  {
    if m > n { StuckForever(cea, n, m - 1); }
  }

  lemma {:induction false} NotYet(cea: seq<Byte>, n: nat, m: nat)
    requires IsExtension(cea) && m <= n && Passes(cea, Begin, n).Again?
    ensures Passes(cea, Begin, m).Again?
  {
    if m < n { NotYet(cea, n - 1, m); }
  }

  /** All audio blocks are taken, or nothing was gathered when one is refused. */
  predicate Manageable(cea: seq<Byte>)
    requires IsExtension(cea)
  {
    var w := AudioBlocks(cea);
    var n := Taken(cea, w, 0);
    n == |w| || Payloads(cea, w[..n]) == []
  }

  /** The loop ends exactly when every audio block is taken or the refused one comes before any
      payload; then the buffer is the payloads in order, or empty.  Otherwise it repeats the
      same pass for ever.  It never gathers more than the buffer holds. */
  lemma LoopEndsIff(cea: seq<Byte>)
    requires IsExtension(cea)
    ensures Ends(cea) <==> Manageable(cea)
    ensures var w := AudioBlocks(cea);
            var n := Taken(cea, w, 0);
            Manageable(cea) ==> Passes(cea, Begin, n + 1) == Returned(if n == |w| then Payloads(cea, w) else [])
    ensures forall m: nat :: Passes(cea, Begin, m).Again? ==>
              |Passes(cea, Begin, m).g.buf| <= MAX_NUMBER_ADB * MAX_AUDIO_DATA_BLOCK_SIZE
  {
    var w := AudioBlocks(cea);
    var n := Taken(cea, w, 0);
    PassesGather(cea, n);
    TakenStays(cea, w, n);
    var g := Passes(cea, Begin, n).g;
    PassGathers(cea, g, n);
    if n == |w| { assert w[..n] == w; }
    assert Manageable(cea) ==> Passes(cea, Begin, n + 1).Returned?;
    forall m: nat ensures Passes(cea, Begin, m).Again?
      ==> |Passes(cea, Begin, m).g.buf| <= MAX_NUMBER_ADB * MAX_AUDIO_DATA_BLOCK_SIZE
                  ensures !Manageable(cea) ==> Passes(cea, Begin, m).Again?
    {
      if m <= n { PassesGather(cea, m); }
      else if Manageable(cea) { if Passes(cea, Begin, m).Again? { NotYet(cea, m, n + 1); } }
      else { StuckForever(cea, n, m); }
    }
  }

  /** A block of one byte and then one of 31: the loop does not end. */
  lemma LongBlockNeverEnds()
    ensures var cea: seq<Byte> := seq(128, i => if i == 2 then 38 else if i == 4 then 33 else if i == 6 then 63 else 0);
            IsExtension(cea) && AudioBlocks(cea) == [4, 6] && !Ends(cea)
  {
    var cea: seq<Byte> := seq(128, i => if i == 2 then 38 else if i == 4 then 33 else if i == 6 then 63 else 0);
    assert PayloadLen(cea, 4) == 1 && Tag(cea, 4) == 1 && PayloadLen(cea, 6) == 31 && Tag(cea, 6) == 1;
    FromHere(cea, 4);
    FromHere(cea, 6);
    FromNothing(cea, 38);
    var w := AudioBlocks(cea);
    assert w == From(cea, 4) == [4] + ([6] + []) == [4, 6];
    assert Taken(cea, w, 1) == 1 && Taken(cea, w, 0) == 1;
    assert w[..1][..0] == [] && w[..1][0] == 4;
    assert |Payloads(cea, w[..1])| == |Payloads(cea, [])| + 1;
    LoopEndsIff(cea);
  }

  // ----- the loop itself -----

  /** _sde_edid_extract_audio_data_blocks, for extensions on which it ends. */
  method ExtractAudio(cea: seq<Byte>, block: array<Byte>) returns (size: nat, ghost at: seq<nat>)
    requires IsExtension(cea) && Manageable(cea)
    requires block.Length == MAX_NUMBER_ADB * MAX_AUDIO_DATA_BLOCK_SIZE
    modifies block
    ensures size <= block.Length
    ensures var w := AudioBlocks(cea);
            block[..size] == if Taken(cea, w, 0) == |w| then Payloads(cea, w) else []
    ensures forall i :: size <= i < block.Length ==> block[i] == 0
    ensures AudioIn(cea, AudioBlocks(cea), at, block[..size])
  {
    hide AudioBlocks, Payloads, Starts, Holds, PayloadLen, Taken, Manageable, AudioIn;
    at := PayloadBytes(cea, AudioBlocks(cea));
    size := 0;
    for i := 0 to block.Length
      invariant forall j :: 0 <= j < i ==> block[j] == 0
    {
      block[i] := 0;
    }
    assert block[..0] == [];
    size := Gather(cea, block);
    Delivered(cea, AudioBlocks(cea), at, block[..size]);
  }

  /** The buffer holds the bytes that follow the first byte of each block, as many as its lower
      five bits say, one block behind the other; and nothing if there are more than five blocks
      or one has more than 30 bytes. */
  ghost predicate AudioIn(cea: seq<Byte>, w: seq<nat>, at: seq<nat>, buf: seq<Byte>)
    requires AllWithin(cea, w)
  {
    if |w| <= 5 && forall k :: 0 <= k < |w| ==> cea[w[k]] % 32 <= 30 then
      && |at| == |w| + 1 && at[0] == 0 && |buf| == at[|w|]
      && (forall k: nat :: k < |w| ==> at[k + 1] == at[k] + cea[w[k]] % 32)
      && forall k: nat :: k < |w| ==>
           at[k] + cea[w[k]] % 32 <= |buf|
           && buf[at[k]..at[k] + cea[w[k]] % 32] == cea[w[k] + 1..w[k] + 1 + cea[w[k]] % 32]
    else buf == []
  }

  lemma Delivered(cea: seq<Byte>, w: seq<nat>, at: seq<nat>, buf: seq<Byte>)
    requires AllWithin(cea, w) && Starts(cea, w, at) && Holds(cea, w, at, Payloads(cea, w))
    requires buf == if Taken(cea, w, 0) == |w| then Payloads(cea, w) else []
    ensures AudioIn(cea, w, at, buf)
  {
    AllTaken(cea, w);
    hide Payloads, Taken;
    if Taken(cea, w, 0) == |w| {
      forall k: nat | k < |w| ensures PayloadAt(cea, w[k], buf, at[k]) {
      }
    }
  }

  /** The whole list is taken exactly if it has at most five blocks, none longer than 30 bytes. */
  lemma AllTaken(cea: seq<Byte>, w: seq<nat>)
    requires AllWithin(cea, w)
    ensures Taken(cea, w, 0) == |w| <==> |w| <= 5 && forall k :: 0 <= k < |w| ==> cea[w[k]] % 32 <= 30
  {
    TakenMeans(cea, w, 0);
    var k := Taken(cea, w, 0);
    hide Taken;
    if k == |w| {
      if w != [] { assert cea[w[|w| - 1]] % 32 <= 30 && |w| - 1 < 5; }
    } else {
      assert k >= 5 || cea[w[k]] % 32 > 30;
    }
  }

  method Gather(cea: seq<Byte>, block: array<Byte>) returns (size: nat)
    requires IsExtension(cea) && Manageable(cea)
    requires block.Length == MAX_NUMBER_ADB * MAX_AUDIO_DATA_BLOCK_SIZE
    requires forall i :: 0 <= i < block.Length ==> block[i] == 0
    modifies block
    ensures size <= block.Length
    ensures var w := AudioBlocks(cea);
            block[..size] == if Taken(cea, w, 0) == |w| then Payloads(cea, w) else []
    ensures forall i :: size <= i < block.Length ==> block[i] == 0
  {
    hide From, FoundFrom, AudioBlocks, Payloads, Payload, Gathered, Taken;
    size := 0;
    ghost var w := AudioBlocks(cea);
    ghost var last := Taken(cea, w, 0);
    var offset: nat, max: nat := DBC_START_OFFSET, 0;
    Nothing(cea);
    assert block[..0] == [];
    var more := true;
    while more
      invariant max <= last && size <= block.Length
      invariant Gathered(cea, Gathering(offset, max, block[..size]), max)
      invariant forall i :: size <= i < block.Length ==> block[i] == 0
      invariant !more ==> last == |w| == max || (last < |w| && size == 0)
      decreases more, last - max
    {
      ghost var g := Gathering(offset, max, block[..size]);
      Refusal(cea, g, max);
      var adb, len := FindBlockFrom(cea, offset, AUDIO_DATA_BLOCK);
      if adb.None? || len > MAX_AUDIO_DATA_BLOCK_SIZE || max >= MAX_NUMBER_ADB {
        more := false;
      } else {
        Copy(cea, adb.value, len, block, size);
        offset := adb.value + 1 + len;
        size := size + len;
        max := max + 1;
      }
    }
    AllOrNothing(cea, Gathering(offset, max, block[..size]), max);
  }

  /** What the test of the loop means. */
  lemma Refusal(cea: seq<Byte>, g: Gathering, n: nat)
    requires IsExtension(cea) && Manageable(cea) && Gathered(cea, g, n) && n <= Taken(cea, AudioBlocks(cea), 0)
    ensures var w, adb := AudioBlocks(cea), FoundFrom(cea, g.offset, AUDIO_DATA_BLOCK);
            if adb.None? || PayloadLen(cea, adb.value) > MAX_AUDIO_DATA_BLOCK_SIZE || n >= MAX_NUMBER_ADB
            then (n == |w| == Taken(cea, w, 0)) || (Taken(cea, w, 0) < |w| && g.buf == [])
            else n < Taken(cea, w, 0)
                 && |g.buf| + PayloadLen(cea, adb.value) <= MAX_NUMBER_ADB * MAX_AUDIO_DATA_BLOCK_SIZE
                 && Within(cea, adb.value)
                 && Gathered(cea, Gathering(adb.value + 1 + PayloadLen(cea, adb.value), n + 1,
                                            g.buf + Payload(cea, adb.value)), n + 1)
  {
    hide From, FoundFrom, AudioBlocks, Payloads, Payload;
    var w := AudioBlocks(cea);
    TakenStays(cea, w, n);
    NextBlock(cea, g, n);
  }

  lemma AllOrNothing(cea: seq<Byte>, g: Gathering, n: nat)
    requires IsExtension(cea) && Gathered(cea, g, n)
    ensures n == |AudioBlocks(cea)| ==> g.buf == Payloads(cea, AudioBlocks(cea))
  {
    var w := AudioBlocks(cea);
    if n == |w| { assert w[..n] == w; }
  }

  /** The payload goes behind what is gathered. */
  method Copy(cea: seq<Byte>, o: nat, len: nat, block: array<Byte>, size: nat)
    requires Within(cea, o) && len == PayloadLen(cea, o) && size + len <= block.Length
    requires forall i :: size <= i < block.Length ==> block[i] == 0
    modifies block
    ensures block[..size + len] == old(block[..size]) + Payload(cea, o)
    ensures forall i :: size + len <= i < block.Length ==> block[i] == 0
  {
    for j := 0 to len
      invariant forall i :: 0 <= i < size ==> block[i] == old(block[i])
      invariant forall i :: size <= i < size + j ==> block[i] == cea[o + 1 + i - size]
      invariant forall i :: size + j <= i < block.Length ==> block[i] == 0
    {
      block[size + j] := cea[o + 1 + j];
    }
  }
}
