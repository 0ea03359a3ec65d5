/** The bit operations start_atomic and end_atomic make on their masks, read bit by bit. */
module MaskBits {

  predicate OneBit32(b: bv32) {
    b != 0 && b & (b - 1) == 0
  }

  predicate OneBit64(b: bv64) {
    b != 0 && b & (b - 1) == 0
  }

  predicate Meet32(x: bv32, y: bv32) { x & y != 0 }
  predicate Meet64(x: bv64, y: bv64) { x & y != 0 }
  function Set32(x: bv32, y: bv32): bv32 { x | y }
  function Set64(x: bv64, y: bv64): bv64 { x | y }
  function Clear32(x: bv32, y: bv32): bv32 { x & !y }
  function Clear64(x: bv64, y: bv64): bv64 { x & !y }

  lemma SetKeepsBit32(x: bv32, y: bv32, b: bv32)
    requires Meet32(x, b)
    ensures Meet32(Set32(x, y), b)
  {}

  lemma SetAddsBit32(x: bv32, y: bv32, b: bv32)
    requires Meet32(y, b)
    ensures Meet32(Set32(x, y), b)
  {}

  lemma SetBitComesFrom32(x: bv32, y: bv32, b: bv32)
    requires Meet32(Set32(x, y), b)
    ensures Meet32(x, b) || Meet32(y, b)
  {}

  lemma ClearKeepsBit32(x: bv32, y: bv32, b: bv32)
    requires Meet32(x, b) && !Meet32(y, b)
    ensures Meet32(Clear32(x, y), b)
  {}

  lemma ClearBitComesFrom32(x: bv32, y: bv32, b: bv32)
    requires OneBit32(b) && Meet32(Clear32(x, y), b)
    ensures Meet32(x, b) && !Meet32(y, b)
  {}

  lemma LowestBit32(x: bv32) returns (b: bv32)
    requires x != 0
    ensures OneBit32(b) && x & b != 0
  {
    b := x & (0 - x);
  }

  /** Two masks meet exactly when they share a bit. */
  lemma SharedBit32(x: bv32, y: bv32) returns (b: bv32)
    requires Meet32(x, y)
    ensures OneBit32(b) && Meet32(x, b) && Meet32(y, b)
  {
    b := LowestBit32(x & y);
    CommonBit32(x, y, b);
  }

  lemma CommonBit32(x: bv32, y: bv32, b: bv32)
    requires x & y & b != 0
    ensures Meet32(x, b) && Meet32(y, b)
  {}

  lemma MeetAtBit32(x: bv32, y: bv32, b: bv32)
    requires OneBit32(b) && Meet32(x, b) && Meet32(y, b)
    ensures Meet32(x, y)
  {}

  lemma BitOps32(x: bv32, y: bv32, b: bv32)
    requires OneBit32(b)
    ensures Meet32(Set32(x, y), b) <==> Meet32(x, b) || Meet32(y, b)
    ensures Meet32(Clear32(x, y), b) <==> Meet32(x, b) && !Meet32(y, b)
    ensures Meet32(x, b) && Meet32(y, b) ==> Meet32(x, y)
  {
    hide Meet32, Set32, Clear32, OneBit32;
    if Meet32(x, b) { SetKeepsBit32(x, y, b); }
    if Meet32(y, b) { SetAddsBit32(x, y, b); }
    if Meet32(Set32(x, y), b) { SetBitComesFrom32(x, y, b); }
    if Meet32(x, b) && !Meet32(y, b) { ClearKeepsBit32(x, y, b); }
    if Meet32(Clear32(x, y), b) { ClearBitComesFrom32(x, y, b); }
    if Meet32(x, b) && Meet32(y, b) { MeetAtBit32(x, y, b); }
  }

  lemma SetKeepsBit64(x: bv64, y: bv64, b: bv64)
    requires Meet64(x, b)
    ensures Meet64(Set64(x, y), b)
  {}

  lemma SetAddsBit64(x: bv64, y: bv64, b: bv64)
    requires Meet64(y, b)
    ensures Meet64(Set64(x, y), b)
  {}

  lemma SetBitComesFrom64(x: bv64, y: bv64, b: bv64)
    requires Meet64(Set64(x, y), b)
    ensures Meet64(x, b) || Meet64(y, b)
  {}

  lemma ClearKeepsBit64(x: bv64, y: bv64, b: bv64)
    requires Meet64(x, b) && !Meet64(y, b)
    ensures Meet64(Clear64(x, y), b)
  {}

  lemma ClearBitComesFrom64(x: bv64, y: bv64, b: bv64)
    requires OneBit64(b) && Meet64(Clear64(x, y), b)
    ensures Meet64(x, b) && !Meet64(y, b)
  {}

  lemma LowestBit64(x: bv64) returns (b: bv64)
    requires x != 0
    ensures OneBit64(b) && x & b != 0
  {
    b := x & (0 - x);
  }

  /** Two masks meet exactly when they share a bit. */
  lemma SharedBit64(x: bv64, y: bv64) returns (b: bv64)
    requires Meet64(x, y)
    ensures OneBit64(b) && Meet64(x, b) && Meet64(y, b)
  {
    b := LowestBit64(x & y);
    CommonBit64(x, y, b);
  }

  lemma CommonBit64(x: bv64, y: bv64, b: bv64)
    requires x & y & b != 0
    ensures Meet64(x, b) && Meet64(y, b)
  {}

  lemma MeetAtBit64(x: bv64, y: bv64, b: bv64)
    requires OneBit64(b) && Meet64(x, b) && Meet64(y, b)
    ensures Meet64(x, y)
  {}

  lemma BitOps64(x: bv64, y: bv64, b: bv64)
    requires OneBit64(b)
    ensures Meet64(Set64(x, y), b) <==> Meet64(x, b) || Meet64(y, b)
    ensures Meet64(Clear64(x, y), b) <==> Meet64(x, b) && !Meet64(y, b)
    ensures Meet64(x, b) && Meet64(y, b) ==> Meet64(x, y)
  {
    hide Meet64, Set64, Clear64, OneBit64;
    if Meet64(x, b) { SetKeepsBit64(x, y, b); }
    if Meet64(y, b) { SetAddsBit64(x, y, b); }
    if Meet64(Set64(x, y), b) { SetBitComesFrom64(x, y, b); }
    if Meet64(x, b) && !Meet64(y, b) { ClearKeepsBit64(x, y, b); }
    if Meet64(Clear64(x, y), b) { ClearBitComesFrom64(x, y, b); }
    if Meet64(x, b) && Meet64(y, b) { MeetAtBit64(x, y, b); }
  }
}
