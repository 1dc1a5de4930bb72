/** util/bit_array.h: an array of bits packed eight to a byte, most significant bit first. */
module BitArray {

  /** The mask the source builds for an offset inside a byte. */
  function Mask(offset: nat): bv8
    requires offset < 8
  {
    1 << (7 - offset)
  }

  predicate TestByte(b: bv8, offset: nat)
    requires offset < 8
  {
    (b >> (7 - offset)) & 1 == 1
  }

  function SetByte(b: bv8, offset: nat): bv8
    requires offset < 8
  {
    b | Mask(offset)
  }

  function ClearByte(b: bv8, offset: nat): bv8
    requires offset < 8
  {
    b & !Mask(offset)
  }

  lemma OffsetCases(o: nat)
    requires o < 8
    ensures o == 0 || o == 1 || o == 2 || o == 3 || o == 4 || o == 5 || o == 6 || o == 7
  {
  }

  /** Setting one bit leaves the seven others. */
  lemma SetLaw(b: bv8, offset: nat, other: nat)
    requires offset < 8 && other < 8
    ensures TestByte(SetByte(b, offset), other) == (offset == other || TestByte(b, other))
  {
    OffsetCases(offset);
    OffsetCases(other);
  }

  /** Clearing one bit leaves the seven others. */
  lemma ClearLaw(b: bv8, offset: nat, other: nat)
    requires offset < 8 && other < 8
    ensures TestByte(ClearByte(b, offset), other) == (offset != other && TestByte(b, other))
  {
    OffsetCases(offset);
    OffsetCases(other);
  }

  /** Setting forgets an earlier clear, and clearing a bit that is clear changes nothing. */
  lemma SetClearLaw(b: bv8, offset: nat)
    requires offset < 8
    ensures SetByte(ClearByte(b, offset), offset) == SetByte(b, offset)
    ensures !TestByte(b, offset) ==> ClearByte(b, offset) == b
  {
    OffsetCases(offset);
  }

  /** Bit pos of a buffer: byte pos / 8, offset pos % 8. */
  predicate BitOf(bytes: seq<bv8>, pos: nat)
    requires pos / 8 < |bytes|
  {
    TestByte(bytes[pos / 8], pos % 8)
  }

  lemma SamePosition(p: nat, q: nat)
    ensures p == q <==> p / 8 == q / 8 && p % 8 == q % 8
  {
  }

  /** Writing one byte changes the bits of that byte only. */
  lemma BitAfterWrite(bytes: seq<bv8>, idx: nat, b: bv8, pos: nat)
    requires idx < |bytes| && pos / 8 < |bytes|
    ensures BitOf(bytes[idx := b], pos) == if pos / 8 == idx then TestByte(b, pos % 8) else BitOf(bytes, pos)
  {
  }

  /** Writing bit pos of a buffer changes that bit only. */
  lemma SetOne(bytes: seq<bv8>, pos: nat, q: nat)
    requires pos / 8 < |bytes| && q / 8 < |bytes|
    ensures BitOf(bytes[pos / 8 := SetByte(bytes[pos / 8], pos % 8)], q) == (q == pos || BitOf(bytes, q))
    ensures BitOf(bytes[pos / 8 := ClearByte(bytes[pos / 8], pos % 8)], q) == (q != pos && BitOf(bytes, q))
  {
    SetLaw(bytes[pos / 8], pos % 8, q % 8);
    ClearLaw(bytes[pos / 8], pos % 8, q % 8);
    SamePosition(pos, q);
    hide TestByte, SetByte, ClearByte;
  }

  /** x >> k */
  function Shr(x: nat, k: nat): nat {
    if k == 0 then x else Shr(x / 2, k - 1)
  }

  /** a & b, bit by bit. */
  function And(a: nat, b: nat): nat
    decreases a + b
  {
    if a + b == 0 then 0 else 2 * And(a / 2, b / 2) + if a % 2 == 1 && b % 2 == 1 then 1 else 0
  }

  lemma {:induction false} AndZero(a: nat)
    ensures And(a, 0) == 0
  {
    if a > 0 {
      AndZero(a / 2);
    }
  }

  /** The shift and the mask that get_position uses are division and remainder by eight. */
  lemma PositionIsDivMod(pos: nat)
    ensures Shr(pos, 3) == pos / 8 && And(pos, 7) == pos % 8
  {
    var x, y := pos / 2, pos / 4;
    assert Shr(pos, 3) == Shr(x, 2) == Shr(x / 2, 1) == x / 2 / 2;
    AndZero(pos / 8);
    assert And(y, 1) == y % 2;
    assert And(x, 3) == 2 * And(y, 1) + x % 2;
    assert And(pos, 7) == 2 * And(x, 3) + pos % 2;
  }

  class BitArray {
    var bitsBuf: array<bv8>
    var powOfTwo: nat
    var offsetMask: nat
    var alignLen: nat
    var bufLen: nat

    ghost predicate Valid()
      reads this
    {
      powOfTwo == 3 && offsetMask == 7 && alignLen == 7 && bitsBuf.Length == bufLen / 8 + 1
    }

    /** The value of every bit in range. */
    ghost function Bits(): seq<bool>
      reads this, bitsBuf
      requires Valid()
    {
      seq(bufLen, pos requires 0 <= pos < bufLen reads this, bitsBuf requires Valid() => BitOf(bitsBuf[..], pos))
    }

    /** create: every bit is clear, and the shift that addresses bytes is computed by the loop. */
    constructor (len: nat)
      ensures Valid() && fresh(bitsBuf) && bufLen == len
      ensures Bits() == seq(len, _ => false)
    {
      bufLen := len;
      bitsBuf := new bv8[len / 8 + 1](_ => 0);
      offsetMask := 7;
      alignLen := 7;
      new;
      var bitsLen := 8 / 2;
      var pow := 0;
      while bitsLen > 0
        invariant bitsLen in {4, 2, 1, 0}
        invariant bitsLen == 4 ==> pow == 0
        invariant bitsLen == 2 ==> pow == 1
        invariant bitsLen == 1 ==> pow == 2
        invariant bitsLen == 0 ==> pow == 3
      {
        pow := pow + 1;
        bitsLen := bitsLen / 2;
      }
      powOfTwo := pow;
      forall pos | 0 <= pos < len ensures !BitOf(bitsBuf[..], pos) {
        OffsetCases(pos % 8);
        assert bitsBuf[..][pos / 8] == 0;
      }
    }

    method GetPosition(pos: nat) returns (idx: nat, offset: nat)
      requires Valid()
      ensures idx == pos / 8 && offset == pos % 8
    {
      PositionIsDivMod(pos);
      idx := Shr(pos, powOfTwo);
      offset := And(pos, offsetMask);
    }

    /** Out of range reads as clear, whatever the last byte holds. */
    method TestBit(pos: nat) returns (r: bool)
      requires Valid()
      ensures r == (pos < bufLen && Bits()[pos])
    {
      if pos >= bufLen {
        return false;
      }
      var idx, offset := GetPosition(pos);
      var t := bitsBuf[idx];
      t := t >> (alignLen - offset);
      t := t & 1;
      assert bitsBuf[..][idx] == bitsBuf[idx];
      return t == 1;
    }

    /** Exactly bit pos is set, if it is in range. */
    method SetBit(pos: nat) returns (ok: bool)
      requires Valid()
      modifies bitsBuf
      ensures Valid() && ok == (pos < bufLen)
      ensures Bits() == if ok then old(Bits())[pos := true] else old(Bits())
    {
      if pos >= bufLen {
        return false;
      }
      var idx, offset := GetPosition(pos);
      ghost var before := bitsBuf[..];
      bitsBuf[idx] := bitsBuf[idx] | Mask(offset);
      assert bitsBuf[..] == before[idx := SetByte(before[idx], offset)];
      hide BitOf, SetByte, ClearByte;
      forall q | 0 <= q < bufLen ensures BitOf(bitsBuf[..], q) == (q == pos || BitOf(before, q)) {
        SetOne(before, pos, q);
      }
      return true;
    }

    /** Exactly bit pos is cleared, if it is in range. */
    method ClearBit(pos: nat) returns (ok: bool)
      requires Valid()
      modifies bitsBuf
      ensures Valid() && ok == (pos < bufLen)
      ensures Bits() == if ok then old(Bits())[pos := false] else old(Bits())
    {
      if pos >= bufLen {
        return false;
      }
      var idx, offset := GetPosition(pos);
      ghost var before := bitsBuf[..];
      bitsBuf[idx] := bitsBuf[idx] & !Mask(offset);
      assert bitsBuf[..] == before[idx := ClearByte(before[idx], offset)];
      hide BitOf, SetByte, ClearByte;
      forall q | 0 <= q < bufLen ensures BitOf(bitsBuf[..], q) == (q != pos && BitOf(before, q)) {
        SetOne(before, pos, q);
      }
      return true;
    }
  }
}
