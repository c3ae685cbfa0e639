/**
 The bit-level codes of client/e2e/support/syntheticCaptionStream.ts: the CRC of a section (Annex A
 of ISO/IEC 13818-1) and the 33-bit time stamp of a PES packet (section 2.4.3.7).
 */
module TransportBits {
  type Bytes = seq<bv8>

  function ShiftBit(crc: bv32): bv32 {
    if crc & 0x80000000 != 0 then (crc << 1) ^ 0x04c11db7 else crc << 1
  }

  function ShiftBits(crc: bv32, n: nat): bv32 {
    if n == 0 then crc else ShiftBit(ShiftBits(crc, n - 1))
  }

  function Enter(crc: bv32, byte: bv8): bv32 {
    ShiftBits(crc ^ (byte as bv32 << 24), 8)
  }

  /** The register after the bytes, starting from the given one. */
  function Register(crc: bv32, bytes: Bytes): bv32 {
    if bytes == [] then crc else Enter(Register(crc, bytes[..|bytes| - 1]), bytes[|bytes| - 1])
  }

  function Crc(bytes: Bytes): bv32 {
    Register(0xffffffff, bytes)
  }

  method EnterByte(crc: bv32, byte: bv8) returns (next: bv32)
    ensures next == Enter(crc, byte)
  {
    next := crc ^ (byte as bv32 << 24);
    ghost var start := next;
    for bit := 0 to 8
      invariant next == ShiftBits(start, bit)
    {
      next := ShiftOne(next);
    }
  }

  method ShiftOne(crc: bv32) returns (next: bv32)
    ensures next == ShiftBit(crc)
  {
    next := if crc & 0x80000000 != 0 then (crc << 1) ^ 0x04c11db7 else crc << 1;
  }

  method Crc32Mpeg2(bytes: Bytes) returns (crc: bv32)
    ensures crc == Crc(bytes)
  {
    crc := 0xffffffff;
    for i := 0 to |bytes|
      invariant crc == Register(0xffffffff, bytes[..i])
    {
      crc := EnterByte(crc, bytes[i]);
      assert bytes[..i + 1][..i] == bytes[..i];
    }
    assert bytes[..|bytes|] == bytes;
  }

  function BigEndian(crc: bv32): (code: Bytes)
    ensures |code| == 4
  {
    [(crc >> 24) as bv8, ((crc >> 16) & 0xff) as bv8, ((crc >> 8) & 0xff) as bv8, (crc & 0xff) as bv8]
  }

  lemma {:induction false} RegisterConcat(crc: bv32, a: Bytes, b: Bytes)
    ensures Register(crc, a + b) == Register(Register(crc, a), b)
  {
    if b == [] {
      assert a + b == a;
    } else {
      assert (a + b)[..|a + b| - 1] == a + b[..|b| - 1];
      RegisterConcat(crc, a, b[..|b| - 1]);
    }
  }

  /** A register whose upper byte is clear only moves up. */
  lemma ClearByteMovesUp(crc: bv32)
    requires crc & 0xff000000 == 0
    ensures ShiftBits(crc, 8) == crc << 8
  {
    assert ShiftBits(crc, 1) == crc << 1;
    assert ShiftBits(crc, 2) == crc << 2;
    assert ShiftBits(crc, 3) == crc << 3;
    assert ShiftBits(crc, 4) == crc << 4;
    assert ShiftBits(crc, 5) == crc << 5;
    assert ShiftBits(crc, 6) == crc << 6;
    assert ShiftBits(crc, 7) == crc << 7;
  }

  lemma UpperByteClears(crc: bv32)
    ensures (crc ^ ((crc >> 24) as bv8 as bv32 << 24)) & 0xff000000 == 0
    ensures (crc ^ ((crc >> 24) as bv8 as bv32 << 24)) << 8 == crc << 8
  {
  }

  lemma UpperByteCancels(crc: bv32)
    ensures Enter(crc, (crc >> 24) as bv8) == crc << 8
  {
    UpperByteClears(crc);
    ClearByteMovesUp(crc ^ ((crc >> 24) as bv8 as bv32 << 24));
  }

  lemma {:induction false} FourBytes(crc: bv32, code: Bytes, a: bv32, b: bv32, c: bv32)
    requires |code| == 4
    requires Enter(crc, code[0]) == a && Enter(a, code[1]) == b && Enter(b, code[2]) == c
    ensures Register(crc, code) == Enter(c, code[3])
  {
    assert code[..3][..2] == code[..2] && code[..2][..1] == code[..1] && code[..1][..0] == [];
    assert Register(crc, code[..0]) == crc;
    assert Register(crc, code[..1]) == a;
    assert Register(crc, code[..2]) == b;
    assert Register(crc, code[..3]) == c;
  }

  lemma SecondByte(crc: bv32)
    ensures ((crc >> 16) & 0xff) as bv8 == ((crc << 8) >> 24) as bv8 && (crc << 8) << 8 == crc << 16
  {
  }

  lemma ThirdByte(crc: bv32)
    ensures ((crc >> 8) & 0xff) as bv8 == ((crc << 16) >> 24) as bv8 && (crc << 16) << 8 == crc << 24
  {
  }

  lemma FourthByte(crc: bv32)
    ensures (crc & 0xff) as bv8 == ((crc << 24) >> 24) as bv8 && (crc << 24) << 8 == 0
  {
  }

  lemma SecondCancels(crc: bv32)
    ensures Enter(crc << 8, ((crc >> 16) & 0xff) as bv8) == crc << 16
  {
    var upper := ((crc << 8) >> 24) as bv8;
    assert Enter(crc << 8, upper) == (crc << 8) << 8 by { UpperByteCancels(crc << 8); }
    SecondByte(crc);
  }

  lemma ThirdCancels(crc: bv32)
    ensures Enter(crc << 16, ((crc >> 8) & 0xff) as bv8) == crc << 24
  {
    ThirdByte(crc);
    UpperByteCancels(crc << 16);
  }

  lemma FourthCancels(crc: bv32)
    ensures Enter(crc << 24, (crc & 0xff) as bv8) == 0
  {
    FourthByte(crc);
    UpperByteCancels(crc << 24);
  }

  lemma OwnBytesClear(crc: bv32)
    ensures Register(crc, BigEndian(crc)) == 0
  {
    UpperByteCancels(crc);
    SecondCancels(crc);
    ThirdCancels(crc);
    FourthCancels(crc);
    FourBytes(crc, BigEndian(crc), crc << 8, crc << 16, crc << 24);
  }

  /** Data followed by its own CRC leaves the register at zero. */
  lemma ResidueIsZero(bytes: Bytes)
    ensures Crc(bytes + BigEndian(Crc(bytes))) == 0
  {
    RegisterConcat(0xffffffff, bytes, BigEndian(Crc(bytes)));
    OwnBytesClear(Crc(bytes));
  }

  // Two registers that differ stay different, so no single changed byte goes unnoticed.

  lemma SameAfterXor(x: bv32, y: bv32, z: bv32)
    requires x ^ z == y ^ z
    ensures x == y
  {
  }

  lemma LowBitShows(a: bv32, b: bv32)
    ensures (a << 1) ^ 0x04c11db7 != b << 1
  {
  }

  lemma UpperBitAndRest(a: bv32, b: bv32)
    requires a << 1 == b << 1 && (a & 0x80000000 != 0 <==> b & 0x80000000 != 0)
    ensures a == b
  {
  }

  lemma BothUpper(a: bv32, b: bv32)
    requires a & 0x80000000 != 0 && b & 0x80000000 != 0 && (a << 1) ^ 0x04c11db7 == (b << 1) ^ 0x04c11db7
    ensures a == b
  {
  }

  lemma ShiftBitInjective(a: bv32, b: bv32)
    requires ShiftBit(a) == ShiftBit(b)
    ensures a == b
  {
    if a & 0x80000000 != 0 {
      if b & 0x80000000 != 0 { BothUpper(a, b); } else { LowBitShows(a, b); }
    } else if b & 0x80000000 != 0 {
      LowBitShows(b, a);
    } else {
      UpperBitAndRest(a, b);
    }
  }

  lemma {:induction false} ShiftBitsInjective(a: bv32, b: bv32, n: nat)
    requires ShiftBits(a, n) == ShiftBits(b, n)
    ensures a == b
  {
    if n > 0 {
      ShiftBitInjective(ShiftBits(a, n - 1), ShiftBits(b, n - 1));
      ShiftBitsInjective(a, b, n - 1);
    }
  }

  lemma EnterInjective(a: bv32, b: bv32, byte: bv8)
    requires Enter(a, byte) == Enter(b, byte)
    ensures a == b
  {
    var shifted := byte as bv32 << 24;
    ShiftBitsInjective(a ^ shifted, b ^ shifted, 8);
    SameAfterXor(a, b, shifted);
  }

  lemma ByteShows(crc: bv32, right: bv8, wrong: bv8)
    requires crc ^ (right as bv32 << 24) == crc ^ (wrong as bv32 << 24)
    ensures right == wrong
  {
  }

  lemma EnterShows(crc: bv32, right: bv8, wrong: bv8)
    requires Enter(crc, right) == Enter(crc, wrong)
    ensures right == wrong
  {
    ShiftBitsInjective(crc ^ (right as bv32 << 24), crc ^ (wrong as bv32 << 24), 8);
    ByteShows(crc, right, wrong);
  }

  lemma {:induction false} RegisterInjective(a: bv32, b: bv32, bytes: Bytes)
    requires Register(a, bytes) == Register(b, bytes)
    ensures a == b
  {
    if bytes != [] {
      var last := |bytes| - 1;
      EnterInjective(Register(a, bytes[..last]), Register(b, bytes[..last]), bytes[last]);
      RegisterInjective(a, b, bytes[..last]);
    }
  }

  lemma RegisterAppend(crc: bv32, bytes: Bytes, byte: bv8)
    ensures Register(crc, bytes + [byte]) == Enter(Register(crc, bytes), byte)
  {
    assert (bytes + [byte])[..|bytes|] == bytes;
  }

  /** Data in which one byte differs have different codes, so the residue shows the change. */
  lemma OneByteIsNoticed(before: Bytes, right: bv8, wrong: bv8, after: Bytes)
    requires Crc(before + [right] + after) == Crc(before + [wrong] + after)
    ensures right == wrong
  {
    RegisterConcat(0xffffffff, before + [right], after);
    RegisterConcat(0xffffffff, before + [wrong], after);
    RegisterAppend(0xffffffff, before, right);
    RegisterAppend(0xffffffff, before, wrong);
    RegisterInjective(Enter(Crc(before), right), Enter(Crc(before), wrong), after);
    EnterShows(Crc(before), right, wrong);
  }

  lemma ShiftNext(crc: bv32, n: nat)
    ensures ShiftBits(crc, n + 1) == ShiftBit(ShiftBits(crc, n))
  {
  }

  lemma EightShifts(crc: bv32, a: bv32, b: bv32, c: bv32, d: bv32, e: bv32, f: bv32, g: bv32)
    requires ShiftBit(crc) == a && ShiftBit(a) == b && ShiftBit(b) == c && ShiftBit(c) == d
    requires ShiftBit(d) == e && ShiftBit(e) == f && ShiftBit(f) == g
    ensures ShiftBits(crc, 8) == ShiftBit(g)
  {
    ShiftNext(crc, 0);
    ShiftNext(crc, 1);
    ShiftNext(crc, 2);
    ShiftNext(crc, 3);
    ShiftNext(crc, 4);
    ShiftNext(crc, 5);
    ShiftNext(crc, 6);
  }

  lemma Digit1()
    ensures Enter(0xffffffff, 0x31) == 0x9efbcf93
  {
    EightShifts(0xceffffff, 0x993ee249, 0x36bcd925, 0x6d79b24a, 0xdaf36494, 0xb127d49f, 0x668eb489, 0xcd1d6912);
  }

  lemma Digit2()
    ensures Enter(0x9efbcf93, 0x32) == 0x3fec5e6a
  {
    EightShifts(0xacfbcf93, 0x5d368291, 0xba6d0522, 0x701b17f3, 0xe0362fe6, 0xc4ad427b, 0x8d9b9941, 0x1ff62f35);
  }

  lemma Digit3()
    ensures Enter(0x3fec5e6a, 0x33) == 0xd952f164
  {
    EightShifts(0xcec5e6a, 0x19d8bcd4, 0x33b179a8, 0x6762f350, 0xcec5e6a0, 0x994ad0f7, 0x3654bc59, 0x6ca978b2);
  }

  lemma Digit4()
    ensures Enter(0xd952f164, 0x34) == 0xa695c4aa
  {
    EightShifts(0xed52f164, 0xde64ff7f, 0xb808e349, 0x74d0db25, 0xe9a1b64a, 0xd7827123, 0xabc5fff1, 0x534ae255);
  }

  lemma Digit5()
    ensures Enter(0xa695c4aa, 0x35) == 0xbd9ab747
  {
    EightShifts(0x9395c4aa, 0x23ea94e3, 0x47d529c6, 0x8faa538c, 0x1b95baaf, 0x372b755e, 0x6e56eabc, 0xdcadd578);
  }

  lemma Digit6()
    ensures Enter(0xbd9ab747, 0x36) == 0xd8f06c8f
  {
    EightShifts(0x8b9ab747, 0x13f47339, 0x27e8e672, 0x4fd1cce4, 0x9fa399c8, 0x3b862e27, 0x770c5c4e, 0xee18b89c);
  }

  lemma Digit7()
    ensures Enter(0xd8f06c8f, 0x37) == 0xd8a14c4
  {
    EightShifts(0xeff06c8f, 0xdb21c4a9, 0xb28294e5, 0x61c4347d, 0xc38868fa, 0x83d1cc43, 0x3628531, 0x6c50a62);
  }

  lemma Digit8()
    ensures Enter(0xd8a14c4, 0x38) == 0x49e3c2fb
  {
    EightShifts(0x358a14c4, 0x6b142988, 0xd6285310, 0xa891bb97, 0x55e26a99, 0xabc4d532, 0x5348b7d3, 0xa6916fa6);
  }

  lemma Digit9()
    ensures Enter(0x49e3c2fb, 0x39) == 0x376e6e7
  {
    EightShifts(0x70e3c2fb, 0xe1c785f6, 0xc74e165b, 0x8a5d3101, 0x107b7fb5, 0x20f6ff6a, 0x41edfed4, 0x83dbfda8);
  }

  /** The check value of this code, for the digits from one to nine. */
  lemma CheckValue()
    ensures Crc([0x31, 0x32, 0x33, 0x34, 0x35, 0x36, 0x37, 0x38, 0x39]) == 0x0376e6e7
  {
    Digit1();
    Digit2();
    Digit3();
    Digit4();
    Digit5();
    Digit6();
    Digit7();
    Digit8();
    Digit9();
    NineBytes([0x31, 0x32, 0x33, 0x34, 0x35, 0x36, 0x37, 0x38, 0x39],
              [0xffffffff, 0x9efbcf93, 0x3fec5e6a, 0xd952f164, 0xa695c4aa, 0xbd9ab747, 0xd8f06c8f, 0xd8a14c4, 0x49e3c2fb, 0x376e6e7]);
  }

  /** The registers met on the way through nine bytes. */
  lemma NineBytes(bytes: Bytes, registers: seq<bv32>)
    requires |bytes| == 9 && |registers| == 10 && registers[0] == 0xffffffff
    requires forall k :: 0 <= k < 9 ==> Enter(registers[k], bytes[k]) == registers[k + 1]
    ensures Crc(bytes) == registers[9]
  {
    for k := 0 to 9
      invariant Register(0xffffffff, bytes[..k]) == registers[k]
    {
      RegisterNext(bytes, k);
    }
    assert bytes[..9] == bytes;
  }

  lemma RegisterNext(bytes: Bytes, i: nat)
    requires i < |bytes|
    ensures Register(0xffffffff, bytes[..i + 1]) == Enter(Register(0xffffffff, bytes[..i]), bytes[i])
  {
    assert bytes[..i + 1][..i] == bytes[..i];
  }

  // Time stamps

  function ReadPts(b0: bv8, b1: bv8, b2: bv8, b3: bv8, b4: bv8): bv64 {
    (((b0 >> 1) & 7) as bv64 << 30) + (b1 as bv64 << 22) + ((b2 >> 1) as bv64 << 15) + (b3 as bv64 << 7) + (b4 >> 1) as bv64
  }

  function WritePts(pts: bv64): (bytes: Bytes)
    ensures |bytes| == 5
  {
    var high := (pts >> 30) & 7;
    var low := pts & 0x3fffffff;
    [((0x21 | (high << 1)) & 0xff) as bv8,
     ((low >> 22) & 0xff) as bv8,
     ((0x01 | (((low >> 15) & 0x7f) << 1)) & 0xff) as bv8,
     ((low >> 7) & 0xff) as bv8,
     ((0x01 | ((low & 0x7f) << 1)) & 0xff) as bv8]
  }

  /** What is read back is the value modulo 2^33. */
  lemma ReadUndoesWrite(pts: bv64)
    ensures var b := WritePts(pts); ReadPts(b[0], b[1], b[2], b[3], b[4]) == pts & 0x1ffffffff
  {
  }

  /** Writing what was read gives the same bytes exactly if the marker bits are those that writing sets. */
  lemma WriteUndoesRead(b0: bv8, b1: bv8, b2: bv8, b3: bv8, b4: bv8)
    ensures WritePts(ReadPts(b0, b1, b2, b3, b4)) == [b0, b1, b2, b3, b4]
       <==> b0 & 0xf1 == 0x21 && b2 & 1 == 1 && b4 & 1 == 1
  {
  }

  /** Bits 32 to 30, 29 to 22, 21 to 15, 14 to 7 and 6 to 0 stand in the five bytes, above a marker bit in the odd ones. */
  lemma PtsLayout(pts: bv64)
    ensures var b := WritePts(pts);
      && b[0] as bv64 == 0x21 | (((pts >> 30) & 0x7) << 1)
      && b[1] as bv64 == (pts >> 22) & 0xff
      && b[2] as bv64 == 0x01 | (((pts >> 15) & 0x7f) << 1)
      && b[3] as bv64 == (pts >> 7) & 0xff
      && b[4] as bv64 == 0x01 | ((pts & 0x7f) << 1)
  {
  }
}
