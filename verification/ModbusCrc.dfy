/** The CRC-16 of Modbus RTU frames: the table-driven implementation computes the bitwise
    shift-register CRC of the MODBUS over Serial Line specification (V1.02, section 6.2.2), and a
    frame passes the receiver's residue test exactly when it ends in its own CRC, low byte first. */
module ModbusCrc {
  import opened ShiftRegister

  // ----- The lookup table, sixteen rows of sixteen entries -----

  const ROW_0: seq<bv16> := [
    0x0000, 0xC0C1, 0xC181, 0x0140, 0xC301, 0x03C0, 0x0280, 0xC241,
    0xC601, 0x06C0, 0x0780, 0xC741, 0x0500, 0xC5C1, 0xC481, 0x0440]
  const ROW_1: seq<bv16> := [
    0xCC01, 0x0CC0, 0x0D80, 0xCD41, 0x0F00, 0xCFC1, 0xCE81, 0x0E40,
    0x0A00, 0xCAC1, 0xCB81, 0x0B40, 0xC901, 0x09C0, 0x0880, 0xC841]
  const ROW_2: seq<bv16> := [
    0xD801, 0x18C0, 0x1980, 0xD941, 0x1B00, 0xDBC1, 0xDA81, 0x1A40,
    0x1E00, 0xDEC1, 0xDF81, 0x1F40, 0xDD01, 0x1DC0, 0x1C80, 0xDC41]
  const ROW_3: seq<bv16> := [
    0x1400, 0xD4C1, 0xD581, 0x1540, 0xD701, 0x17C0, 0x1680, 0xD641,
    0xD201, 0x12C0, 0x1380, 0xD341, 0x1100, 0xD1C1, 0xD081, 0x1040]
  const ROW_4: seq<bv16> := [
    0xF001, 0x30C0, 0x3180, 0xF141, 0x3300, 0xF3C1, 0xF281, 0x3240,
    0x3600, 0xF6C1, 0xF781, 0x3740, 0xF501, 0x35C0, 0x3480, 0xF441]
  const ROW_5: seq<bv16> := [
    0x3C00, 0xFCC1, 0xFD81, 0x3D40, 0xFF01, 0x3FC0, 0x3E80, 0xFE41,
    0xFA01, 0x3AC0, 0x3B80, 0xFB41, 0x3900, 0xF9C1, 0xF881, 0x3840]
  const ROW_6: seq<bv16> := [
    0x2800, 0xE8C1, 0xE981, 0x2940, 0xEB01, 0x2BC0, 0x2A80, 0xEA41,
    0xEE01, 0x2EC0, 0x2F80, 0xEF41, 0x2D00, 0xEDC1, 0xEC81, 0x2C40]
  const ROW_7: seq<bv16> := [
    0xE401, 0x24C0, 0x2580, 0xE541, 0x2700, 0xE7C1, 0xE681, 0x2640,
    0x2200, 0xE2C1, 0xE381, 0x2340, 0xE101, 0x21C0, 0x2080, 0xE041]
  const ROW_8: seq<bv16> := [
    0xA001, 0x60C0, 0x6180, 0xA141, 0x6300, 0xA3C1, 0xA281, 0x6240,
    0x6600, 0xA6C1, 0xA781, 0x6740, 0xA501, 0x65C0, 0x6480, 0xA441]
  const ROW_9: seq<bv16> := [
    0x6C00, 0xACC1, 0xAD81, 0x6D40, 0xAF01, 0x6FC0, 0x6E80, 0xAE41,
    0xAA01, 0x6AC0, 0x6B80, 0xAB41, 0x6900, 0xA9C1, 0xA881, 0x6840]
  const ROW_A: seq<bv16> := [
    0x7800, 0xB8C1, 0xB981, 0x7940, 0xBB01, 0x7BC0, 0x7A80, 0xBA41,
    0xBE01, 0x7EC0, 0x7F80, 0xBF41, 0x7D00, 0xBDC1, 0xBC81, 0x7C40]
  const ROW_B: seq<bv16> := [
    0xB401, 0x74C0, 0x7580, 0xB541, 0x7700, 0xB7C1, 0xB681, 0x7640,
    0x7200, 0xB2C1, 0xB381, 0x7340, 0xB101, 0x71C0, 0x7080, 0xB041]
  const ROW_C: seq<bv16> := [
    0x5000, 0x90C1, 0x9181, 0x5140, 0x9301, 0x53C0, 0x5280, 0x9241,
    0x9601, 0x56C0, 0x5780, 0x9741, 0x5500, 0x95C1, 0x9481, 0x5440]
  const ROW_D: seq<bv16> := [
    0x9C01, 0x5CC0, 0x5D80, 0x9D41, 0x5F00, 0x9FC1, 0x9E81, 0x5E40,
    0x5A00, 0x9AC1, 0x9B81, 0x5B40, 0x9901, 0x59C0, 0x5880, 0x9841]
  const ROW_E: seq<bv16> := [
    0x8801, 0x48C0, 0x4980, 0x8941, 0x4B00, 0x8BC1, 0x8A81, 0x4A40,
    0x4E00, 0x8EC1, 0x8F81, 0x4F40, 0x8D01, 0x4DC0, 0x4C80, 0x8C41]
  const ROW_F: seq<bv16> := [
    0x4400, 0x84C1, 0x8581, 0x4540, 0x8701, 0x47C0, 0x4680, 0x8641,
    0x8201, 0x42C0, 0x4380, 0x8341, 0x4100, 0x81C1, 0x8081, 0x4040]

  function Row(h: bv16): seq<bv16>
    requires h < 16
  {
    match h
    case 0 => ROW_0
    case 1 => ROW_1
    case 2 => ROW_2
    case 3 => ROW_3
    case 4 => ROW_4
    case 5 => ROW_5
    case 6 => ROW_6
    case 7 => ROW_7
    case 8 => ROW_8
    case 9 => ROW_9
    case 10 => ROW_A
    case 11 => ROW_B
    case 12 => ROW_C
    case 13 => ROW_D
    case 14 => ROW_E
    case _ => ROW_F
  }

  // ----- The bitwise definition -----

  /** One right shift of the register; a one shifted out folds in the reflected polynomial. */
  function Shift(crc: bv16): bv16 {
    if crc & 1 == 1 then (crc >> 1) ^ 0xA001 else crc >> 1
  }

  function Shift8(crc: bv16): bv16 {
    Shift(Shift(Shift(Shift(Shift(Shift(Shift(Shift(crc))))))))
  }

  /** One message byte enters at the low end and is shifted through. */
  function Feed(crc: bv16, b: bv8): bv16 {
    Shift8(Xor(crc, b as bv16))
  }

  /** The bitwise CRC of `data`, from register contents `init`. */
  function Crc(init: bv16, data: seq<bv8>): bv16 {
    Fold(Feed, init, data)
  }

  // ----- The table holds eight bitwise steps -----

  /** The values of `f` at `x` with its low four bits running through 0..15. */
  ghost function Sixteen(f: bv16 -> bv16, x: bv16): seq<bv16> {
    [f(x), f(x ^ 1), f(x ^ 2), f(x ^ 3), f(x ^ 4), f(x ^ 5), f(x ^ 6), f(x ^ 7),
     f(x ^ 8), f(x ^ 9), f(x ^ 10), f(x ^ 11), f(x ^ 12), f(x ^ 13), f(x ^ 14), f(x ^ 15)]
  }

  lemma Row0() ensures ROW_0 == Sixteen(Shift8, 0x00) {}
  lemma Row1() ensures ROW_1 == Sixteen(Shift8, 0x10) {}
  lemma Row2() ensures ROW_2 == Sixteen(Shift8, 0x20) {}
  lemma Row3() ensures ROW_3 == Sixteen(Shift8, 0x30) {}
  lemma Row4() ensures ROW_4 == Sixteen(Shift8, 0x40) {}
  lemma Row5() ensures ROW_5 == Sixteen(Shift8, 0x50) {}
  lemma Row6() ensures ROW_6 == Sixteen(Shift8, 0x60) {}
  lemma Row7() ensures ROW_7 == Sixteen(Shift8, 0x70) {}
  lemma Row8() ensures ROW_8 == Sixteen(Shift8, 0x80) {}
  lemma Row9() ensures ROW_9 == Sixteen(Shift8, 0x90) {}
  lemma RowA() ensures ROW_A == Sixteen(Shift8, 0xA0) {}
  lemma RowB() ensures ROW_B == Sixteen(Shift8, 0xB0) {}
  lemma RowC() ensures ROW_C == Sixteen(Shift8, 0xC0) {}
  lemma RowD() ensures ROW_D == Sixteen(Shift8, 0xD0) {}
  lemma RowE() ensures ROW_E == Sixteen(Shift8, 0xE0) {}
  lemma RowF() ensures ROW_F == Sixteen(Shift8, 0xF0) {}

  lemma TableRow(h: bv16)
    requires h < 16
    ensures Row(h) == Sixteen(Shift8, h << 4)
  {
    if h == 0 { Row0(); assert h << 4 == 0x00; }
    else if h == 1 { Row1(); assert h << 4 == 0x10; }
    else if h == 2 { Row2(); assert h << 4 == 0x20; }
    else if h == 3 { Row3(); assert h << 4 == 0x30; }
    else if h == 4 { Row4(); assert h << 4 == 0x40; }
    else if h == 5 { Row5(); assert h << 4 == 0x50; }
    else if h == 6 { Row6(); assert h << 4 == 0x60; }
    else if h == 7 { Row7(); assert h << 4 == 0x70; }
    else if h == 8 { Row8(); assert h << 4 == 0x80; }
    else if h == 9 { Row9(); assert h << 4 == 0x90; }
    else if h == 10 { RowA(); assert h << 4 == 0xA0; }
    else if h == 11 { RowB(); assert h << 4 == 0xB0; }
    else if h == 12 { RowC(); assert h << 4 == 0xC0; }
    else if h == 13 { RowD(); assert h << 4 == 0xD0; }
    else if h == 14 { RowE(); assert h << 4 == 0xE0; }
    else if h == 15 { RowF(); assert h << 4 == 0xF0; }
  }

  lemma SixteenAt(f: bv16 -> bv16, x: bv16, h: bv16)
    requires h < 16
    ensures Sixteen(f, x)[h as int] == f(x ^ h)
  {
    if h == 0 {} else if h == 1 {} else if h == 2 {} else if h == 3 {} else if h == 4 {} else if h == 5 {} else if h == 6 {} else if h == 7 {} else if h == 8 {} else if h == 9 {} else if h == 10 {} else if h == 11 {} else if h == 12 {} else if h == 13 {} else if h == 14 {} else if h == 15 {}
  }

  function Lookup(idx: bv16): (r: bv16)
    requires idx < 256
  {
    Row(idx >> 4)[(idx & 0xF) as int]
  }

  lemma LookupIsShift8(idx: bv16)
    requires idx < 256
    ensures Lookup(idx) == Shift8(idx)
  {
    TableRow(idx >> 4);
    SixteenAt(Shift8, (idx >> 4) << 4, idx & 0xF);
    assert ((idx >> 4) << 4) ^ (idx & 0xF) == idx;
  }

  // ----- One table step is eight bitwise steps -----

  lemma ShiftLinear(a: bv16, b: bv16)
    ensures Shift(a ^ b) == Shift(a) ^ Shift(b)
  {
    if a & 1 == 1 {
      if b & 1 == 1 {} else {}
    } else {
      if b & 1 == 1 {} else {}
    }
  }

  lemma ShiftIsLinear()
    ensures Linear(Shift)
  {
    forall a, b ensures Shift(Xor(a, b)) == Xor(Shift(a), Shift(b)) {
      ShiftLinear(a, b);
    }
  }

  lemma Shift8IsIter(x: bv16)
    ensures Shift8(x) == Iter(Shift, 8, x)
  {
    IterEight(Shift, x);
  }

  /** With no one in the low byte, eight shifts only move the high byte down. */
  lemma Shift8OfHighByte(x: bv16)
    requires x & 0xFF == 0
    ensures Shift8(x) == x >> 8
  {}

  lemma Shift8Split(x: bv16)
    ensures Shift8(x) == Xor(Shift8(x & 0xFF00), Shift8(x & 0xFF))
  {
    ShiftIsLinear();
    IterLinear(Shift, 8, x & 0xFF00, x & 0xFF);
    assert Xor(x & 0xFF00, x & 0xFF) == x;
    Shift8IsIter(x);
    Shift8IsIter(x & 0xFF00);
    Shift8IsIter(x & 0xFF);
  }

  /** The implementation's step: one table lookup per byte. */
  function TableFeed(crc: bv16, b: bv8): bv16 {
    Xor(crc >> 8, Lookup((crc ^ (b as bv16)) & 0xFF))
  }

  lemma HighByteKept(crc: bv16, b: bv8)
    ensures ((crc ^ (b as bv16)) & 0xFF00) >> 8 == crc >> 8
  {}

  lemma Shift8ByTable(x: bv16)
    ensures Shift8(x) == Xor((x & 0xFF00) >> 8, Lookup(x & 0xFF))
  {
    LookupIsShift8(x & 0xFF);
    Shift8Split(x);
    Shift8OfHighByte(x & 0xFF00);
  }

  lemma TableFeedIsFeed(crc: bv16, b: bv8)
    ensures TableFeed(crc, b) == Feed(crc, b)
  {
    Shift8ByTable(crc ^ (b as bv16));
    HighByteKept(crc, b);
  }

  method ModbusCrc16(data: seq<bv8>) returns (crc: bv16)
    ensures crc == Crc(0xFFFF, data)
  {
    crc := 0xFFFF;
    for i := 0 to |data|
      invariant crc == Crc(0xFFFF, data[..i])
    {
      TableFeedIsFeed(crc, data[i]);
      assert data[..i + 1][..i] == data[..i];
      crc := TableFeed(crc, data[i]);
    }
    assert data[..|data|] == data;
  }

  // ----- The receiver's residue test -----

  lemma ShiftLosslessAt(x: bv16)
    requires Shift(x) == 0
    ensures x == 0
  {
    if x & 1 == 1 {} else {}
  }

  lemma ShiftIsLossless()
    ensures Lossless(Shift)
  {
    forall x | Shift(x) == 0 ensures x == 0 {
      ShiftLosslessAt(x);
    }
  }

  lemma Shift8Injective(x: bv16, y: bv16)
    requires Shift8(x) == Shift8(y)
    ensures x == y
  {
    ShiftIsLinear();
    ShiftIsLossless();
    Shift8IsIter(x);
    Shift8IsIter(y);
    IterInjective(Shift, 8, x, y);
  }

  /** Two more bytes empty the register exactly when they are its own low and high byte. */
  lemma TwoBytesToZero(crc: bv16, lo: bv8, hi: bv8)
    ensures Feed(Feed(crc, lo), hi) == 0 <==> lo as bv16 == crc & 0xFF && hi as bv16 == crc >> 8
  {
    TopByte(crc, lo, hi);
    ShiftedTwiceToZero(Xor(crc, lo as bv16), (hi as bv16) << 8, hi);
    FedTwice(crc, lo, hi);
  }

  lemma FedTwice(crc: bv16, lo: bv8, hi: bv8)
    ensures Feed(Feed(crc, lo), hi) == Twice(Shift8, Xor(crc, lo as bv16), hi as bv16)
  {
  }

  function Twice(s: bv16 -> bv16, x: bv16, h: bv16): bv16 {
    s(Xor(s(x), h))
  }

  lemma ShiftedTwiceToZero(x: bv16, y: bv16, hi: bv8)
    requires y & 0xFF == 0 && y >> 8 == hi as bv16
    ensures Twice(Shift8, x, hi as bv16) == 0 <==> x == y
  {
    Shift8OfHighByte(y);
    Shift8IsInjective();
    ShiftedTwice(Shift8, x, y, hi as bv16);
  }

  ghost predicate Injective(s: bv16 -> bv16) {
    s(0) == 0 && forall a, b :: s(a) == s(b) ==> a == b
  }

  lemma Shift8IsInjective()
    ensures Injective(Shift8)
  {
    forall a, b | Shift8(a) == Shift8(b) ensures a == b {
      Shift8Injective(a, b);
    }
  }

  lemma ShiftedTwice(s: bv16 -> bv16, x: bv16, y: bv16, h: bv16)
    requires Injective(s) && s(y) == h
    ensures Twice(s, x, h) == 0 <==> x == y
  {
    XorZero(s(x), h);
    assert s(Xor(s(x), h)) == s(0) <==> Xor(s(x), h) == 0;
  }

  lemma TopByte(crc: bv16, lo: bv8, hi: bv8)
    ensures Xor(crc, lo as bv16) == (hi as bv16) << 8 <==> lo as bv16 == crc & 0xFF && hi as bv16 == crc >> 8
    ensures ((hi as bv16) << 8) >> 8 == hi as bv16 && ((hi as bv16) << 8) & 0xFF == 0
  {}

  /** A received frame has CRC 0 if and only if it ends in the CRC of what precedes, low byte first. */
  lemma ResidueTest(init: bv16, data: seq<bv8>, lo: bv8, hi: bv8)
    ensures Crc(init, data + [lo, hi]) == 0
       <==> lo as bv16 == Crc(init, data) & 0xFF && hi as bv16 == Crc(init, data) >> 8
  {
    FoldTwo(Feed, init, data, lo, hi);
    TwoBytesToZero(Crc(init, data), lo, hi);
  }
}
