/** Modbus protocol data units: big-endian words, the request builders and the response parser. */
module ModbusPdu {
  import opened Bytes

  const PDU_DATA := 252
  const MAX_READ_REGISTERS := 125
  const MAX_WRITE_REGISTERS := 123
  const MAX_READ_BITS := 2000

  const READ_COILS: bv8 := 0x01
  const READ_DISCRETE_INPUTS: bv8 := 0x02
  const READ_HOLDING_REGISTERS: bv8 := 0x03
  const READ_INPUT_REGISTERS: bv8 := 0x04
  const WRITE_SINGLE_COIL: bv8 := 0x05
  const WRITE_SINGLE_REGISTER: bv8 := 0x06
  const WRITE_MULTIPLE_REGISTERS: bv8 := 0x10

  /** Register values, addresses and quantities: unsigned 16-bit. */
  newtype Word = x: int | 0 <= x < 0x1_0000

  function High(v: Word): bv8 {
    Byte(v as int / 256)
  }

  function Low(v: Word): bv8 {
    Byte(v as int % 256)
  }

  /** The big-endian word of two bytes. */
  function Join(high: bv8, low: bv8): Word {
    (high as int * 256 + low as int) as Word
  }

  lemma WordOfBytes(v: Word)
    ensures Join(High(v), Low(v)) == v
  {
    ByteValue(v as int / 256);
    ByteValue(v as int % 256);
  }

  lemma BytesOfWord(high: bv8, low: bv8)
    ensures High(Join(high, low)) == high && Low(Join(high, low)) == low
  {
    ValueByte(high);
    ValueByte(low);
    assert Join(high, low) as int / 256 == high as int;
    assert Join(high, low) as int % 256 == low as int;
  }

  function Get16(d: seq<bv8>, at: nat): Word
    requires at + 1 < |d|
  {
    Join(d[at], d[at + 1])
  }

  function Put16(d: seq<bv8>, at: nat, v: Word): (r: seq<bv8>)
    requires at + 1 < |d|
    ensures |r| == |d|
  {
    d[at := High(v)][at + 1 := Low(v)]
  }

  /** Consecutive words from an offset. */
  function GetAll(d: seq<bv8>, at: nat, n: nat): (vs: seq<Word>)
    requires at + 2 * n <= |d|
    ensures |vs| == n
  {
    seq(n, i requires 0 <= i < n => Get16(d, at + 2 * i))
  }

  function PutAll(d: seq<bv8>, at: nat, vs: seq<Word>): (r: seq<bv8>)
    requires at + 2 * |vs| <= |d|
    ensures |r| == |d|
  {
    if vs == [] then d
    else Put16(PutAll(d, at, vs[..|vs| - 1]), at + 2 * (|vs| - 1), vs[|vs| - 1])
  }

  lemma PutNext(d: seq<bv8>, at: nat, vs: seq<Word>, i: nat)
    requires i < |vs| && at + 2 * |vs| <= |d|
    ensures PutAll(d, at, vs[..i + 1]) == Put16(PutAll(d, at, vs[..i]), at + 2 * i, vs[i])
  {
    assert vs[..i + 1][..i] == vs[..i];
  }

  /** Writing words touches only their own bytes. */
  lemma {:induction false} PutAllFrame(d: seq<bv8>, at: nat, vs: seq<Word>, k: nat)
    requires at + 2 * |vs| <= |d| && k < |d| && (k < at || at + 2 * |vs| <= k)
    ensures PutAll(d, at, vs)[k] == d[k]
  {
    if vs != [] {
      PutAllFrame(d, at, vs[..|vs| - 1], k);
    }
  }

  lemma {:induction false} PutAllAt(d: seq<bv8>, at: nat, vs: seq<Word>, i: nat)
    requires at + 2 * |vs| <= |d| && i < |vs|
    ensures Get16(PutAll(d, at, vs), at + 2 * i) == vs[i]
  {
    var n := |vs| - 1;
    if i == n {
      WordOfBytes(vs[n]);
    } else {
      PutAllAt(d, at, vs[..n], i);
    }
  }

  /** Words written at an offset are read back from it. */
  lemma PutThenGet(d: seq<bv8>, at: nat, vs: seq<Word>)
    requires at + 2 * |vs| <= |d|
    ensures GetAll(PutAll(d, at, vs), at, |vs|) == vs
  {
    forall i | 0 <= i < |vs| ensures GetAll(PutAll(d, at, vs), at, |vs|)[i] == vs[i] {
      PutAllAt(d, at, vs, i);
    }
  }

  /** The data bytes of a read request. */
  function ReadRequest(d: seq<bv8>, start: Word, quantity: Word): seq<bv8>
    requires |d| == PDU_DATA
  {
    Put16(Put16(d, 0, start), 2, quantity)
  }

  /** The data bytes of a write-multiple-registers request. */
  function WriteRequest(d: seq<bv8>, start: Word, vs: seq<Word>): (r: seq<bv8>)
    requires |d| == PDU_DATA && |vs| <= MAX_WRITE_REGISTERS
    ensures |r| == |d|
  {
    PutAll(Put16(Put16(d, 0, start), 2, |vs| as Word)[4 := Byte(2 * |vs|)], 5, vs)
  }

  lemma WordBytes(v: Word)
    ensures High(v) as int == v as int / 256 && Low(v) as int == v as int % 256
  {
    ByteValue(v as int / 256);
    ByteValue(v as int % 256);
  }

  lemma {:induction false} PutAllBytes(d: seq<bv8>, at: nat, vs: seq<Word>, i: nat)
    requires at + 2 * |vs| <= |d| && i < |vs|
    ensures PutAll(d, at, vs)[at + 2 * i] as int == vs[i] as int / 256
    ensures PutAll(d, at, vs)[at + 2 * i + 1] as int == vs[i] as int % 256
  {
    var n := |vs| - 1;
    if i == n {
      WordBytes(vs[n]);
    } else {
      PutAllBytes(d, at, vs[..n], i);
    }
  }

  /** The first five bytes of a write request. */
  function Front(d: seq<bv8>, start: Word, n: nat): (r: seq<bv8>)
    requires |d| == PDU_DATA && n <= MAX_WRITE_REGISTERS
    ensures |r| == |d|
  {
    Put16(Put16(d, 0, start), 2, n as Word)[4 := Byte(2 * n)]
  }

  lemma FrontBytes(d: seq<bv8>, start: Word, n: nat)
    requires |d| == PDU_DATA && n <= MAX_WRITE_REGISTERS
    ensures var r := Front(d, start, n);
            r[0] == High(start) && r[1] == Low(start) && r[2] == High(n as Word) && r[3] == Low(n as Word) && r[4] == Byte(2 * n)
  {
  }

  lemma FrontKept(d: seq<bv8>, start: Word, vs: seq<Word>, k: nat)
    requires |d| == PDU_DATA && |vs| <= MAX_WRITE_REGISTERS && k < 5
    ensures WriteRequest(d, start, vs)[k] == Front(d, start, |vs|)[k]
  {
    PutAllFrame(Front(d, start, |vs|), 5, vs, k);
  }

  /** The bytes of a write request on the wire: address, quantity and byte count, words with the high byte first. */
  lemma WriteRequestHead(d: seq<bv8>, start: Word, vs: seq<Word>)
    requires |d| == PDU_DATA && |vs| <= MAX_WRITE_REGISTERS
    ensures var r := WriteRequest(d, start, vs);
            && r[0] as int == start as int / 256 && r[1] as int == start as int % 256
            && r[2] as int == |vs| / 256 && r[3] as int == |vs| % 256 && r[4] as int == 2 * |vs|
  {
    FrontKept(d, start, vs, 0);
    FrontKept(d, start, vs, 1);
    FrontKept(d, start, vs, 2);
    FrontKept(d, start, vs, 3);
    FrontKept(d, start, vs, 4);
    FrontBytes(d, start, |vs|);
    WordBytes(start);
    WordBytes(|vs| as Word);
    ByteValue(2 * |vs|);
  }

  /** And its values. */
  lemma WriteRequestValue(d: seq<bv8>, start: Word, vs: seq<Word>, i: nat)
    requires |d| == PDU_DATA && i < |vs| <= MAX_WRITE_REGISTERS
    ensures WriteRequest(d, start, vs)[5 + 2 * i] as int == vs[i] as int / 256
    ensures WriteRequest(d, start, vs)[6 + 2 * i] as int == vs[i] as int % 256
  {
    PutAllBytes(Front(d, start, |vs|), 5, vs, i);
  }

  /** A write request is read back as its start address, its quantity and its values in order. */
  lemma WriteRequestRoundTrip(d: seq<bv8>, start: Word, vs: seq<Word>)
    requires |d| == PDU_DATA && |vs| <= MAX_WRITE_REGISTERS
    ensures Get16(WriteRequest(d, start, vs), 0) == start
    ensures Get16(WriteRequest(d, start, vs), 2) as int == |vs|
    ensures WriteRequest(d, start, vs)[4] as int == 2 * |vs|
    ensures GetAll(WriteRequest(d, start, vs), 5, |vs|) == vs
  {
    var front := Put16(Put16(d, 0, start), 2, |vs| as Word)[4 := Byte(2 * |vs|)];
    forall k | 0 <= k < 5 ensures WriteRequest(d, start, vs)[k] == front[k] {
      PutAllFrame(front, 5, vs, k);
    }
    WordOfBytes(start);
    WordOfBytes(|vs| as Word);
    ByteValue(2 * |vs|);
    PutThenGet(front, 5, vs);
  }

  lemma ReadRequestRoundTrip(d: seq<bv8>, start: Word, quantity: Word)
    requires |d| == PDU_DATA
    ensures Get16(ReadRequest(d, start, quantity), 0) == start
    ensures Get16(ReadRequest(d, start, quantity), 2) == quantity
  {
    WordOfBytes(start);
    WordOfBytes(quantity);
  }

  /** Bit `k` of a byte, counted from the low end. */
  predicate Bit(b: bv8, k: nat)
    requires k < 8
  {
    b & Mask(k) != 0
  }

  function Mask(k: nat): bv8
    requires k < 8
  {
    if k == 0 then 1 else if k == 1 then 2 else if k == 2 then 4 else if k == 3 then 8
    else if k == 4 then 16 else if k == 5 then 32 else if k == 6 then 64 else 128
  }

  lemma OrBit(b: bv8, k: nat, j: nat)
    requires k < 8 && j < 8
    ensures Bit(b | Mask(k), j) <==> j == k || Bit(b, j)
  {
    OrMask(b, Mask(k), Mask(j));
    MasksApart(k, j);
  }

  lemma OrMask(b: bv8, m: bv8, n: bv8)
    ensures (b | m) & n == (b & n) | (m & n)
  {
  }

  lemma MasksApart(k: nat, j: nat)
    requires k < 8 && j < 8
    ensures Mask(k) & Mask(j) == if j == k then Mask(k) else 0
    ensures Mask(k) != 0
  {
  }

  /** A data unit: its function code and a fixed buffer, filled in place. */
  class Pdu {
    var functionCode: bv8
    const data: array<bv8>
    var dataLen: nat

    ghost predicate Valid()
      reads this
    {
      data.Length == PDU_DATA
    }

    constructor ()
      ensures Valid() && fresh(data)
    {
      functionCode, dataLen := 0, 0;
      data := new bv8[PDU_DATA](_ => 0);
    }

    method Set16(at: nat, v: Word)
      requires Valid() && at + 1 < PDU_DATA
      modifies data
      ensures data[..] == Put16(old(data[..]), at, v)
    {
      data[at] := High(v);
      data[at + 1] := Low(v);
    }

    /** Zero a stretch of the buffer. */
    method Clear(at: nat, n: nat)
      requires Valid() && at + n <= PDU_DATA
      modifies data
      ensures forall k | 0 <= k < PDU_DATA :: data[k] == if at <= k < at + n then 0 else old(data[k])
    {
      for i := 0 to n
        invariant forall k | 0 <= k < PDU_DATA :: data[k] == if at <= k < at + i then 0 else old(data[k])
      {
        data[at + i] := 0;
      }
    }

    /** Fill the buffer with words from an offset. */
    method SetAll(at: nat, vs: seq<Word>)
      requires Valid() && at + 2 * |vs| <= PDU_DATA
      modifies data
      ensures data[..] == PutAll(old(data[..]), at, vs)
    {
      assert vs[..0] == [];
      for i := 0 to |vs|
        invariant data[..] == PutAll(old(data[..]), at, vs[..i])
      {
        Set16(at + 2 * i, vs[i]);
        PutNext(old(data[..]), at, vs, i);
      }
      assert vs[..|vs|] == vs;
    }

    method BuildReadRequest(code: bv8, start: Word, quantity: Word)
      requires Valid()
      modifies this, data
      ensures functionCode == code && dataLen == 4
      ensures data[..] == ReadRequest(old(data[..]), start, quantity)
    {
      functionCode := code;
      Set16(0, start);
      Set16(2, quantity);
      dataLen := 4;
    }

    method BuildWriteMultipleRegisters(start: Word, vs: seq<Word>) returns (ok: bool)
      requires Valid()
      modifies this, data
      ensures ok <==> |vs| <= MAX_WRITE_REGISTERS
      ensures ok ==> functionCode == WRITE_MULTIPLE_REGISTERS && dataLen == 5 + 2 * |vs|
      ensures ok ==> data[..] == WriteRequest(old(data[..]), start, vs)
      ensures !ok ==> functionCode == old(functionCode) && dataLen == old(dataLen) && data[..] == old(data[..])
    {
      if |vs| > MAX_WRITE_REGISTERS {
        return false;
      }
      functionCode := WRITE_MULTIPLE_REGISTERS;
      Set16(0, start);
      Set16(2, |vs| as Word);
      data[4] := Byte(2 * |vs|);
      SetAll(5, vs);
      dataLen := 5 + 2 * |vs|;
      ok := true;
    }

    predicate IsException()
      reads this
    {
      functionCode & 0x80 != 0
    }

    /** The payload of a read response; refused when the byte count exceeds what was received. */
    method ParseReadResponse() returns (ok: bool, payload: seq<bv8>)
      requires Valid() && dataLen <= PDU_DATA
      ensures ok <==> !IsException() && data[0] as nat + 1 <= dataLen
      ensures ok ==> payload == data[1..1 + data[0] as nat]
    {
      if IsException() {
        return false, [];
      }
      var count := data[0] as nat;
      if count > dataLen - 1 {
        return false, [];
      }
      return true, data[1..1 + count];
    }
  }
}
