/**
 The bit writer and the bit reader. The writer's partial byte and the reader's
 bit cursor are proved against the field lists of `Bits` and the cursors of
 `Cursors`.
 */
module BitStream {
  import opened Bits
  import opened Cursors

  const SCALE_1616 := 65536.0

  /** Nearest integer, halves away from zero. */
  function Round(x: real): int {
    if x >= 0.0 then (x + 0.5).Floor else -((-x + 0.5).Floor)
  }

  /** `b | (bit << p)` for a single bit. */
  function OrBit(b: nat, bit: nat, p: nat): nat {
    if bit == 1 && BitAt(b, p) == 0 then b + Pow2(p) else b
  }

  /** Of the n bits of b, those from j on are zero. */
  ghost predicate Clear(b: nat, n: nat, j: nat) {
    var bits := BitsOf(b, n);
    forall k :: j <= k < n ==> !bits[k]
  }

  lemma {:induction false} OrBitHalf(b: nat, bit: nat, p: nat)
    requires p > 0 && bit < 2
    ensures OrBit(b, bit, p) == 2 * OrBit(b / 2, bit, p - 1) + b % 2
  {
  }

  lemma {:induction false} OrBitLast(b: nat, bit: nat)
    requires b % 2 == 0 && bit < 2
    ensures OrBit(b, bit, 0) == 2 * (b / 2) + bit
  {
    assert Pow2(0) == 1 && BitAt(b, 0) == 0;
  }

  lemma {:induction false} DoubleFits(x: nat, r: nat, n: nat)
    requires n > 0 && x < Pow2(n - 1) && r < 2
    ensures 2 * x + r < Pow2(n)
  {
  }

  lemma {:induction false} BitsOfDouble(x: nat, r: nat, n: nat)
    requires r < 2 && n > 0
    ensures BitsOf(2 * x + r, n) == BitsOf(x, n - 1) + [r == 1]
  {
  }

  lemma {:induction false} ClearHalf(b: nat, n: nat, j: nat)
    requires j < n && Clear(b, n, j)
    ensures b % 2 == 0 && Clear(b / 2, n - 1, j)
  {
    var bits, high := BitsOf(b, n), BitsOf(b / 2, n - 1);
    assert bits == high + [b % 2 == 1];
    assert !bits[n - 1];
    assert forall k :: j <= k < n - 1 ==> high[k] == bits[k];
  }

  /** Or-ing a bit into the first of the clear low bits sets exactly that bit. */
  lemma {:induction false} OrBitSets(b: nat, n: nat, j: nat, bit: nat)
    requires j < n && bit < 2 && b < Pow2(n) && Clear(b, n, j)
    ensures OrBit(b, bit, n - 1 - j) < Pow2(n)
    ensures BitsOf(OrBit(b, bit, n - 1 - j), n) == BitsOf(b, n)[j := bit == 1]
  {
    hide Clear, OrBit, BitsOf, Pow2;
    ClearHalf(b, n, j);
    HalfFits(b, n);
    BitsOfDouble(b / 2, 0, n);
    assert b == 2 * (b / 2) + 0;
    var high := BitsOf(b / 2, n - 1);
    if j < n - 1 {
      var put := OrBit(b / 2, bit, n - 2 - j);
      OrBitSets(b / 2, n - 1, j, bit);
      OrBitHalf(b, bit, n - 1 - j);
      BitsOfDouble(put, 0, n);
      DoubleFits(put, 0, n);
      assert (high + [false])[j := bit == 1] == high[j := bit == 1] + [false];
    } else {
      OrBitLast(b, bit);
      BitsOfDouble(b / 2, bit, n);
      DoubleFits(b / 2, bit, n);
      assert (high + [false])[j := bit == 1] == high + [bit == 1];
    }
  }

  /** Putting a bit into the first free place of a partial byte. */
  lemma {:induction false} BitPut(current: Byte, used: nat, bit: nat)
    requires used < 8 && bit < 2 && Clear(current, 8, used)
    ensures var after := OrBit(current, bit, 7 - used);
            && after < 0x100 && Clear(after, 8, used + 1)
            && BitsOf(after, 8)[..used + 1] == BitsOf(current, 8)[..used] + [bit == 1]
  {
    hide OrBit, BitsOf, Pow2;
    Pow2Values();
    OrBitSets(current, 8, used, bit);
  }

  lemma {:induction false} PaddingOf(bytes: nat, used: nat)
    requires used < 8
    ensures Padding(8 * bytes + used) == if used == 0 then 0 else 8 - used
  {
  }

  /** The bits of a number down to bit i, one longer than those above it. */
  lemma {:induction false} NextPrefix(value: nat, n: nat, i: nat)
    requires i < n
    ensures BitsOf(value, n)[..n - i] == BitsOf(value, n)[..n - 1 - i] + [Shr(value, i) % 2 == 1]
  {
    hide BitsOf, Shr;
    BitsOfAt(value, n, n - 1 - i);
  }

  class BitWriter {
    var buffer: seq<Byte>
    var current: Byte
    var bitIndex: nat
    ghost var fields: seq<Field>

    ghost predicate Valid()
      reads this
    {
      && bitIndex < 8
      && Clear(current, 8, bitIndex)
      && Written() == Encode(fields)
    }

    /** Every bit written so far. */
    ghost function Written(): seq<bool>
      requires bitIndex <= 8
      reads this
    {
      Unpack(buffer) + BitsOf(current, 8)[..bitIndex]
    }

    constructor ()
      ensures Valid() && fields == []
    {
      buffer, current, bitIndex, fields := [], 0, 0, [];
      new;
      BitsOfZero(8);
    }

    /** Moves the partial byte into the buffer. */
    method Flush()
      requires bitIndex <= 8 && Clear(current, 8, bitIndex)
      modifies `buffer, `current, `bitIndex
      ensures bitIndex == 0 && Clear(current, 8, 0)
      ensures Written() == old(Written()) + Zeros(8 - old(bitIndex))
    {
      UnpackConcat(buffer, [current]);
      assert Unpack([current]) == BitsOf(current, 8) + Unpack([]);
      assert BitsOf(current, 8) == BitsOf(current, 8)[..bitIndex] + Zeros(8 - bitIndex);
      buffer, current, bitIndex := buffer + [current], 0, 0;
      BitsOfZero(8);
    }

    /** Puts the next bit, flushing the byte it completes. */
    method PutBit(bit: nat)
      requires bit < 2 && bitIndex < 8 && Clear(current, 8, bitIndex)
      modifies `buffer, `current, `bitIndex
      ensures bitIndex < 8 && Clear(current, 8, bitIndex)
      ensures Written() == old(Written()) + [bit == 1]
    {
      hide Clear, OrBit, BitsOf, Unpack, Pow2;
      BitPut(current, bitIndex, bit);
      ConcatAssoc(Unpack(buffer), BitsOf(current, 8)[..bitIndex], [bit == 1]);
      current := OrBit(current, bit, 7 - bitIndex);
      bitIndex := bitIndex + 1;
      if bitIndex == 8 {
        Flush();
      }
    }

    method WriteBits(value: U32, numBits: nat)
      requires Valid()
      modifies this
      ensures Valid() && fields == old(fields) + [Field(value, Min(numBits, 32))]
      ensures Written() == old(Written()) + BitsOf(value, Min(numBits, 32))
    {
      hide Clear, BitsOf, Shr, Unpack, Encode;
      var n := Min(numBits, 32);
      var i := n;
      assert BitsOf(value, n)[..0] == [];
      while i > 0
        invariant i <= n && bitIndex < 8 && Clear(current, 8, bitIndex)
        invariant Written() == old(Written()) + BitsOf(value, n)[..n - i]
        invariant fields == old(fields)
      {
        i := i - 1;
        NextPrefix(value, n, i);
        ConcatAssoc(old(Written()), BitsOf(value, n)[..n - 1 - i], [Shr(value, i) % 2 == 1]);
        PutBit(Shr(value, i) % 2);
      }
      assert BitsOf(value, n)[..n] == BitsOf(value, n);
      EncodeSnoc(fields, Field(value, n));
      fields := fields + [Field(value, n)];
    }

    method WriteBool(value: bool)
      requires Valid()
      modifies this
      ensures Valid() && fields == old(fields) + [Flag(value)]
    {
      WriteBits(if value then 1 else 0, 1);
    }

    method WriteByte(value: Byte)
      requires Valid()
      modifies this
      ensures Valid() && fields == old(fields) + [Octet(value)]
    {
      WriteBits(value, 8);
    }

    method WriteU16(value: U16)
      requires Valid()
      modifies this
      ensures Valid() && fields == old(fields) + [Int16(value)]
    {
      WriteBits(value, 16);
    }

    /** Two's complement; a wider value keeps its low 32 bits. */
    method WriteI32(value: int)
      requires Valid()
      modifies this
      ensures Valid() && fields == old(fields) + [Int32(value)]
    {
      WriteBits(value % 0x1_0000_0000, 32);
    }

    method WriteFixed1616(value: real)
      requires Valid()
      modifies this
      ensures Valid() && fields == old(fields) + [Fixed1616(value)]
    {
      WriteI32(Round(value * SCALE_1616));
    }

    method WriteChars(text: Text)
      requires Valid()
      modifies this
      ensures Valid() && fields == old(fields) + CharFields(text)
    {
      hide Encode, Unpack, BitsOf, Clear;
      ghost var pre, chars := fields, CharFields(text);
      var i := 0;
      while i < |text|
        invariant i <= |text| && Valid() && fields == pre + chars[..i]
      {
        WriteByte(AsciiOnly(text[i]));
        assert Octet(AsciiOnly(text[i])) == chars[i];
        i := i + 1;
      }
    }

    method WriteString(text: Text)
      requires Valid()
      modifies this
      ensures Valid() && fields == old(fields) + StringFields(text)
    {
      hide Encode, Unpack, BitsOf, Clear;
      WriteU16((|text| + 1) % 0x1_0000);
      WriteChars(text);
      WriteByte(0);
      ConcatAssoc(old(fields), [Int16(|text| + 1)], CharFields(text));
      ConcatAssoc(old(fields), [Int16(|text| + 1)] + CharFields(text), [Field(0, 8)]);
    }

    method WriteBytes(data: seq<Byte>)
      requires Valid()
      modifies this
      ensures Valid() && fields == old(fields) + OctetFields(data)
    {
      hide Encode, Unpack, BitsOf, Clear;
      var i := 0;
      while i < |data|
        invariant i <= |data| && Valid() && fields == old(fields) + OctetFields(data)[..i]
      {
        WriteByte(data[i]);
        i := i + 1;
      }
    }

    /** Zero bits up to the next byte boundary. */
    method Align()
      requires Valid()
      modifies this
      ensures Valid() && bitIndex == 0
      ensures fields == old(fields) + ItemFields(Item.Align, |old(Written())|)
      ensures Written() == old(Written()) + Zeros(Padding(|old(Written())|))
    {
      hide BitsOf, Encode, Unpack, Clear;
      PaddingOf(|buffer|, bitIndex);
      if bitIndex > 0 {
        ghost var p := 8 - bitIndex;
        Flush();
        BitsOfZero(p);
        EncodeSnoc(fields, Field(0, p));
        fields := fields + [Field(0, p)];
      }
    }

    method Bytes() returns (out: seq<Byte>)
      requires Valid()
      modifies this
      ensures Valid() && out == Payload(old(fields))
    {
      ghost var w := Written();
      Align();
      assert Written() == Unpack(buffer);
      UnpackPack(w);
      PackUnpack(Pack(w));
      PackUnpack(buffer);
      out := buffer;
    }

    method BitLength() returns (n: nat)
      requires Valid()
      ensures n == |Written()| == TotalWidth(fields)
    {
      EncodeLength(fields);
      n := |buffer| * 8 + bitIndex;
    }
  }

  function Fixed1616(value: real): Field {
    Int32(Round(value * SCALE_1616))
  }

  /** The scaled value fits 32 bits. */
  predicate Representable(value: real) {
    -0x8000_0000 <= Round(value * SCALE_1616) < 0x8000_0000
  }

  /** What a client reads for a fixed-point value, in units of 1/65536. */
  function ReadBack(value: real): I32 {
    SignExtend(Round(value * SCALE_1616) % 0x1_0000_0000)
  }

  /** Within half a unit of the last place. */
  predicate HalfUnit(raw: int, value: real) {
    -1.0 / 131072.0 <= raw as real / SCALE_1616 - value <= 1.0 / 131072.0
  }

  lemma {:induction false} RoundNear(x: real)
    ensures -0.5 <= Round(x) as real - x <= 0.5
  {
  }

  /** Cutting a number to 32 bits keeps it or moves it by at least 2^32. */
  lemma {:induction false} CutMoves(v: int)
    ensures var r := SignExtend(v % 0x1_0000_0000);
            if -0x8000_0000 <= v < 0x8000_0000 then r == v else r <= v - 0x1_0000_0000 || v + 0x1_0000_0000 <= r
  {
    var k := v / 0x1_0000_0000;
    assert v == k * 0x1_0000_0000 + v % 0x1_0000_0000;
  }

  /** Half a unit in the last place is what rounding may cost, and more is lost exactly when the value does not fit. */
  lemma {:induction false} HalfUnitExact(value: real)
    ensures HalfUnit(ReadBack(value), value) <==> Representable(value)
  {
    hide Round, SignExtend;
    var y := value * SCALE_1616;
    RoundNear(y);
    CutMoves(Round(y));
    var raw := ReadBack(value);
    assert raw as real / SCALE_1616 - value == (raw as real - y) / SCALE_1616;
  }

  /**
   A fixed-point value is read back within half a unit of its last place if and
   only if its scaled value fits 32 bits.
   */
  lemma {:induction false} Fixed1616Accuracy(value: real, c: Cursor, fs: seq<Field>, k: nat, tail: seq<bool>)
    requires At(c, fs, k, tail) && k < |fs| && fs[k] == Fixed1616(value)
    ensures ReadI32(c).1 == Some(ReadBack(value)) && At(ReadI32(c).0, fs, k + 1, tail)
    ensures HalfUnit(ReadBack(value), value) <==> Representable(value)
  {
    hide Round, SignExtend, ReadI32, From, HalfUnit;
    ReadI32At(c, fs, k, tail, Round(value * SCALE_1616));
    HalfUnitExact(value);
  }

  /** A coordinate of 40000 is read as -25536. */
  lemma {:induction false} FixedOverflow()
    ensures !Representable(40000.0)
    ensures ReadBack(40000.0) as real / SCALE_1616 == -25536.0 && !HalfUnit(ReadBack(40000.0), 40000.0)
  {
    assert 40000.0 * SCALE_1616 == 2621440000.0;
  }

  lemma {:induction false} ScriptStep(done: seq<Field>, items: seq<Item>, i: nat)
    requires i < |items|
    ensures var more := done + ItemFields(items[i], TotalWidth(done));
            done + Script(items[i..], TotalWidth(done)) == more + Script(items[i + 1..], TotalWidth(more))
  {
    hide ItemFields;
    var fs := ItemFields(items[i], TotalWidth(done));
    var here := items[i..];
    assert here[0] == items[i] && here[1..] == items[i + 1..];
    TotalWidthConcat(done, fs);
    ConcatAssoc(done, fs, Script(items[i + 1..], TotalWidth(done) + TotalWidth(fs)));
  }

  lemma {:induction false} NoScript(pos: nat)
    ensures Script([], pos) == []
  {
  }

  /** Any sequence of calls leaves exactly its script's packing, and its width is the bit length before it. */
  method WriteScript(items: seq<Item>) returns (out: seq<Byte>, bits: nat)
    ensures out == Payload(Script(items, 0)) && bits == TotalWidth(Script(items, 0))
    ensures |out| == (bits + 7) / 8
  {
    hide Clear, BitsOf, Unpack, Encode, Script, StringFields, OctetFields, Payload;
    var w := new BitWriter();
    var i := 0;
    assert items[0..] == items && TotalWidth(w.fields) == 0;
    while i < |items|
      invariant i <= |items| && fresh(w) && w.Valid()
      invariant w.fields + Script(items[i..], TotalWidth(w.fields)) == Script(items, 0)
    {
      ScriptStep(w.fields, items, i);
      EncodeLength(w.fields);
      match items[i] {
        case Number(v, n) => w.WriteBits(v, n);
        case Str(t) => w.WriteString(t);
        case Align => w.Align();
        case Raw(data) => w.WriteBytes(data);
      }
      i := i + 1;
    }
    assert items[i..] == [] && w.fields + [] == w.fields;
    NoScript(TotalWidth(w.fields));
    bits := w.BitLength();
    out := w.Bytes();
    PayloadLength(Script(items, 0));
  }

  /** Bit pos of the data, counted from the most significant end of its first byte. */
  function DataBit(data: seq<Byte>, pos: nat): (bit: nat)
    requires pos < 8 * |data|
    ensures bit < 2
  {
    Shr(data[pos / 8], 7 - pos % 8) % 2
  }

  lemma {:induction false} ReadCases(c: Cursor, n: nat)
    ensures Read(c, n)
            == if c.failed || n > 32 || |c.rest| < n then (c.Fail(), None)
               else (c.(rest := c.rest[n..]), Some(ValueOf(c.rest[..n])))
  {
  }

  lemma {:induction false} TakenBits(bits: seq<bool>, start: nat, n: nat)
    requires start + n <= |bits|
    ensures bits[start..][..n] == bits[start..start + n] && bits[start..][n..] == bits[start + n..]
  {
  }

  class BitReader {
    const data: seq<Byte>
    var bitPos: nat
    var failed: bool

    ghost predicate Valid()
      reads this
    {
      bitPos <= 8 * |data|
    }

    /** What is still to be read. */
    ghost function Cur(): Cursor
      requires Valid()
      reads this
    {
      Cursor(Unpack(data)[bitPos..], failed)
    }

    constructor (data: seq<Byte>)
      ensures Valid() && Cur() == Start(data) && this.data == data
    {
      this.data := data;
      bitPos, failed := 0, false;
    }

    /** A second reader at the same place. */
    method Copy() returns (r: BitReader)
      requires Valid()
      ensures fresh(r) && r.Valid() && r.Cur() == Cur()
    {
      r := new BitReader(data);
      r.bitPos, r.failed := bitPos, failed;
    }

    method Fail()
      requires Valid()
      modifies `failed
      ensures Valid() && Cur() == old(Cur()).Fail()
    {
      failed := true;
    }

    function RemainingBits(): (n: nat)
      reads this
      ensures Valid() ==> n == |Cur().rest|
    {
      if bitPos >= 8 * |data| then 0 else 8 * |data| - bitPos
    }

    method ReadBits(numBits: nat) returns (r: Option<U32>)
      requires Valid()
      modifies this
      ensures Valid() && (Cur(), r) == Read(old(Cur()), numBits)
    {
      hide Unpack, BitsOf, ValueOf, DataBit, Pow2, Read;
      ReadCases(Cur(), numBits);
      if failed || numBits > 32 {
        Fail();
        return None;
      }
      if RemainingBits() < numBits {
        Fail();
        return None;
      }
      ghost var bits, start := Unpack(data), bitPos;
      NoBits(bits[start..start]);
      var value: U32 := 0;
      var i := 0;
      while i < numBits
        invariant i <= numBits <= 32 && bitPos == start + i && start + numBits <= |bits|
        invariant value == ValueOf(bits[start..start + i]) && !failed
      {
        var bit := DataBit(data, bitPos);
        BitHere(data, start, i, value);
        value := 2 * value + bit;
        bitPos := bitPos + 1;
        i := i + 1;
      }
      TakenBits(bits, start, numBits);
      r := Some(value);
    }

    method ReadByte() returns (r: Option<Byte>)
      requires Valid()
      modifies this
      ensures Valid() && (Cur(), r) == Cursors.ReadByte(old(Cur()))
    {
      var v := ReadBits(8);
      Pow2Values();
      r := if v.None? then None else Some(v.value);
    }

    method ReadU16() returns (r: Option<U16>)
      requires Valid()
      modifies this
      ensures Valid() && (Cur(), r) == Cursors.ReadU16(old(Cur()))
    {
      var v := ReadBits(16);
      Pow2Values();
      r := if v.None? then None else Some(v.value);
    }

    method ReadI32() returns (r: Option<I32>)
      requires Valid()
      modifies this
      ensures Valid() && (Cur(), r) == Cursors.ReadI32(old(Cur()))
    {
      var v := ReadBits(32);
      r := if v.None? then None else Some(SignExtend(v.value));
    }

    method ReadString(maxLen: nat) returns (r: Option<Text>)
      requires Valid()
      modifies this
      ensures Valid() && (Cur(), r) == Cursors.ReadString(old(Cur()), maxLen)
    {
      var declared := ReadU16();
      if declared.None? {
        return None;
      }
      var n := declared.value;
      if n == 0 || n > maxLen {
        Fail();
        return None;
      }
      var out := ReadChars(n - 1);
      if out.None? {
        return None;
      }
      var last := ReadByte();
      if last.None? {
        return None;
      }
      if last.value != 0 {
        Fail();
        return None;
      }
      r := out;
    }

    /** That many whole bytes, or a latched failure when they are not all there. */
    method ReadBytes(len: nat) returns (r: Option<seq<Byte>>)
      requires Valid()
      modifies this
      ensures Valid() && (Cur(), r) == Cursors.ReadBytes(old(Cur()), len)
    {
      hide Unpack, Cursors.ReadChars;
      if failed || RemainingBits() < len * 8 {
        Fail();
        return None;
      }
      r := ReadChars(len);
    }

    method ReadChars(n: nat) returns (r: Option<Text>)
      requires Valid()
      modifies this
      ensures Valid() && (Cur(), r) == Cursors.ReadChars(old(Cur()), n)
    {
      hide Unpack, Cursors.ReadChars, Cursors.ReadByte, CharsSplit;
      ghost var c1 := Cur();
      var out: Text := [];
      var i := 0;
      CharsBegin(c1, n);
      while i < n
        invariant i <= n && Valid() && CharsSplit(c1, n, Cur(), out, n - i)
      {
        CharsStep(c1, n, Cur(), out, n - i);
        var b := ReadByte();
        if b.None? {
          return None;
        }
        out := out + [b.value];
        i := i + 1;
      }
      CharsEnd(c1, n, Cur(), out);
      r := Some(out);
    }
  }

  /** After reading `out`, the `left` characters from c on complete the `n` characters from c1 on. */
  ghost predicate CharsSplit(c1: Cursor, n: nat, c: Cursor, out: Text, left: nat) {
    var (c2, t) := Cursors.ReadChars(c, left);
    Cursors.ReadChars(c1, n) == (c2, if t.None? then None else Some(out + t.value))
  }

  lemma {:induction false} CharsBegin(c: Cursor, n: nat)
    ensures CharsSplit(c, n, c, [], n)
  {
    var t := Cursors.ReadChars(c, n).1;
    assert t.Some? ==> [] + t.value == t.value;
  }

  lemma {:induction false} CharsStep(c1: Cursor, n: nat, c: Cursor, out: Text, left: nat)
    requires left > 0 && CharsSplit(c1, n, c, out, left)
    ensures var (c', b) := Cursors.ReadByte(c);
            if b.None? then Cursors.ReadChars(c1, n) == (c', None)
            else CharsSplit(c1, n, c', out + [b.value], left - 1)
  {
    var (c', b) := Cursors.ReadByte(c);
    if b.Some? {
      var (c2, t) := Cursors.ReadChars(c', left - 1);
      if t.Some? {
        ConcatAssoc(out, [b.value], t.value);
      }
    }
  }

  lemma {:induction false} CharsEnd(c1: Cursor, n: nat, c: Cursor, out: Text)
    requires CharsSplit(c1, n, c, out, 0)
    ensures Cursors.ReadChars(c1, n) == (c, Some(out))
  {
    assert out + [] == out;
  }

  lemma {:induction false} NoBits(b: seq<bool>)
    requires b == []
    ensures ValueOf(b) == 0
  {
  }

  /** The reader's shift and mask pick the next bit of the data. */
  lemma {:induction false} BitHere(data: seq<Byte>, start: nat, i: nat, value: nat)
    requires start + i < 8 * |data| && i < 32 && value == ValueOf(Unpack(data)[start..start + i])
    ensures 2 * value + DataBit(data, start + i)
            == ValueOf(Unpack(data)[start..start + i + 1]) < 0x1_0000_0000
  {
    hide Unpack, ValueOf, Shr;
    UnpackAt(data, start + i);
    NextBit(Unpack(data), start, i, value);
  }

  lemma {:induction false} NextBit(bits: seq<bool>, start: nat, i: nat, value: nat)
    requires start + i < |bits| && i < 32 && value == ValueOf(bits[start..start + i])
    ensures 2 * value + (if bits[start + i] then 1 else 0) == ValueOf(bits[start..start + i + 1]) < 0x1_0000_0000
  {
    var here, next := bits[start..start + i], bits[start..start + i + 1];
    assert next == here + [bits[start + i]];
    ValueOfSnoc(here, bits[start + i]);
    BitsOfValueOf(next);
    FitsU32(ValueOf(next), i + 1);
  }

  lemma {:induction false} ValueOfSnoc(b: seq<bool>, x: bool)
    ensures ValueOf(b + [x]) == 2 * ValueOf(b) + if x then 1 else 0
  {
    assert (b + [x])[..|b|] == b;
  }
}
