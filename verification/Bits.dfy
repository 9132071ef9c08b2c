/**
 The vocabulary of the wire: bytes, bit strings, and the two ways of seeing a
 message, as a list of fixed-width fields and as packed bytes. Bits are ordered
 most significant first, as the protocol writes them; the last byte is filled up
 with zero bits.
 */
module Bits {

  datatype Option<+T> = None | Some(value: T) {
    function GetOr(default: T): T {
      if Some? then value else default
    }
  }

  type Byte = b: int | 0 <= b < 0x100
  type U16 = v: int | 0 <= v < 0x1_0000
  type U32 = v: int | 0 <= v < 0x1_0000_0000
  type I32 = v: int | -0x8000_0000 <= v < 0x8000_0000
  type Text = seq<Byte>

  function Min(a: nat, b: nat): nat {
    if a < b then a else b
  }

  lemma {:induction false} ConcatAssoc<T>(a: seq<T>, b: seq<T>, c: seq<T>)
    ensures a + b + c == a + (b + c)
  {
  }

  function Pow2(n: nat): (p: nat)
    ensures p >= 1
  {
    if n == 0 then 1 else 2 * Pow2(n - 1)
  }

  lemma {:induction false} Pow2Values()
    ensures Pow2(1) == 2 && Pow2(4) == 16 && Pow2(5) == 32 && Pow2(8) == 0x100
    ensures Pow2(10) == 0x400 && Pow2(16) == 0x1_0000 && Pow2(32) == 0x1_0000_0000
  {
    assert Pow2(5) == 32;
    assert Pow2(8) == 0x100;
    assert Pow2(10) == 0x400;
    assert Pow2(13) == 0x2000;
    assert Pow2(16) == 0x1_0000;
    assert Pow2(19) == 0x8_0000;
    assert Pow2(22) == 0x40_0000;
    assert Pow2(25) == 0x200_0000;
    assert Pow2(28) == 0x1000_0000;
    assert Pow2(31) == 0x8000_0000;
  }

  /** The low n bits of v, most significant first. */
  function BitsOf(v: nat, n: nat): (b: seq<bool>)
    ensures |b| == n
  {
    if n == 0 then [] else BitsOf(v / 2, n - 1) + [v % 2 == 1]
  }

  function ValueOf(b: seq<bool>): nat {
    if b == [] then 0 else 2 * ValueOf(b[..|b| - 1]) + if b[|b| - 1] then 1 else 0
  }

  lemma {:induction false} ValueOfBitsOf(v: nat, n: nat)
    ensures ValueOf(BitsOf(v, n)) == v % Pow2(n)
  {
    if n > 0 {
      var b := BitsOf(v, n);
      assert b[..n - 1] == BitsOf(v / 2, n - 1);
      ValueOfBitsOf(v / 2, n - 1);
      DivModStep(v, Pow2(n - 1));
    }
  }

  lemma {:induction false} DivModStep(v: nat, p: nat)
    requires p >= 1
    ensures 2 * (v / 2 % p) + v % 2 == v % (2 * p)
  {
    var h, q := v / 2, v / 2 / p;
    assert h == q * p + h % p;
    assert v == q * (2 * p) + (2 * (h % p) + v % 2);
    DivModUnique(v, 2 * p, q, 2 * (h % p) + v % 2);
  }

  lemma {:induction false} MulAtLeast(k: int, d: nat)
    requires k >= 1
    ensures k * d >= d
  {
    assert k * d == (k - 1) * d + d;
  }

  lemma {:induction false} DivModUnique(v: nat, d: nat, q: nat, r: nat)
    requires d >= 1 && r < d && v == q * d + r
    ensures v / d == q && v % d == r
  {
    var k := v / d - q;
    assert k * d == r - v % d by {
      assert v == v / d * d + v % d;
      assert (v / d - q) * d == v / d * d - q * d;
    }
    if k >= 1 {
      MulAtLeast(k, d);
    } else if k <= -1 {
      MulAtLeast(-k, d);
    }
  }

  lemma {:induction false} BitsOfValueOf(b: seq<bool>)
    ensures BitsOf(ValueOf(b), |b|) == b
    ensures ValueOf(b) < Pow2(|b|)
  {
    if b != [] {
      BitsOfValueOf(b[..|b| - 1]);
      assert b == b[..|b| - 1] + [b[|b| - 1]];
    }
  }

  /** v shifted right by n bits. */
  function Shr(v: nat, n: nat): nat {
    if n == 0 then v else Shr(v / 2, n - 1)
  }

  /** Bit i of v, counted from the least significant end. */
  function BitAt(v: nat, i: nat): nat {
    Shr(v, i) % 2
  }

  lemma {:induction false} HalfFits(b: nat, n: nat)
    requires n > 0 && b < Pow2(n)
    ensures b / 2 < Pow2(n - 1)
  {
  }

  /** The high part of a value's bits is the bits of the value shifted right. */
  lemma {:induction false} BitsOfPrefix(v: nat, n: nat, i: nat)
    requires i <= n
    ensures BitsOf(Shr(v, i), n - i) == BitsOf(v, n)[..n - i]
    decreases i
  {
    if i == 0 {
      assert BitsOf(v, n)[..n] == BitsOf(v, n);
    } else {
      BitsOfPrefix(v / 2, n - 1, i - 1);
      assert BitsOf(v, n)[..n - i] == BitsOf(v / 2, n - 1)[..n - i];
    }
  }

  lemma {:induction false} BitsOfAt(v: nat, n: nat, k: nat)
    requires k < n
    ensures BitsOf(v, n)[k] == (BitAt(v, n - 1 - k) == 1)
  {
    BitsOfPrefix(v, n, n - 1 - k);
    assert BitsOf(v, n)[..k + 1][k] == BitsOf(v, n)[k];
  }

  lemma {:induction false} BitsOfZero(n: nat)
    ensures BitsOf(0, n) == seq(n, _ => false)
  {
    if n > 0 {
      BitsOfZero(n - 1);
    }
  }

  lemma {:induction false} BitsOfStep(a: nat, y: nat, k: nat)
    ensures BitsOf(2 * a + y, k + 1) == BitsOf(a + y / 2, k) + [y % 2 == 1]
  {
    assert (2 * a + y) / 2 == a + y / 2 && (2 * a + y) % 2 == y % 2;
  }

  lemma {:induction false} Doubled(x: nat, n: nat)
    requires n > 0
    ensures x * Pow2(n) == 2 * (x * Pow2(n - 1))
  {
  }

  /** The bits of a number are the bits of its high part followed by those of its low part. */
  lemma {:induction false} BitsOfJoined(x: nat, y: nat, m: nat, n: nat)
    requires y < Pow2(n)
    ensures BitsOf(x * Pow2(n) + y, m + n) == BitsOf(x, m) + BitsOf(y, n)
  {
    if n > 0 {
      HalfFits(y, n);
      BitsOfJoined(x, y / 2, m, n - 1);
      Doubled(x, n);
      BitsOfStep(x * Pow2(n - 1), y, m + n - 1);
      BitsOfStep(0, y, n - 1);
      ConcatAssoc(BitsOf(x, m), BitsOf(y / 2, n - 1), [y % 2 == 1]);
    } else {
      assert BitsOf(x, m) + BitsOf(y, 0) == BitsOf(x, m);
      assert Pow2(0) == 1 && x * Pow2(0) + y == x;
    }
  }

  // ---- Bytes ----------------------------------------------------------------

  function Unpack(bytes: seq<Byte>): (b: seq<bool>)
    ensures |b| == 8 * |bytes|
  {
    if bytes == [] then [] else BitsOf(bytes[0], 8) + Unpack(bytes[1..])
  }

  /** How many zero bits complete the last byte of a string of n bits. */
  function Padding(n: nat): (p: nat)
    ensures p < 8 && (n + p) % 8 == 0
  {
    (8 - n % 8) % 8
  }

  function Zeros(n: nat): (b: seq<bool>)
    ensures |b| == n
  {
    seq(n, _ => false)
  }

  function Pack(b: seq<bool>): (bytes: seq<Byte>)
    ensures |bytes| == (|b| + 7) / 8
  {
    if b == [] then []
    else if |b| < 8 then PackOne(b + Zeros(8 - |b|))
    else PackOne(b[..8]) + Pack(b[8..])
  }

  function PackOne(b: seq<bool>): (bytes: seq<Byte>)
    requires |b| == 8
    ensures |bytes| == 1
  {
    BitsOfValueOf(b);
    Pow2Values();
    [ValueOf(b)]
  }

  lemma {:induction false} UnpackConcat(a: seq<Byte>, b: seq<Byte>)
    ensures Unpack(a + b) == Unpack(a) + Unpack(b)
  {
    if a == [] {
      assert a + b == b;
    } else {
      assert (a + b)[1..] == a[1..] + b;
      UnpackConcat(a[1..], b);
    }
  }

  lemma {:induction false} PackCons(b8: seq<bool>, rest: seq<bool>)
    requires |b8| == 8
    ensures Pack(b8 + rest) == PackOne(b8) + Pack(rest)
  {
    var b := b8 + rest;
    assert b[..8] == b8 && b[8..] == rest;
  }

  lemma {:induction false} PackOneInverse(b: seq<bool>)
    requires |b| == 8
    ensures Unpack(PackOne(b)) == b
  {
    BitsOfValueOf(b);
    assert PackOne(b)[1..] == [];
  }

  lemma {:induction false} PackOneBits(x: Byte)
    ensures PackOne(BitsOf(x, 8)) == [x]
  {
    ByteValue(x);
  }

  lemma {:induction false} ByteValue(x: Byte)
    ensures ValueOf(BitsOf(x, 8)) == x
  {
    ValueOfBitsOf(x, 8);
    assert Pow2(8) == 0x100;
  }

  lemma {:induction false} PaddingStep(n: nat)
    ensures Padding(n) == if n == 0 then 0 else if n < 8 then 8 - n else Padding(n - 8)
  {
  }

  lemma {:induction false} PackShort(b: seq<bool>)
    requires |b| < 8
    ensures b == [] ==> Unpack(Pack(b)) == []
    ensures b != [] ==> Pack(b) == PackOne(b + Zeros(8 - |b|))
  {
  }

  lemma {:induction false} UnpackPack(b: seq<bool>)
    ensures Unpack(Pack(b)) == b + Zeros(Padding(|b|))
  {
    hide Unpack, Pack, PackOne, Padding;
    PaddingStep(|b|);
    if |b| < 8 {
      PackShort(b);
      PackOneInverse(b + Zeros(8 - |b|));
    } else {
      var b8, rest := b[..8], b[8..];
      assert b == b8 + rest;
      PackOneInverse(b8);
      UnpackPack(rest);
      PackCons(b8, rest);
      UnpackConcat(PackOne(b8), Pack(rest));
      ConcatAssoc(b8, rest, Zeros(Padding(|b|)));
    }
  }

  lemma {:induction false} PackUnpack(bytes: seq<Byte>)
    ensures Pack(Unpack(bytes)) == bytes
  {
    if bytes != [] {
      PackCons(BitsOf(bytes[0], 8), Unpack(bytes[1..]));
      PackOneBits(bytes[0]);
      PackUnpack(bytes[1..]);
    }
  }

  lemma {:induction false} UnpackAt(bytes: seq<Byte>, k: nat)
    requires k < 8 * |bytes|
    ensures Unpack(bytes)[k] == (BitAt(bytes[k / 8], 7 - k % 8) == 1)
  {
    if k < 8 {
      BitsOfAt(bytes[0], 8, k);
    } else {
      UnpackAt(bytes[1..], k - 8);
    }
  }

  // ---- Fields ---------------------------------------------------------------

  /** One write: the low `width` bits of `value`. */
  datatype Field = Field(value: nat, width: nat)

  function Encode(fs: seq<Field>): seq<bool> {
    if fs == [] then [] else BitsOf(fs[0].value, fs[0].width) + Encode(fs[1..])
  }

  lemma {:induction false} EncodeConcat(a: seq<Field>, b: seq<Field>)
    ensures Encode(a + b) == Encode(a) + Encode(b)
  {
    if a == [] {
      assert a + b == b;
    } else {
      assert (a + b)[1..] == a[1..] + b;
      EncodeConcat(a[1..], b);
    }
  }

  lemma {:induction false} EncodeSnoc(a: seq<Field>, f: Field)
    ensures Encode(a + [f]) == Encode(a) + BitsOf(f.value, f.width)
  {
    EncodeConcat(a, [f]);
    assert Encode([f]) == BitsOf(f.value, f.width) + Encode([]);
  }

  function TotalWidth(fs: seq<Field>): nat {
    if fs == [] then 0 else fs[0].width + TotalWidth(fs[1..])
  }

  lemma {:induction false} EncodeLength(fs: seq<Field>)
    ensures |Encode(fs)| == TotalWidth(fs)
  {
    if fs != [] {
      EncodeLength(fs[1..]);
    }
  }

  lemma {:induction false} TotalWidthConcat(a: seq<Field>, b: seq<Field>)
    ensures TotalWidth(a + b) == TotalWidth(a) + TotalWidth(b)
  {
    if a == [] {
      assert a + b == b;
    } else {
      assert (a + b)[1..] == a[1..] + b;
      TotalWidthConcat(a[1..], b);
    }
  }

  /** Widths of short lists, spelled out. */
  lemma {:induction false} ShortWidths(a: Field, b: Field, c: Field, d: Field)
    ensures TotalWidth([a]) == a.width
    ensures TotalWidth([a, b]) == a.width + b.width
    ensures TotalWidth([a, b, c]) == a.width + b.width + c.width
    ensures TotalWidth([a, b, c, d]) == a.width + b.width + c.width + d.width
  {
    assert [a] + [b] == [a, b] && [a, b] + [c] == [a, b, c] && [a, b, c] + [d] == [a, b, c, d];
    TotalWidthConcat([a], [b]);
    TotalWidthConcat([a, b], [c]);
    TotalWidthConcat([a, b, c], [d]);
  }

  /** The bytes a writer returns after the given writes. */
  function Payload(fs: seq<Field>): seq<Byte> {
    Pack(Encode(fs))
  }

  lemma {:induction false} PayloadLength(fs: seq<Field>)
    ensures |Payload(fs)| == (TotalWidth(fs) + 7) / 8
  {
    EncodeLength(fs);
  }

  // ---- Integers and text as fields --------------------------------------------

  function SignExtend(v: U32): I32 {
    if v < 0x8000_0000 then v else v - 0x1_0000_0000
  }

  function Int32(v: int): Field {
    Field(v % 0x1_0000_0000, 32)
  }

  function Int16(v: int): Field {
    Field(v % 0x1_0000, 16)
  }

  function Octet(v: int): Field {
    Field(v % 0x100, 8)
  }

  function Flag(v: bool): Field {
    Field(if v then 1 else 0, 1)
  }

  lemma {:induction false} SignExtendInverse(v: I32)
    ensures SignExtend(v % 0x1_0000_0000) == v
  {
  }

  function Ascii(s: string): (t: Text)
    ensures |t| == |s|
  {
    seq(|s|, i requires 0 <= i < |s| => s[i] as int % 0x100)
  }

  /** Bytes above 0x7F are sent as '?'. */
  function AsciiOnly(b: Byte): Byte {
    if b < 0x80 then b else '?' as int
  }

  function CharFields(t: Text): (fs: seq<Field>)
    ensures |fs| == |t|
  {
    seq(|t|, i requires 0 <= i < |t| => Field(AsciiOnly(t[i]), 8))
  }

  function StringFields(t: Text): (fs: seq<Field>)
    ensures |fs| == |t| + 2
  {
    [Int16(|t| + 1)] + CharFields(t) + [Field(0, 8)]
  }

  function OctetFields(data: seq<Byte>): (fs: seq<Field>)
    ensures |fs| == |data|
  {
    seq(|data|, i requires 0 <= i < |data| => Field(data[i], 8))
  }

  lemma {:induction false} OctetFieldsWidth(data: seq<Byte>)
    ensures TotalWidth(OctetFields(data)) == 8 * |data|
  {
    if data != [] {
      assert OctetFields(data)[1..] == OctetFields(data[1..]);
      OctetFieldsWidth(data[1..]);
    }
  }

  lemma {:induction false} CharFieldsWidth(t: Text)
    ensures TotalWidth(CharFields(t)) == 8 * |t|
  {
    if t != [] {
      assert CharFields(t)[1..] == CharFields(t[1..]);
      CharFieldsWidth(t[1..]);
    }
  }

  lemma {:induction false} StringFieldsWidth(t: Text)
    ensures TotalWidth(StringFields(t)) == 8 * |t| + 24
  {
    CharFieldsWidth(t);
    TotalWidthConcat([Int16(|t| + 1)], CharFields(t));
    TotalWidthConcat([Int16(|t| + 1)] + CharFields(t), [Field(0, 8)]);
  }
}
