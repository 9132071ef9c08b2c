/**
 The meaning of a fail-closed bit reader: a cursor is the bits not yet read and
 a failure flag that, once set, makes every later read fail. Decoders are
 functions on cursors; the lemmas say what they return on bits that a list of
 fields produced.
 */
module Cursors {
  import opened Bits

  datatype Cursor = Cursor(rest: seq<bool>, failed: bool) {
    function Fail(): Cursor {
      this.(failed := true)
    }
  }

  function Start(bytes: seq<Byte>): Cursor {
    Cursor(Unpack(bytes), false)
  }

  function Read(c: Cursor, n: nat): (r: (Cursor, Option<nat>))
    ensures r.1.None? <==> r.0.failed
    ensures r.1.Some? ==> r.1.value < Pow2(n)
    ensures |r.0.rest| <= |c.rest| && (c.failed ==> r.0.failed)
  {
    if c.failed || n > 32 || |c.rest| < n then (c.Fail(), None)
    else
      BitsOfValueOf(c.rest[..n]);
      (c.(rest := c.rest[n..]), Some(ValueOf(c.rest[..n])))
  }

  function ReadByte(c: Cursor): (r: (Cursor, Option<Byte>))
    ensures r.1.None? <==> r.0.failed
    ensures |r.0.rest| <= |c.rest| && (c.failed ==> r.0.failed)
  {
    var (c', v) := Read(c, 8);
    Pow2Values();
    (c', if v.None? then None else Some(v.value))
  }

  function ReadU16(c: Cursor): (r: (Cursor, Option<U16>))
    ensures r.1.None? <==> r.0.failed
    ensures |r.0.rest| <= |c.rest| && (c.failed ==> r.0.failed)
  {
    var (c', v) := Read(c, 16);
    Pow2Values();
    (c', if v.None? then None else Some(v.value))
  }

  function ReadI32(c: Cursor): (r: (Cursor, Option<I32>))
    ensures r.1.None? <==> r.0.failed
    ensures |r.0.rest| <= |c.rest| && (c.failed ==> r.0.failed)
  {
    var (c', v) := Read(c, 32);
    Pow2Values();
    (c', if v.None? then None else Some(SignExtend(v.value)))
  }

  function ReadChars(c: Cursor, n: nat): (r: (Cursor, Option<Text>))
    ensures r.1.None? ==> r.0.failed
    ensures !c.failed && r.1.Some? ==> !r.0.failed && |r.1.value| == n
    ensures |r.0.rest| <= |c.rest| && (c.failed ==> r.0.failed)
    decreases n
  {
    if n == 0 then (c, Some([]))
    else
      var (c1, b) := ReadByte(c);
      if b.None? then (c1, None)
      else
        var (c2, t) := ReadChars(c1, n - 1);
        (c2, if t.None? then None else Some([b.value] + t.value))
  }

  /** Length including the terminator, the text, and a terminator that must be zero. */
  function ReadString(c: Cursor, maxLen: nat): (r: (Cursor, Option<Text>))
    ensures r.1.None? <==> r.0.failed
    ensures r.1.Some? ==> |r.1.value| < maxLen
    ensures |r.0.rest| <= |c.rest| && (c.failed ==> r.0.failed)
  {
    var (c1, n) := ReadU16(c);
    if n.None? then (c1, None)
    else if n.value == 0 || n.value > maxLen then (c1.Fail(), None)
    else
      var (c2, t) := ReadChars(c1, n.value - 1);
      if t.None? then (c2, None)
      else
        var (c3, z) := ReadByte(c2);
        if z.None? then (c3, None)
        else if z.value != 0 then (c3.Fail(), None)
        else (c3, t)
  }

  function ReadBytes(c: Cursor, n: nat): (r: (Cursor, Option<seq<Byte>>))
    ensures |r.0.rest| <= |c.rest| && (c.failed ==> r.0.failed)
  {
    if c.failed || |c.rest| < 8 * n then (c.Fail(), None) else ReadChars(c, n)
  }

  // ---- Reading what was written -----------------------------------------------

  /** The bits from field k of fs on, followed by `tail`. */
  ghost function From(fs: seq<Field>, k: nat, tail: seq<bool>): seq<bool>
    decreases |fs| - k
  {
    if k >= |fs| then tail else BitsOf(fs[k].value, fs[k].width) + From(fs, k + 1, tail)
  }

  /** The cursor stands in front of field k of fs, with `tail` behind the last field. */
  ghost predicate At(c: Cursor, fs: seq<Field>, k: nat, tail: seq<bool>) {
    !c.failed && c.rest == From(fs, k, tail)
  }

  lemma {:induction false} FromEncode(fs: seq<Field>, k: nat, tail: seq<bool>)
    requires k <= |fs|
    ensures From(fs, k, tail) == Encode(fs[k..]) + tail
    decreases |fs| - k
  {
    if k < |fs| {
      FromEncode(fs, k + 1, tail);
      assert fs[k..][1..] == fs[k + 1..];
    }
  }

  lemma {:induction false} AtStart(fs: seq<Field>)
    ensures At(Start(Payload(fs)), fs, 0, Zeros(Padding(TotalWidth(fs))))
  {
    UnpackPack(Encode(fs));
    EncodeLength(fs);
    FromEncode(fs, 0, Zeros(Padding(TotalWidth(fs))));
    assert fs[0..] == fs;
  }

  lemma {:induction false} ReadAt(c: Cursor, fs: seq<Field>, k: nat, tail: seq<bool>)
    requires k < |fs| && At(c, fs, k, tail) && fs[k].width <= 32
    ensures Read(c, fs[k].width).1 == Some(fs[k].value % Pow2(fs[k].width))
    ensures At(Read(c, fs[k].width).0, fs, k + 1, tail)
  {
    ValueOfBitsOf(fs[k].value, fs[k].width);
  }

  lemma {:induction false} ReadByteAt(c: Cursor, fs: seq<Field>, k: nat, tail: seq<bool>)
    requires k < |fs| && At(c, fs, k, tail) && fs[k].width == 8
    ensures ReadByte(c).1 == Some(fs[k].value % 0x100)
    ensures At(ReadByte(c).0, fs, k + 1, tail)
  {
    ReadAt(c, fs, k, tail);
    Pow2Values();
  }

  lemma {:induction false} ReadU16At(c: Cursor, fs: seq<Field>, k: nat, tail: seq<bool>)
    requires k < |fs| && At(c, fs, k, tail) && fs[k].width == 16
    ensures ReadU16(c).1 == Some(fs[k].value % 0x1_0000)
    ensures At(ReadU16(c).0, fs, k + 1, tail)
  {
    ReadAt(c, fs, k, tail);
    Pow2Values();
  }

  lemma {:induction false} ReadI32At(c: Cursor, fs: seq<Field>, k: nat, tail: seq<bool>, v: int)
    requires k < |fs| && At(c, fs, k, tail) && fs[k] == Int32(v)
    ensures ReadI32(c).1 == Some(SignExtend(v % 0x1_0000_0000))
    ensures -0x8000_0000 <= v < 0x8000_0000 ==> ReadI32(c).1 == Some(v)
    ensures At(ReadI32(c).0, fs, k + 1, tail)
  {
    hide Read, From;
    ReadAt(c, fs, k, tail);
    Pow2Values();
  }

  /** A field list embedded in a longer one can be read as a list of its own. */
  lemma {:induction false} FromSplit(pre: seq<Field>, mid: seq<Field>, k: nat, post: seq<bool>, all: seq<Field>,
                                     tail: seq<bool>)
    requires k <= |mid| && |pre| + |mid| <= |all|
    requires forall j :: 0 <= j < |mid| ==> all[|pre| + j] == mid[j]
    requires post == From(all, |pre| + |mid|, tail)
    ensures From(all, |pre| + k, tail) == From(mid, k, post)
    decreases |mid| - k
  {
    if k < |mid| {
      FromSplit(pre, mid, k + 1, post, all, tail);
    }
  }

  lemma {:induction false} AtEnd(c: Cursor, fs: seq<Field>, tail: seq<bool>)
    requires At(c, fs, |fs|, tail)
    ensures c == Cursor(tail, false)
  {
  }

  lemma {:induction false} FromAfter(a: seq<Field>, b: seq<Field>, tail: seq<bool>)
    ensures From(a + b, |a|, tail) == From(b, 0, tail)
  {
    FromSplit(a, b, 0, tail, a + b, tail);
  }

  lemma {:induction false} FromConcat(a: seq<Field>, b: seq<Field>, tail: seq<bool>)
    ensures From(a + b, 0, tail) == From(a, 0, From(b, 0, tail))
  {
    FromSplit(a, b, 0, tail, a + b, tail);
    FromSplit([], a, 0, From(b, 0, tail), a + b, tail);
  }

  /** What a reader sees of a text: its bytes with the non-ASCII ones replaced. */
  function Sanitized(t: Text): (s: Text)
    ensures |s| == |t|
  {
    seq(|t|, j requires 0 <= j < |t| => AsciiOnly(t[j]))
  }

  lemma {:induction false} ReadCharsAt(c: Cursor, x: seq<Byte>, i: nat, fs: seq<Field>, k: nat, tail: seq<bool>)
    requires i <= |x| && k + |x| <= |fs| && At(c, fs, k + i, tail)
    requires forall j :: 0 <= j < |x| ==> fs[k + j] == Field(x[j], 8)
    ensures ReadChars(c, |x| - i).1 == Some(x[i..])
    ensures At(ReadChars(c, |x| - i).0, fs, k + |x|, tail)
    decreases |x| - i
  {
    hide Read, From, ReadByte;
    if i < |x| {
      assert fs[k + i] == Field(x[i], 8);
      ReadByteAt(c, fs, k + i, tail);
      ReadCharsAt(ReadByte(c).0, x, i + 1, fs, k, tail);
      assert x[i..] == [x[i]] + x[i + 1..];
    } else {
      assert x[i..] == [];
    }
  }

  /** Field k of fs starts the encoding of t. */
  ghost predicate StringAt(t: Text, fs: seq<Field>, k: nat) {
    && k + |t| + 2 <= |fs|
    && fs[k] == Int16(|t| + 1)
    && (forall j :: 0 <= j < |t| ==> fs[k + 1 + j] == Field(AsciiOnly(t[j]), 8))
    && fs[k + 1 + |t|] == Field(0, 8)
  }

  lemma {:induction false} ReadStringAt(c: Cursor, t: Text, fs: seq<Field>, k: nat, tail: seq<bool>, cap: nat)
    requires At(c, fs, k, tail) && StringAt(t, fs, k)
    requires |t| + 1 <= cap && |t| + 1 < 0x1_0000
    ensures ReadString(c, cap).1 == Some(Sanitized(t))
    ensures At(ReadString(c, cap).0, fs, k + |t| + 2, tail)
  {
    hide ReadString, ReadChars, ReadU16, ReadByte, Read, From;
    ReadU16At(c, fs, k, tail);
    var c1 := ReadU16(c).0;
    ReadCharsAt(c1, Sanitized(t), 0, fs, k + 1, tail);
    var c2 := ReadChars(c1, |t|).0;
    ReadByteAt(c2, fs, k + 1 + |t|, tail);
    assert Sanitized(t)[0..] == Sanitized(t);
    ReadStringSteps(c, c1, c2, ReadByte(c2).0, Sanitized(t), cap);
  }

  lemma {:induction false} ReadStringSteps(c: Cursor, c1: Cursor, c2: Cursor, c3: Cursor, t: Text, cap: nat)
    requires |t| + 1 <= cap && |t| + 1 < 0x1_0000 && ReadU16(c) == (c1, Some(|t| + 1))
    requires ReadChars(c1, |t|) == (c2, Some(t)) && ReadByte(c2) == (c3, Some(0))
    ensures ReadString(c, cap) == (c3, Some(t))
  {
  }

  // ---- Whole scripts of writes ------------------------------------------------

  /** One call on a writer, and the call that reads its result back. */
  datatype Item = Number(value: U32, width: nat) | Str(text: Text) | Align | Raw(data: seq<Byte>)

  function ItemFields(it: Item, pos: nat): seq<Field> {
    match it
    case Number(v, w) => [Field(v, Min(w, 32))]
    case Str(t) => StringFields(t)
    case Align => if Padding(pos) == 0 then [] else [Field(0, Padding(pos))]
    case Raw(data) => OctetFields(data)
  }

  function Script(items: seq<Item>, pos: nat): seq<Field> {
    if items == [] then []
    else
      var fs := ItemFields(items[0], pos);
      fs + Script(items[1..], pos + TotalWidth(fs))
  }

  /** Reads one item knowing only its kind, width or length; pos is the number of bits before it. */
  function ReadItem(c: Cursor, it: Item, pos: nat, cap: nat): (r: (Cursor, Option<Item>))
    ensures |r.0.rest| <= |c.rest| && (c.failed ==> r.0.failed)
  {
    match it
    case Number(_, w) =>
      var (c', v) := Read(c, w);
      if v.None? || w > 32 then (c', None)
      else
        FitsU32(v.value, w);
        (c', Some(Number(v.value, w)))
    case Str(_) =>
      var (c', t) := ReadString(c, cap);
      (c', if t.None? then None else Some(Str(t.value)))
    case Align =>
      var (c', v) := Read(c, Padding(pos));
      (c', if v == Some(0) then Some(Align) else None)
    case Raw(data) =>
      var (c', b) := ReadBytes(c, |data|);
      (c', if b.None? then None else Some(Raw(b.value)))
  }

  function ReadItems(c: Cursor, items: seq<Item>, total: nat, cap: nat): Option<seq<Item>>
    requires |c.rest| <= total
    decreases |items|
  {
    if items == [] then (if c.failed then None else Some([]))
    else
      var (c', it) := ReadItem(c, items[0], total - |c.rest|, cap);
      if it.None? then None
      else
        var more := ReadItems(c', items[1..], total, cap);
        if more.None? then None else Some([it.value] + more.value)
  }

  lemma {:induction false} Pow2Monotone(a: nat, b: nat)
    requires a <= b
    ensures Pow2(a) <= Pow2(b)
  {
    if a < b {
      Pow2Monotone(a, b - 1);
    }
  }

  lemma {:induction false} FitsU32(v: nat, w: nat)
    requires w <= 32 && v < Pow2(w)
    ensures v < 0x1_0000_0000
  {
    Pow2Monotone(w, 32);
    Pow2Values();
  }

  lemma {:induction false} LowBitsFit(v: nat, p: nat)
    requires p >= 1
    ensures v % p <= v
  {
    if v < p {
      DivModUnique(v, p, 0, v);
    }
  }

  /** What reading an item back should give: its low bits, or its sanitized text. */
  function Expected(it: Item): Item {
    match it
    case Number(v, w) => LowBitsFit(v, Pow2(w)); Number(v % Pow2(w), w)
    case Str(t) => Str(Sanitized(t))
    case Align => Align
    case Raw(data) => it
  }

  function ExpectedAll(items: seq<Item>): (r: seq<Item>)
    ensures |r| == |items|
  {
    seq(|items|, i requires 0 <= i < |items| => Expected(items[i]))
  }

  predicate Readable(it: Item, cap: nat) {
    match it
    case Number(_, w) => w <= 32
    case Str(t) => |t| + 1 <= cap
    case Align => true
    case Raw(_) => true
  }

  lemma {:induction false} FromLength(fs: seq<Field>, i: nat, j: nat, tail: seq<bool>)
    requires i <= j <= |fs|
    ensures |From(fs, i, tail)| - |From(fs, j, tail)| == TotalWidth(fs[i..j])
    decreases j - i
  {
    if i < j {
      FromLength(fs, i + 1, j, tail);
      assert fs[i..j][1..] == fs[i + 1..j];
    }
  }

  lemma {:induction false} ReadNumberAt(c: Cursor, it: Item, pos: nat, cap: nat, post: seq<Field>, tail: seq<bool>)
    requires it.Number?
    requires cap < 0x1_0000 && Readable(it, cap)
    requires At(c, ItemFields(it, pos) + post, 0, tail)
    ensures ReadItem(c, it, pos, cap).1 == Some(Expected(it))
    ensures At(ReadItem(c, it, pos, cap).0, post, 0, tail)
    ensures |c.rest| - |ReadItem(c, it, pos, cap).0.rest| == TotalWidth(ItemFields(it, pos))
  {
    hide From, Read;
    var fs := ItemFields(it, pos);
    var all := fs + post;
    FromAfter(fs, post, tail);
    FromLength(all, 0, |fs|, tail);
    ReadAt(c, all, 0, tail);
  }

  lemma {:induction false} ReadTextAt(c: Cursor, it: Item, pos: nat, cap: nat, post: seq<Field>, tail: seq<bool>)
    requires it.Str?
    requires cap < 0x1_0000 && Readable(it, cap)
    requires At(c, ItemFields(it, pos) + post, 0, tail)
    ensures ReadItem(c, it, pos, cap).1 == Some(Expected(it))
    ensures At(ReadItem(c, it, pos, cap).0, post, 0, tail)
    ensures |c.rest| - |ReadItem(c, it, pos, cap).0.rest| == TotalWidth(ItemFields(it, pos))
  {
    hide From, ReadString, Sanitized;
    var fs := ItemFields(it, pos);
    var all := fs + post;
    FromAfter(fs, post, tail);
    FromLength(all, 0, |fs|, tail);
    assert fs == StringFields(it.text);
    assert StringAt(it.text, all, 0);
    ReadStringAt(c, it.text, all, 0, tail, cap);
  }

  lemma {:induction false} ReadAlignAt(c: Cursor, it: Item, pos: nat, cap: nat, post: seq<Field>, tail: seq<bool>)
    requires it.Align?
    requires cap < 0x1_0000 && Readable(it, cap)
    requires At(c, ItemFields(it, pos) + post, 0, tail)
    ensures ReadItem(c, it, pos, cap).1 == Some(Expected(it))
    ensures At(ReadItem(c, it, pos, cap).0, post, 0, tail)
    ensures |c.rest| - |ReadItem(c, it, pos, cap).0.rest| == TotalWidth(ItemFields(it, pos))
  {
    var fs := ItemFields(it, pos);
    var all := fs + post;
    FromAfter(fs, post, tail);
    FromLength(all, 0, |fs|, tail);
    if Padding(pos) > 0 {
      ReadAt(c, all, 0, tail);
    } else {
      assert all == post && c.rest[0..] == c.rest;
    }
  }

  lemma {:induction false} ReadRawAt(c: Cursor, it: Item, pos: nat, cap: nat, post: seq<Field>, tail: seq<bool>)
    requires it.Raw?
    requires At(c, ItemFields(it, pos) + post, 0, tail)
    ensures ReadItem(c, it, pos, cap).1 == Some(Expected(it))
    ensures At(ReadItem(c, it, pos, cap).0, post, 0, tail)
    ensures |c.rest| - |ReadItem(c, it, pos, cap).0.rest| == TotalWidth(ItemFields(it, pos))
  {
    hide From, ReadChars;
    var fs := ItemFields(it, pos);
    var all := fs + post;
    FromAfter(fs, post, tail);
    FromLength(all, 0, |fs|, tail);
    assert all[0..|fs|] == fs;
    OctetFieldsWidth(it.data);
    ReadCharsAt(c, it.data, 0, all, 0, tail);
    assert it.data[0..] == it.data;
  }

  lemma {:induction false} ReadItemAt(c: Cursor, it: Item, pos: nat, cap: nat, post: seq<Field>, tail: seq<bool>)
    requires cap < 0x1_0000 && Readable(it, cap)
    requires At(c, ItemFields(it, pos) + post, 0, tail)
    ensures ReadItem(c, it, pos, cap).1 == Some(Expected(it))
    ensures At(ReadItem(c, it, pos, cap).0, post, 0, tail)
    ensures |c.rest| - |ReadItem(c, it, pos, cap).0.rest| == TotalWidth(ItemFields(it, pos))
  {
    hide ReadItem, ItemFields, From, Expected, Readable;
    match it
    case Number(_, _) => ReadNumberAt(c, it, pos, cap, post, tail);
    case Str(_) => ReadTextAt(c, it, pos, cap, post, tail);
    case Align => ReadAlignAt(c, it, pos, cap, post, tail);
    case Raw(_) => ReadRawAt(c, it, pos, cap, post, tail);
  }

  /** An item the reader's limits exclude is never read back as it was written. */
  lemma {:induction false} ReadItemLost(c: Cursor, it: Item, pos: nat, cap: nat, post: seq<Field>, tail: seq<bool>)
    requires cap < 0x1_0000 && !Readable(it, cap)
    requires At(c, ItemFields(it, pos) + post, 0, tail)
    ensures ReadItem(c, it, pos, cap).1 != Some(Expected(it))
  {
    if it.Str? {
      var all := ItemFields(it, pos) + post;
      assert all[0] == Int16(|it.text| + 1);
      ReadAt(c, all, 0, tail);
      Pow2Values();
    }
  }

  ghost predicate AllReadable(items: seq<Item>, cap: nat) {
    forall i :: 0 <= i < |items| ==> Readable(items[i], cap)
  }

  lemma {:induction false} ReadableScript(c: Cursor, items: seq<Item>, pos: nat, total: nat, cap: nat, tail: seq<bool>)
    requires total == pos + |c.rest| && cap < 0x1_0000 && At(c, Script(items, pos), 0, tail) && AllReadable(items, cap)
    ensures ReadItems(c, items, total, cap) == Some(ExpectedAll(items))
    decreases |items|
  {
    hide ReadItem, ItemFields, From, Expected;
    if items != [] {
      var fs, rest := ItemFields(items[0], pos), items[1..];
      ReadItemAt(c, items[0], pos, cap, Script(rest, pos + TotalWidth(fs)), tail);
      var c' := ReadItem(c, items[0], pos, cap).0;
      ReadableScript(c', rest, pos + TotalWidth(fs), total, cap, tail);
      ItemsStep(c, items, total, cap, c', Expected(items[0]), ExpectedAll(rest));
      assert ExpectedAll(items) == [Expected(items[0])] + ExpectedAll(rest);
    }
  }

  lemma {:induction false} ItemsStep(c: Cursor, items: seq<Item>, total: nat, cap: nat, c': Cursor, x: Item,
                                     xs: seq<Item>)
    requires items != [] && |c'.rest| <= |c.rest| <= total
    requires ReadItem(c, items[0], total - |c.rest|, cap) == (c', Some(x))
    requires ReadItems(c', items[1..], total, cap) == Some(xs)
    ensures ReadItems(c, items, total, cap) == Some([x] + xs)
  {
    hide ReadItem;
  }

  lemma {:induction false} UnreadableScript(c: Cursor, items: seq<Item>, pos: nat, total: nat, cap: nat,
                                            tail: seq<bool>)
    requires total == pos + |c.rest| && cap < 0x1_0000 && At(c, Script(items, pos), 0, tail) && !AllReadable(items, cap)
    ensures ReadItems(c, items, total, cap) != Some(ExpectedAll(items))
    decreases |items|
  {
    hide ReadItem, ReadItems, ItemFields, From, Expected, ExpectedAll;
    var fs, rest := ItemFields(items[0], pos), items[1..];
    var post := Script(rest, pos + TotalWidth(fs));
    if !Readable(items[0], cap) {
      ReadItemLost(c, items[0], pos, cap, post, tail);
      HeadDiffers(c, items, total, cap);
    } else {
      ReadItemAt(c, items[0], pos, cap, post, tail);
      var c' := ReadItem(c, items[0], pos, cap).0;
      UnreadableScript(c', rest, pos + TotalWidth(fs), total, cap, tail);
      TailDiffers(c, items, total, cap);
    }
  }

  lemma {:induction false} HeadDiffers(c: Cursor, items: seq<Item>, total: nat, cap: nat)
    requires |c.rest| <= total && items != []
    requires ReadItem(c, items[0], total - |c.rest|, cap).1 != Some(Expected(items[0]))
    ensures ReadItems(c, items, total, cap) != Some(ExpectedAll(items))
  {
    var r := ReadItems(c, items, total, cap);
    if r.Some? {
      assert r.value[0] == ReadItem(c, items[0], total - |c.rest|, cap).1.value;
    }
  }

  lemma {:induction false} TailDiffers(c: Cursor, items: seq<Item>, total: nat, cap: nat)
    requires |c.rest| <= total && items != []
    requires ReadItems(ReadItem(c, items[0], total - |c.rest|, cap).0, items[1..], total, cap)
             != Some(ExpectedAll(items[1..]))
    ensures ReadItems(c, items, total, cap) != Some(ExpectedAll(items))
  {
    hide ReadItem, Expected;
    var r := ReadItems(c, items, total, cap);
    if r.Some? {
      assert r.value[1..] == ReadItems(ReadItem(c, items[0], total - |c.rest|, cap).0, items[1..], total, cap).value;
      assert ExpectedAll(items)[1..] == ExpectedAll(items[1..]);
    }
  }

  /**
   Bit codec round trip: whatever a script of writes put into the packet is read
   back value by value exactly when every width is at most 32 and every text with
   its terminator is within the reader's cap.
   */
  lemma {:induction false} ScriptRoundTrip(items: seq<Item>, cap: nat)
    requires cap < 0x1_0000
    ensures var c := Start(Payload(Script(items, 0)));
            ReadItems(c, items, |c.rest|, cap) == Some(ExpectedAll(items)) <==> AllReadable(items, cap)
  {
    var fs := Script(items, 0);
    var c := Start(Payload(fs));
    AtStart(fs);
    var tail := Zeros(Padding(TotalWidth(fs)));
    if AllReadable(items, cap) {
      ReadableScript(c, items, 0, |c.rest|, cap, tail);
    } else {
      UnreadableScript(c, items, 0, |c.rest|, cap, tail);
    }
  }

  /** A 33-bit number and a text one longer than the cap allows are not read back. */
  lemma {:induction false} UnreadableExamples(v: U32, t: Text)
    requires |t| == 256
    ensures var c := Start(Payload(Script([Number(v, 33)], 0)));
            ReadItems(c, [Number(v, 33)], |c.rest|, 256) != Some(ExpectedAll([Number(v, 33)]))
    ensures var c := Start(Payload(Script([Str(t)], 0)));
            ReadItems(c, [Str(t)], |c.rest|, 256) != Some(ExpectedAll([Str(t)]))
  {
    hide ReadItems, Script, ExpectedAll;
    ScriptRoundTrip([Number(v, 33)], 256);
    ScriptRoundTrip([Str(t)], 256);
    assert !Readable([Number(v, 33)][0], 256) && !Readable([Str(t)][0], 256);
  }
}
