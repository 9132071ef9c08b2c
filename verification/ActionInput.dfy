/**
 Decoding of a client's control input: ACTION_UPDATE, a counted list of
 (channel, value) entries whose width depends on the channel, and ACTION_DUMP,
 the values of channels 1 to 21 in order.
 */
module ActionInput {
  import opened Bits
  import opened Cursors
  import opened BitStream
  import opened Quantization

  const ACTION_MAX_CHANNEL := 21
  const MAX_ACTION_CHANGES := 32
  const ACTION_CONFIG := QuantConfig(16, 0, 16, 1.0, 2.0)

  datatype Change = Change(channel: int, value: real)
  datatype DecodedActions = DecodedActions(ok: bool, timestamp: I32, changes: seq<Change>)

  const REJECTED := DecodedActions(false, 0, [])

  predicate IsDigitalActionChannel(channel: int) {
    channel == 4 || channel >= 8
  }

  function ValueWidth(channel: int): nat {
    if IsDigitalActionChannel(channel) then 1 else 16
  }

  function DequantizeAnalog(level: nat): real {
    if level == 0 then 0.0
    else Clamp(1.0 - Scale((level - 1) as real, 2.0, 65534.0), -1.0, 1.0)
  }

  function ChannelValue(channel: int, raw: nat): (v: real)
    ensures -1.0 <= v <= 1.0
  {
    if IsDigitalActionChannel(channel) then (if raw != 0 then 1.0 else 0.0)
    else DequantizeAnalog(raw)
  }

  function TakeValue(c: Cursor, channel: int): (Cursor, Option<real>) {
    var (c', raw) := Read(c, ValueWidth(channel));
    (c', if raw.None? then None else Some(ChannelValue(channel, raw.value)))
  }

  method ReadChannelValue(reader: BitReader, channel: int) returns (value: Option<real>)
    requires reader.Valid()
    modifies reader
    ensures reader.Valid() && (reader.Cur(), value) == TakeValue(old(reader.Cur()), channel)
  {
    if IsDigitalActionChannel(channel) {
      var bit := reader.ReadBits(1);
      if bit.None? {
        return None;
      }
      return Some(if bit.value != 0 then 1.0 else 0.0);
    }
    var level := reader.ReadBits(16);
    if level.None? {
      return None;
    }
    return Some(DequantizeAnalog(level.value));
  }

  /** n more entries behind those already read: whether all fit, and the ones read. */
  function TakeChanges(c: Cursor, n: nat, read: seq<Change>): (bool, seq<Change>)
    decreases n
  {
    if n == 0 then (true, read)
    else
      var (c1, channel) := Read(c, 16);
      if channel.None? then (false, read)
      else
        var (c2, value) := TakeValue(c1, channel.value);
        if value.None? then (false, read)
        else TakeChanges(c2, n - 1, read + [Change(channel.value, value.value)])
  }

  function ActionUpdateOf(body: seq<Byte>): DecodedActions {
    var (c1, count) := ReadByte(Start(body));
    var (c2, timestamp) := ReadI32(c1);
    var c3 := ReadI32(c2).0;
    if count.None? || timestamp.None? || count.value > MAX_ACTION_CHANGES then REJECTED
    else
      var (ok, changes) := TakeChanges(c3, count.value, []);
      DecodedActions(ok, timestamp.value, changes)
  }

  method DecodeChanges(reader: BitReader, count: nat) returns (ok: bool, changes: seq<Change>)
    requires reader.Valid()
    modifies reader
    ensures (ok, changes) == TakeChanges(old(reader.Cur()), count, [])
  {
    hide Unpack, TakeChanges, TakeValue, Read;
    changes := [];
    var i := 0;
    while i < count
      invariant i <= count && reader.Valid()
      invariant TakeChanges(reader.Cur(), count - i, changes) == TakeChanges(old(reader.Cur()), count, [])
    {
      ChangesStep(reader.Cur(), count - i, changes);
      var channel := reader.ReadBits(16);
      if channel.None? {
        return false, changes;
      }
      var value := ReadChannelValue(reader, channel.value);
      if value.None? {
        return false, changes;
      }
      changes := changes + [Change(channel.value, value.value)];
      i := i + 1;
    }
    ChangesEnd(reader.Cur(), changes);
    return true, changes;
  }

  /** One more entry: its channel, its value, then the rest. */
  lemma {:induction false} ChangesStep(c: Cursor, n: nat, read: seq<Change>)
    requires n > 0
    ensures var (c1, channel) := Read(c, 16);
            if channel.None? then TakeChanges(c, n, read) == (false, read)
            else
              var (c2, value) := TakeValue(c1, channel.value);
              TakeChanges(c, n, read)
              == if value.None? then (false, read)
                 else TakeChanges(c2, n - 1, read + [Change(channel.value, value.value)])
  {
    hide Read, TakeValue;
  }

  lemma {:induction false} ChangesEnd(c: Cursor, read: seq<Change>)
    ensures TakeChanges(c, 0, read) == (true, read)
  {
  }

  method DecodeActionUpdate(body: seq<Byte>) returns (out: DecodedActions)
    ensures out == ActionUpdateOf(body)
  {
    var reader := new BitReader(body);
    var count := reader.ReadByte();
    var timestamp := reader.ReadI32();
    var _ := reader.ReadI32();
    if count.None? || timestamp.None? {
      return REJECTED;
    }
    if count.value > MAX_ACTION_CHANGES {
      return REJECTED;
    }
    var ok, changes := DecodeChanges(reader, count.value);
    return DecodedActions(ok, timestamp.value, changes);
  }

  /** The channels from `channel` to 21, behind those already read. */
  function TakeDump(c: Cursor, channel: nat, read: seq<Change>): (bool, seq<Change>)
    decreases ACTION_MAX_CHANNEL + 1 - channel
  {
    if channel > ACTION_MAX_CHANNEL then (true, read)
    else
      var (c', value) := TakeValue(c, channel);
      if value.None? then (false, read)
      else TakeDump(c', channel + 1, read + [Change(channel, value.value)])
  }

  function ActionDumpOf(body: seq<Byte>): DecodedActions {
    var (c1, timestamp) := ReadI32(Start(body));
    var c2 := ReadI32(c1).0;
    if timestamp.None? then REJECTED
    else
      var (ok, changes) := TakeDump(c2, 1, []);
      DecodedActions(ok, timestamp.value, changes)
  }

  method DecodeDumpValues(reader: BitReader) returns (ok: bool, changes: seq<Change>)
    requires reader.Valid()
    modifies reader
    ensures (ok, changes) == TakeDump(old(reader.Cur()), 1, [])
  {
    hide Unpack, TakeDump, TakeValue;
    changes := [];
    var channel := 1;
    while channel <= ACTION_MAX_CHANNEL
      invariant 1 <= channel <= ACTION_MAX_CHANNEL + 1 && reader.Valid()
      invariant TakeDump(reader.Cur(), channel, changes) == TakeDump(old(reader.Cur()), 1, [])
    {
      DumpStep(reader.Cur(), channel, changes);
      var value := ReadChannelValue(reader, channel);
      if value.None? {
        return false, changes;
      }
      changes := changes + [Change(channel, value.value)];
      channel := channel + 1;
    }
    DumpStep(reader.Cur(), channel, changes);
    return true, changes;
  }

  /** One more channel of a dump, or the end behind the last one. */
  lemma {:induction false} DumpStep(c: Cursor, channel: nat, read: seq<Change>)
    ensures TakeDump(c, channel, read)
            == if channel > ACTION_MAX_CHANNEL then (true, read)
               else
                 var (c', value) := TakeValue(c, channel);
                 if value.None? then (false, read) else TakeDump(c', channel + 1, read + [Change(channel, value.value)])
  {
    hide TakeValue;
  }

  method DecodeActionDump(body: seq<Byte>) returns (out: DecodedActions)
    ensures out == ActionDumpOf(body)
  {
    var reader := new BitReader(body);
    var timestamp := reader.ReadI32();
    var _ := reader.ReadI32();
    if timestamp.None? {
      return REJECTED;
    }
    var ok, changes := DecodeDumpValues(reader);
    return DecodedActions(ok, timestamp.value, changes);
  }

  // ---- Exactly which bodies are accepted -----------------------------------------------

  /** n entries of variable width fit at the front of these bits. */
  predicate EntriesFit(bits: seq<bool>, n: nat)
    decreases n
  {
    n == 0 ||
    (|bits| >= 16 &&
     var w := 16 + ValueWidth(ValueOf(bits[..16]));
     |bits| >= w && EntriesFit(bits[w..], n - 1))
  }

  lemma {:induction false} ChangesExact(c: Cursor, n: nat, read: seq<Change>)
    requires !c.failed
    ensures TakeChanges(c, n, read).0 == EntriesFit(c.rest, n)
    decreases n
  {
    if n > 0 && |c.rest| >= 16 {
      var (c1, channel) := Read(c, 16);
      var w := ValueWidth(channel.value);
      if |c.rest| >= 16 + w {
        var (c2, value) := TakeValue(c1, channel.value);
        assert c2.rest == c.rest[16 + w..];
        ChangesExact(c2, n - 1, read + [Change(channel.value, value.value)]);
      }
    }
  }

  /**
   Acceptance of an update: at most 32 entries announced, a whole count and
   timestamp, and, if there is any entry, a whole header with every entry behind
   it. With no entry the pending-event counter may be cut short.
   */
  lemma {:induction false} UpdateAccepted(body: seq<Byte>)
    ensures var bits := Unpack(body);
            ActionUpdateOf(body).ok
            <==> |body| >= 5
                 && body[0] <= MAX_ACTION_CHANGES
                 && (body[0] == 0 || (|body| >= 9 && EntriesFit(bits[72..], body[0])))
  {
    if |body| >= 5 {
      CountIsFirstByte(body);
      HeaderLength(body);
      var c3 := ReadI32(ReadI32(ReadByte(Start(body)).0).0).0;
      if |body| >= 9 {
        ChangesExact(c3, body[0], []);
      }
    }
  }

  /** How much of the 9-byte update header is there decides what can be read. */
  lemma {:induction false} HeaderLength(body: seq<Byte>)
    requires |body| >= 1
    ensures var c2, ts := ReadI32(ReadByte(Start(body)).0).0, ReadI32(ReadByte(Start(body)).0).1;
            && (ts.Some? <==> |body| >= 5)
            && (ReadI32(c2).0.failed <==> |body| < 9)
            && (|body| >= 9 ==> ReadI32(c2).0.rest == Unpack(body)[72..])
  {
    var bits := Unpack(body);
    assert ReadByte(Start(body)).0 == Cursor(bits[8..], false);
    if |body| >= 5 {
      assert ReadI32(Cursor(bits[8..], false)).0 == Cursor(bits[40..], false);
    }
    if |body| >= 9 {
      assert ReadI32(Cursor(bits[40..], false)).0 == Cursor(bits[72..], false);
    }
  }

  lemma {:induction false} CountIsFirstByte(body: seq<Byte>)
    requires |body| >= 1
    ensures ReadByte(Start(body)).1 == Some(body[0])
  {
    assert Unpack(body)[..8] == BitsOf(body[0], 8);
    ByteValue(body[0]);
  }

  /** Bits of the channels from `channel` to 21. */
  function DumpWidth(channel: nat): nat
    decreases ACTION_MAX_CHANNEL + 1 - channel
  {
    if channel > ACTION_MAX_CHANNEL then 0 else ValueWidth(channel) + DumpWidth(channel + 1)
  }

  lemma {:induction false} DumpExact(c: Cursor, channel: nat, read: seq<Change>)
    requires !c.failed
    ensures TakeDump(c, channel, read).0 <==> |c.rest| >= DumpWidth(channel)
    decreases ACTION_MAX_CHANNEL + 1 - channel
  {
    if channel <= ACTION_MAX_CHANNEL {
      var (c', value) := TakeValue(c, channel);
      if value.Some? {
        DumpExact(c', channel + 1, read + [Change(channel, value.value)]);
      }
    }
  }

  /** A dump is accepted exactly when it has at least 22 bytes. */
  lemma {:induction false} DumpAccepted(body: seq<Byte>)
    ensures ActionDumpOf(body).ok <==> |body| >= 22
  {
    DumpWidthTotal();
    var (c1, timestamp) := ReadI32(Start(body));
    var c2 := ReadI32(c1).0;
    if !c2.failed {
      DumpExact(c2, 1, []);
    } else {
      assert TakeValue(c2, 1).1 == None;
    }
  }

  lemma {:induction false} DumpWidthTotal()
    ensures DumpWidth(1) == 111
  {
    assert DumpWidth(17) == 5;
    assert DumpWidth(13) == 9;
    assert DumpWidth(9) == 13;
    assert DumpWidth(5) == 62;
  }

  /** Whatever the bytes, every decoded value lies in [-1, 1]. */
  lemma {:induction false} ChangesInRange(c: Cursor, n: nat, read: seq<Change>)
    requires forall x :: x in read ==> 0 <= x.channel && -1.0 <= x.value <= 1.0
    ensures forall x :: x in TakeChanges(c, n, read).1 ==> 0 <= x.channel && -1.0 <= x.value <= 1.0
    decreases n
  {
    if n > 0 {
      var (c1, channel) := Read(c, 16);
      if channel.Some? {
        var (c2, value) := TakeValue(c1, channel.value);
        if value.Some? {
          ChangesInRange(c2, n - 1, read + [Change(channel.value, value.value)]);
        }
      }
    }
  }

  lemma {:induction false} DumpInRange(c: Cursor, channel: nat, read: seq<Change>)
    requires forall x :: x in read ==> 0 <= x.channel && -1.0 <= x.value <= 1.0
    ensures forall x :: x in TakeDump(c, channel, read).1 ==> 0 <= x.channel && -1.0 <= x.value <= 1.0
    decreases ACTION_MAX_CHANNEL + 1 - channel
  {
    if channel <= ACTION_MAX_CHANNEL {
      var (c', value) := TakeValue(c, channel);
      if value.Some? {
        DumpInRange(c', channel + 1, read + [Change(channel, value.value)]);
      }
    }
  }

  // ---- Inverting the client's encoding ---------------------------------------------------

  /** One entry as the client encodes it: any 16-bit channel and the raw level or button bit. */
  datatype Entry = Entry(channel: U16, raw: U16)

  predicate Encodable(e: Entry) {
    e.raw < Pow2(ValueWidth(e.channel))
  }

  function EntryFields(entries: seq<Entry>): seq<Field> {
    if entries == [] then []
    else
      var e := entries[0];
      [Field(e.channel, 16), Field(e.raw, ValueWidth(e.channel))] + EntryFields(entries[1..])
  }

  function UpdateFields(timestamp: I32, entries: seq<Entry>): seq<Field> {
    [Octet(|entries|), Int32(timestamp), Int32(0)] + EntryFields(entries)
  }

  function Meaning(entries: seq<Entry>): (cs: seq<Change>)
    ensures |cs| == |entries|
  {
    seq(|entries|, i requires 0 <= i < |entries| =>
      Change(entries[i].channel, ChannelValue(entries[i].channel, entries[i].raw)))
  }

  lemma {:induction false} RawAt(c: Cursor, fs: seq<Field>, k: nat, tail: seq<bool>)
    requires k < |fs| && At(c, fs, k, tail) && fs[k].width <= 32 && fs[k].value < Pow2(fs[k].width)
    ensures Read(c, fs[k].width).1 == Some(fs[k].value) && At(Read(c, fs[k].width).0, fs, k + 1, tail)
  {
    ReadAt(c, fs, k, tail);
    DivModUnique(fs[k].value, Pow2(fs[k].width), 0, fs[k].value);
  }

  lemma {:induction false} EntriesAt(c: Cursor, entries: seq<Entry>, tail: seq<bool>, read: seq<Change>)
    requires At(c, EntryFields(entries), 0, tail)
    requires forall e :: e in entries ==> Encodable(e)
    ensures TakeChanges(c, |entries|, read) == (true, read + Meaning(entries))
    decreases |entries|
  {
    hide Read, From, ChannelValue, TakeChanges, Meaning, Pow2;
    if entries == [] {
      NoMeaning(read);
      ChangesEnd(c, read);
    } else {
      var e, rest := entries[0], entries[1..];
      var head := [Field(e.channel, 16), Field(e.raw, ValueWidth(e.channel))];
      var after := From(EntryFields(rest), 0, tail);
      FromConcat(head, EntryFields(rest), tail);
      assert Encodable(e);
      Pow2Values();
      RawAt(c, head, 0, after);
      var c1 := Read(c, 16).0;
      RawAt(c1, head, 1, after);
      AtEnd(Read(c1, ValueWidth(e.channel)).0, head, after);
      var x := Change(e.channel, ChannelValue(e.channel, e.raw));
      ChangesStep(c, |entries|, read);
      EntriesAt(Cursor(after, false), rest, tail, read + [x]);
      MeaningCons(entries, read);
    }
  }

  lemma {:induction false} NoMeaning(read: seq<Change>)
    ensures read + Meaning([]) == read
  {
  }

  lemma {:induction false} MeaningCons(entries: seq<Entry>, read: seq<Change>)
    requires entries != []
    ensures var e := entries[0];
            read + [Change(e.channel, ChannelValue(e.channel, e.raw))] + Meaning(entries[1..])
              == read + Meaning(entries)
  {
    assert forall i :: 1 <= i < |entries| ==> entries[i] == entries[1..][i - 1];
  }

  /** Decoding inverts the client's encoding for any 0 to 32 entries on any 16-bit channels. */
  lemma {:induction false} UpdateRoundTrip(timestamp: I32, entries: seq<Entry>)
    requires |entries| <= MAX_ACTION_CHANGES
    requires forall e :: e in entries ==> Encodable(e)
    ensures ActionUpdateOf(Payload(UpdateFields(timestamp, entries)))
            == DecodedActions(true, timestamp, Meaning(entries))
  {
    var fs := UpdateFields(timestamp, entries);
    var pad := Zeros(Padding(TotalWidth(fs)));
    AtStart(fs);
    HeaderAt(Start(Payload(fs)), timestamp, entries, pad);
    var c3 := ReadI32(ReadI32(ReadByte(Start(Payload(fs))).0).0).0;
    EntriesAt(c3, entries, pad, []);
    assert [] + Meaning(entries) == Meaning(entries);
  }

  lemma {:induction false} HeaderAt(c: Cursor, timestamp: I32, entries: seq<Entry>, tail: seq<bool>)
    requires |entries| <= MAX_ACTION_CHANGES && At(c, UpdateFields(timestamp, entries), 0, tail)
    ensures var (c1, count) := ReadByte(c);
            var (c2, ts) := ReadI32(c1);
            count == Some(|entries|) && ts == Some(timestamp) && At(ReadI32(c2).0, EntryFields(entries), 0, tail)
  {
    hide Read, ReadByte, ReadI32, EntryFields, From, SignExtend;
    var head := [Octet(|entries|), Int32(timestamp), Int32(0)];
    var after := From(EntryFields(entries), 0, tail);
    FromConcat(head, EntryFields(entries), tail);
    ReadByteAt(c, head, 0, after);
    var c1 := ReadByte(c).0;
    ReadI32At(c1, head, 1, after, timestamp);
    var c2 := ReadI32(c1).0;
    ReadI32At(c2, head, 2, after, 0);
    AtEnd(ReadI32(c2).0, head, after);
  }

  // ---- Dumps -----------------------------------------------------------------------------

  /** The raw values of the channels from `channel` to 21. */
  predicate EncodableDump(channel: nat, raws: seq<U16>) {
    |raws| + channel == ACTION_MAX_CHANNEL + 1 && forall i :: 0 <= i < |raws| ==> Encodable(Entry(channel + i, raws[i]))
  }

  function DumpEntryFields(channel: nat, raws: seq<U16>): seq<Field>
    requires channel + |raws| <= ACTION_MAX_CHANNEL + 1
    decreases |raws|
  {
    if raws == [] then [] else [Field(raws[0], ValueWidth(channel))] + DumpEntryFields(channel + 1, raws[1..])
  }

  function DumpFields(timestamp: I32, raws: seq<U16>): seq<Field>
    requires |raws| == ACTION_MAX_CHANNEL
  {
    [Int32(timestamp), Int32(0)] + DumpEntryFields(1, raws)
  }

  function DumpMeaning(channel: nat, raws: seq<U16>): (cs: seq<Change>)
    ensures |cs| == |raws|
  {
    seq(|raws|, i requires 0 <= i < |raws| => Change(channel + i, ChannelValue(channel + i, raws[i])))
  }

  lemma {:induction false} DumpMeaningCons(channel: nat, raws: seq<U16>)
    requires raws != []
    ensures DumpMeaning(channel, raws)
            == [Change(channel, ChannelValue(channel, raws[0]))] + DumpMeaning(channel + 1, raws[1..])
  {
    hide ChannelValue;
    assert forall i :: 1 <= i < |raws| ==> raws[i] == raws[1..][i - 1];
  }

  lemma {:induction false} DumpEntriesAt(c: Cursor, channel: nat, raws: seq<U16>, tail: seq<bool>, read: seq<Change>)
    requires EncodableDump(channel, raws) && At(c, DumpEntryFields(channel, raws), 0, tail)
    ensures TakeDump(c, channel, read) == (true, read + DumpMeaning(channel, raws))
    decreases |raws|
  {
    hide ChannelValue, Read;
    if raws == [] {
      assert read + DumpMeaning(channel, raws) == read;
    } else {
      var fs, rest := [Field(raws[0], ValueWidth(channel))], DumpEntryFields(channel + 1, raws[1..]);
      assert Encodable(Entry(channel + 0, raws[0]));
      FromConcat(fs, rest, tail);
      RawAt(c, fs, 0, From(rest, 0, tail));
      AtEnd(Read(c, ValueWidth(channel)).0, fs, From(rest, 0, tail));
      forall i | 0 <= i < |raws| - 1 ensures Encodable(Entry(channel + 1 + i, raws[1..][i])) {
        assert Encodable(Entry(channel + (i + 1), raws[i + 1]));
      }
      var value := ChannelValue(channel, raws[0]);
      DumpEntriesAt(Read(c, ValueWidth(channel)).0, channel + 1, raws[1..], tail, read + [Change(channel, value)]);
      DumpMeaningCons(channel, raws);
      ConcatAssoc(read, [Change(channel, value)], DumpMeaning(channel + 1, raws[1..]));
    }
  }

  /** Decoding inverts the client's encoding of a dump, for every value of the 21 channels. */
  lemma {:induction false} DumpRoundTrip(timestamp: I32, raws: seq<U16>)
    requires |raws| == ACTION_MAX_CHANNEL && EncodableDump(1, raws)
    ensures ActionDumpOf(Payload(DumpFields(timestamp, raws))) == DecodedActions(true, timestamp, DumpMeaning(1, raws))
  {
    hide From, TakeDump, ReadI32, Encodable, DumpMeaning;
    var fs := DumpFields(timestamp, raws);
    var head, rest := [Int32(timestamp), Int32(0)], DumpEntryFields(1, raws);
    var pad := Zeros(Padding(TotalWidth(fs)));
    var c := Start(Payload(fs));
    AtStart(fs);
    FromConcat(head, rest, pad);
    var after := From(rest, 0, pad);
    ReadI32At(c, head, 0, after, timestamp);
    var c1 := ReadI32(c).0;
    ReadI32At(c1, head, 1, after, 0);
    AtEnd(ReadI32(c1).0, head, after);
    DumpEntriesAt(ReadI32(c1).0, 1, raws, pad, []);
    assert [] + DumpMeaning(1, raws) == DumpMeaning(1, raws);
  }

  // ---- Values ----------------------------------------------------------------------------

  /** The decoder's ramp is the inverse of the quantizer on the client's action settings. */
  lemma {:induction false} AnalogIsDequantize(level: nat)
    ensures QuantizedBits(ACTION_CONFIG, 0) == 16
    ensures DequantizeAnalog(level) == Dequantize(level, ACTION_CONFIG, 0)
  {
    Pow2Values();
  }

  /**
   An analog value sent by the client arrives clamped and at most one step of 2/65534
   higher; zero arrives exactly.
   */
  lemma {:induction false} AnalogAccuracy(value: real)
    ensures Usable(ACTION_CONFIG, 0)
    ensures Quantize(value, ACTION_CONFIG, 0) < 0x1_0000
    ensures var got := DequantizeAnalog(Quantize(value, ACTION_CONFIG, 0));
            if value == 0.0 then got == 0.0
            else 0.0 <= got - Clamp(value, -1.0, 1.0) < 2.0 / 65534.0
  {
    Pow2Values();
    QuantizeLevels(value, ACTION_CONFIG, 0);
    AnalogIsDequantize(Quantize(value, ACTION_CONFIG, 0));
    if value != 0.0 {
      QuantizeError(value, ACTION_CONFIG, 0);
    }
  }

  /** Two levels mean zero: 0 itself and the middle of the ramp. */
  lemma {:induction false} ZeroLevels(level: nat)
    requires level < 0x1_0000
    ensures DequantizeAnalog(level) == 0.0 <==> level == 0 || level == 32768
  {
    if level > 0 {
      var k := (level - 1) as real;
      assert Scale(k, 2.0, 65534.0) == k / 32767.0;
    }
  }

  /** The middle level stands for zero, and zero is sent as level 0: 32768 is not recovered from its value. */
  lemma {:induction false} MiddleLevelLost()
    ensures QuantizedBits(ACTION_CONFIG, 0) == 16
    ensures Dequantize(32768, ACTION_CONFIG, 0) == 0.0
    ensures Quantize(Dequantize(32768, ACTION_CONFIG, 0), ACTION_CONFIG, 0) == 0
  {
    hide Dequantize;
    ZeroLevels(32768);
    AnalogIsDequantize(32768);
  }
}
