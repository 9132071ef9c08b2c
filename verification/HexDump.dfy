/**
 The developer console's memory dump, `0xADDR: aa bb .. |ascii|` per 16 bytes, and
 the tool-side parser that reads it back: whatever characters a dump shows between
 its bars, its bytes are recovered. Also the console's hex arguments, two digits to a
 byte, upper or lower case, with or without the prefix.
 */
module HexDump {
  import opened Bits

  const BYTES_PER_LINE := 16
  const SPACE: Byte := 0x20
  const BAR: Byte := 0x7C
  const COLON: Byte := 0x3A
  const NEWLINE: Byte := 0x0A
  const DOT: Byte := 0x2E
  const ZERO_X: Text := [0x30, 0x78]
  const MAX_POKE_LEN := 4096

  // ---- Printing -------------------------------------------------------------------------------

  function HexDigit(n: nat): Byte
    requires n < 16
  {
    if n < 10 then 0x30 + n else 0x61 + n - 10
  }

  function HexByte(b: Byte): Text {
    [HexDigit(b / 16), HexDigit(b % 16)]
  }

  function Hex(v: nat): (t: Text)
    ensures t != []
  {
    if v < 16 then [HexDigit(v)] else Hex(v / 16) + [HexDigit(v % 16)]
  }

  predicate IsShown(b: Byte) {
    0x20 <= b <= 0x7E
  }

  function Cell(chunk: seq<Byte>, col: nat): Text {
    if col < |chunk| then HexByte(chunk[col]) + [SPACE] else [SPACE, SPACE, SPACE]
  }

  /** The hex columns from col on, short lines padded. */
  function Cells(chunk: seq<Byte>, col: nat): Text
    decreases BYTES_PER_LINE - col
  {
    if col >= BYTES_PER_LINE then [] else Cell(chunk, col) + Cells(chunk, col + 1)
  }

  function Shown(chunk: seq<Byte>): Text {
    seq(|chunk|, i requires 0 <= i < |chunk| => if IsShown(chunk[i]) then chunk[i] else DOT)
  }

  function Line(addr: U32, chunk: seq<Byte>): Text {
    ZERO_X + Hex(addr) + [COLON, SPACE] + Cells(chunk, 0) + [SPACE, BAR] + Shown(chunk) + [BAR]
  }

  function ChunkAt(data: seq<Byte>, off: nat): seq<Byte>
    requires off <= |data|
  {
    data[off..Min(off + BYTES_PER_LINE, |data|)]
  }

  function Dump(base: U32, data: seq<Byte>, off: nat): Text
    decreases |data| - off
  {
    if off >= |data| then []
    else Line((base + off) % 0x1_0000_0000, ChunkAt(data, off)) + [NEWLINE] + Dump(base, data, off + BYTES_PER_LINE)
  }

  /** The hex and ASCII columns of one line. */
  method DumpColumns(data: seq<Byte>, off: nat) returns (hex: Text, ascii: Text)
    requires off < |data|
    ensures hex == Cells(ChunkAt(data, off), 0) && ascii == Shown(ChunkAt(data, off))
  {
    hide Cell, HexByte, Cells;
    ghost var chunk := ChunkAt(data, off);
    hex, ascii := [], [];
    var col := 0;
    while col < BYTES_PER_LINE
      invariant col <= BYTES_PER_LINE
      invariant hex + Cells(chunk, col) == Cells(chunk, 0)
      invariant ascii == Shown(chunk)[..Min(col, |chunk|)]
    {
      ConcatAssoc(hex, Cell(chunk, col), Cells(chunk, col + 1));
      CellAt(chunk, col);
      CellsStep(chunk, col);
      if off + col < |data| {
        var byte := data[off + col];
        assert byte == chunk[col];
        hex := hex + (HexByte(byte) + [SPACE]);
        ascii := ascii + [if IsShown(byte) then byte else DOT];
      } else {
        hex := hex + [SPACE, SPACE, SPACE];
      }
      col := col + 1;
    }
    CellsEnd(chunk);
    assert hex + [] == hex;
  }

  method HexDumpBytes(base: U32, data: seq<Byte>) returns (out: Text)
    ensures out == Dump(base, data, 0)
  {
    hide Hex, Cells, Shown, ChunkAt;
    out := [];
    var off := 0;
    while off < |data|
      invariant out + Dump(base, data, off) == Dump(base, data, 0)
      decreases |data| - off
    {
      var addr := (base + off) % 0x1_0000_0000;
      var hex, ascii := DumpColumns(data, off);
      var line := ZERO_X + Hex(addr) + [COLON, SPACE] + hex + [SPACE, BAR] + ascii + [BAR];
      assert line == Line(addr, ChunkAt(data, off));
      ConcatAssoc(out, line + [NEWLINE], Dump(base, data, off + BYTES_PER_LINE));
      out := out + (line + [NEWLINE]);
      off := off + BYTES_PER_LINE;
    }
  }

  lemma {:induction false} CellAt(chunk: seq<Byte>, col: nat)
    ensures Cell(chunk, col) == if col < |chunk| then HexByte(chunk[col]) + [SPACE] else [SPACE, SPACE, SPACE]
  {
  }

  lemma {:induction false} CellsStep(chunk: seq<Byte>, col: nat)
    requires col < BYTES_PER_LINE
    ensures Cells(chunk, col) == Cell(chunk, col) + Cells(chunk, col + 1)
  {
  }

  lemma {:induction false} CellsEnd(chunk: seq<Byte>)
    ensures Cells(chunk, BYTES_PER_LINE) == []
  {
  }

  // ---- Parsing ----------------------------------------------------------------------------------

  function HexNibble(c: Byte): (n: Option<nat>)
    ensures n.Some? ==> n.value < 16
  {
    if 0x30 <= c <= 0x39 then Some(c - 0x30)
    else if 0x61 <= c <= 0x66 then Some(c - 0x61 + 10)
    else if 0x41 <= c <= 0x46 then Some(c - 0x41 + 10)
    else None
  }

  predicate IsSpace(c: Byte) {
    0x09 <= c <= 0x0D || 0x1C <= c <= 0x20 || c == 0x85 || c == 0xA0
  }

  predicate IsLineBreak(c: Byte) {
    0x0A <= c <= 0x0D || 0x1C <= c <= 0x1E || c == 0x85
  }

  function LineEnd(t: Text): (n: nat)
    ensures n <= |t|
  {
    if t == [] || IsLineBreak(t[0]) then 0 else 1 + LineEnd(t[1..])
  }

  /** The lines of a text; a two-character line end adds an empty line, which holds no bytes. */
  function SplitLines(t: Text): seq<Text>
    decreases |t|
  {
    if t == [] then []
    else
      var n := LineEnd(t);
      [t[..n]] + SplitLines(if n < |t| then t[n + 1..] else [])
  }

  function SkipSpaces(t: Text): (r: Text)
    ensures |r| <= |t|
  {
    if t == [] || !IsSpace(t[0]) then t else SkipSpaces(t[1..])
  }

  function HexRun(t: Text): (n: nat)
    ensures n <= |t|
  {
    if t == [] || HexNibble(t[0]).None? then 0 else 1 + HexRun(t[1..])
  }

  function BarAt(t: Text): (n: Option<nat>)
    ensures n.Some? ==> n.value < |t|
  {
    if t == [] then None
    else if t[0] == BAR then Some(0)
    else
      var n := BarAt(t[1..]);
      if n.None? then None else Some(n.value + 1)
  }

  /** What stands between the address and the first bar, if the line has both. */
  function LineBody(line: Text): Option<Text> {
    var s := SkipSpaces(line);
    if |s| < 2 || s[..2] != ZERO_X then None
    else
      var n := HexRun(s[2..]);
      if n == 0 || n >= |s| - 2 || s[2 + n] != COLON then None
      else
        var u := SkipSpaces(s[3 + n..]);
        var bar := BarAt(u);
        if bar.None? then None else Some(u[..bar.value])
  }

  function WordEnd(t: Text): (n: nat)
    ensures n <= |t|
    ensures t != [] && !IsSpace(t[0]) ==> n > 0
  {
    if t == [] || IsSpace(t[0]) then 0 else 1 + WordEnd(t[1..])
  }

  function Tokens(t: Text): seq<Text>
    decreases |t|
  {
    var s := SkipSpaces(t);
    if s == [] then []
    else
      SkippedSpaces(t);
      [s[..WordEnd(s)]] + Tokens(s[WordEnd(s)..])
  }

  lemma {:induction false} SkippedSpaces(t: Text)
    ensures SkipSpaces(t) != [] ==> !IsSpace(SkipSpaces(t)[0])
  {
    if t != [] && IsSpace(t[0]) {
      SkippedSpaces(t[1..]);
    }
  }

  /** The byte a token spells, if it is two hex digits. */
  function TokenByte(t: Text): seq<Byte> {
    if |t| == 2 && HexNibble(t[0]).Some? && HexNibble(t[1]).Some?
    then [16 * HexNibble(t[0]).value + HexNibble(t[1]).value]
    else []
  }

  function TokenBytes(ts: seq<Text>): seq<Byte> {
    if ts == [] then [] else TokenBytes(ts[..|ts| - 1]) + TokenByte(ts[|ts| - 1])
  }

  function LineBytes(line: Text): seq<Byte> {
    var body := LineBody(line);
    if body.None? then [] else TokenBytes(Tokens(body.value))
  }

  function LinesBytes(lines: seq<Text>): seq<Byte> {
    if lines == [] then [] else LinesBytes(lines[..|lines| - 1]) + LineBytes(lines[|lines| - 1])
  }

  method ParseDump(text: Text) returns (out: seq<Byte>)
    ensures out == LinesBytes(SplitLines(text))
  {
    var lines := SplitLines(text);
    out := [];
    for i := 0 to |lines|
      invariant out == LinesBytes(lines[..i])
    {
      assert lines[..i + 1][..i] == lines[..i];
      var body := LineBody(lines[i]);
      if body.Some? {
        var tokens := Tokens(body.value);
        ghost var before := out;
        for j := 0 to |tokens|
          invariant out == before + TokenBytes(tokens[..j])
        {
          assert tokens[..j + 1][..j] == tokens[..j];
          ConcatAssoc(before, TokenBytes(tokens[..j]), TokenByte(tokens[j]));
          out := out + TokenByte(tokens[j]);
        }
        assert tokens[..|tokens|] == tokens;
      }
    }
    assert lines[..|lines|] == lines;
  }

  // ---- Round trip ---------------------------------------------------------------------------------

  lemma {:induction false} NibbleOfDigit(n: nat)
    requires n < 16
    ensures HexNibble(HexDigit(n)) == Some(n) && !IsSpace(HexDigit(n)) && HexDigit(n) != BAR && IsShown(HexDigit(n))
  {
  }

  predicate AllShown(t: Text) {
    forall i :: 0 <= i < |t| ==> IsShown(t[i])
  }

  predicate AllHex(t: Text) {
    forall i :: 0 <= i < |t| ==> HexNibble(t[i]).Some?
  }

  lemma {:induction false} HexIsHex(v: nat)
    ensures AllHex(Hex(v)) && AllShown(Hex(v))
  {
    if v >= 16 {
      HexIsHex(v / 16);
      NibbleOfDigit(v % 16);
    } else {
      NibbleOfDigit(v);
    }
  }

  lemma {:induction false} CellsShown(chunk: seq<Byte>, col: nat)
    ensures AllShown(Cells(chunk, col)) && BAR !in Cells(chunk, col)
    decreases BYTES_PER_LINE - col
  {
    hide Cells;
    if col < BYTES_PER_LINE {
      CellsShown(chunk, col + 1);
      CellsStep(chunk, col);
      CellShown(chunk, col);
    } else {
      NoCells(chunk, col);
      assert |Cells(chunk, col) + [SPACE]| == 1;
    }
  }

  lemma {:induction false} CellShown(chunk: seq<Byte>, col: nat)
    ensures AllShown(Cell(chunk, col)) && BAR !in Cell(chunk, col)
  {
    hide HexDigit;
    if col < |chunk| {
      NibbleOfDigit(chunk[col] / 16);
      NibbleOfDigit(chunk[col] % 16);
    }
  }

  lemma {:induction false} LineShown(addr: U32, chunk: seq<Byte>)
    ensures AllShown(Line(addr, chunk))
  {
    hide Hex, Cells;
    HexIsHex(addr);
    CellsShown(chunk, 0);
  }

  lemma {:induction false} LineEndOf(l: Text, rest: Text)
    requires AllShown(l)
    ensures LineEnd(l + [NEWLINE] + rest) == |l|
  {
    var t := l + [NEWLINE] + rest;
    if l != [] {
      assert t[1..] == l[1..] + [NEWLINE] + rest;
      LineEndOf(l[1..], rest);
    }
  }

  lemma {:induction false} SplitFirst(l: Text, rest: Text)
    requires AllShown(l)
    ensures SplitLines(l + [NEWLINE] + rest) == [l] + SplitLines(rest)
  {
    hide AllShown;
    var t := l + [NEWLINE] + rest;
    LineEndOf(l, rest);
    assert t[..|l|] == l && t[|l| + 1..] == rest;
  }

  lemma {:induction false} HexRunOf(h: Text, rest: Text)
    requires AllHex(h) && (rest == [] || HexNibble(rest[0]).None?)
    ensures HexRun(h + rest) == |h|
  {
    if h != [] {
      assert (h + rest)[1..] == h[1..] + rest;
      HexRunOf(h[1..], rest);
    } else {
      assert h + rest == rest;
    }
  }

  lemma {:induction false} BarAtOf(t: Text, rest: Text)
    requires BAR !in t
    ensures BarAt(t + [BAR] + rest) == Some(|t|)
  {
    var s := t + [BAR] + rest;
    if t != [] {
      assert s[1..] == t[1..] + [BAR] + rest;
      BarAtOf(t[1..], rest);
    }
  }

  /** The parser finds exactly the hex columns, whatever the ASCII column holds. */
  lemma {:induction false} BodyOfLine(addr: U32, chunk: seq<Byte>)
    requires chunk != []
    ensures LineBody(Line(addr, chunk)) == Some(Cells(chunk, 0) + [SPACE])
  {
    hide Hex, Cells, Shown, HexRun, BarAt, AllHex, AllShown;
    var line, h, cells := Line(addr, chunk), Hex(addr), Cells(chunk, 0);
    var tail := Shown(chunk) + [BAR];
    HexIsHex(addr);
    CellsShown(chunk, 0);
    FirstCell(chunk);
    var after := cells + [SPACE] + [BAR] + tail;
    assert line == ZERO_X + (h + ([COLON] + ([SPACE] + after)));
    assert SkipSpaces(line) == line && line[..2] == ZERO_X && line[2..] == h + ([COLON] + ([SPACE] + after));
    HexRunOf(h, [COLON] + ([SPACE] + after));
    assert line[2 + |h|] == COLON && line[3 + |h|..] == [SPACE] + after;
    assert ([SPACE] + after)[1..] == after && SkipSpaces([SPACE] + after) == SkipSpaces(after);
    assert SkipSpaces(after) == after;
    BarAtOf(cells + [SPACE], tail);
    assert after[..|cells| + 1] == cells + [SPACE];
  }

  lemma {:induction false} FirstCell(chunk: seq<Byte>)
    requires chunk != []
    ensures Cells(chunk, 0) != [] && !IsSpace(Cells(chunk, 0)[0])
  {
    NibbleOfDigit(chunk[0] / 16);
    assert Cells(chunk, 0) == Cell(chunk, 0) + Cells(chunk, 1);
  }

  lemma {:induction false} TokenFirst(b: Byte, rest: Text)
    ensures Tokens(HexByte(b) + [SPACE] + rest) == [HexByte(b)] + Tokens([SPACE] + rest)
  {
    hide HexDigit;
    var t := HexByte(b) + [SPACE] + rest;
    NibbleOfDigit(b / 16);
    NibbleOfDigit(b % 16);
    assert t[1..][1..] == [SPACE] + rest && t[2..] == [SPACE] + rest && t[..2] == HexByte(b);
    assert WordEnd(t[1..][1..]) == 0 && WordEnd(t[1..]) == 1 && WordEnd(t) == 2;
  }

  lemma {:induction false} TokensSkip(rest: Text)
    ensures Tokens([SPACE] + rest) == Tokens(rest)
  {
    assert ([SPACE] + rest)[1..] == rest;
  }

  lemma {:induction false} TokenBytesCons(t: Text, ts: seq<Text>)
    ensures TokenBytes([t] + ts) == TokenByte(t) + TokenBytes(ts)
  {
    hide TokenByte;
    if ts == [] {
      assert [t] + ts == [t] && [t][..0] == [];
    } else {
      assert ([t] + ts)[..|ts|] == [t] + ts[..|ts| - 1];
      TokenBytesCons(t, ts[..|ts| - 1]);
    }
  }

  lemma {:induction false} SpelledByte(b: Byte)
    ensures TokenByte(HexByte(b)) == [b]
  {
    NibbleOfDigit(b / 16);
    NibbleOfDigit(b % 16);
  }

  lemma {:induction false} CellsRead(chunk: seq<Byte>, col: nat)
    requires |chunk| <= BYTES_PER_LINE
    ensures TokenBytes(Tokens(Cells(chunk, col) + [SPACE])) == if col < |chunk| then chunk[col..] else []
    decreases BYTES_PER_LINE - col
  {
    hide Tokens, TokenBytes, TokenByte, HexByte, Cells, Cell;
    if col >= BYTES_PER_LINE {
      BlankTokens();
      NoCells(chunk, col);
    } else {
      CellsRead(chunk, col + 1);
      CellsStep(chunk, col);
      CellAt(chunk, col);
      CellRead(chunk, col, Cells(chunk, col + 1) + [SPACE]);
      ConcatAssoc(Cell(chunk, col), Cells(chunk, col + 1), [SPACE]);
    }
  }

  lemma {:induction false} NoCells(chunk: seq<Byte>, col: nat)
    requires col >= BYTES_PER_LINE
    ensures Cells(chunk, col) + [SPACE] == [SPACE] + []
  {
  }

  lemma {:induction false} CellRead(chunk: seq<Byte>, col: nat, more: Text)
    ensures TokenBytes(Tokens(Cell(chunk, col) + more))
            == (if col < |chunk| then [chunk[col]] else []) + TokenBytes(Tokens(more))
  {
    hide Tokens, TokenBytes, TokenByte, HexByte;
    if col < |chunk| {
      var b := chunk[col];
      TokenFirst(b, more);
      TokensSkip(more);
      TokenBytesCons(HexByte(b), Tokens(more));
      SpelledByte(b);
    } else {
      assert Cell(chunk, col) + more == [SPACE] + ([SPACE] + ([SPACE] + more));
      TokensSkip([SPACE] + ([SPACE] + more));
      TokensSkip([SPACE] + more);
      TokensSkip(more);
    }
  }

  lemma {:induction false} BlankTokens()
    ensures TokenBytes(Tokens([SPACE] + [])) == []
  {
    TokensSkip([]);
  }

  lemma {:induction false} LineRead(addr: U32, chunk: seq<Byte>)
    requires 0 < |chunk| <= BYTES_PER_LINE
    ensures LineBytes(Line(addr, chunk)) == chunk
  {
    hide LineBody, Line, Cells, Tokens, TokenBytes;
    BodyOfLine(addr, chunk);
    CellsRead(chunk, 0);
  }

  lemma {:induction false} LinesBytesCons(l: Text, ls: seq<Text>)
    ensures LinesBytes([l] + ls) == LineBytes(l) + LinesBytes(ls)
  {
    hide LineBytes;
    if ls == [] {
      assert [l] + ls == [l] && [l][..0] == [];
    } else {
      assert ([l] + ls)[..|ls|] == [l] + ls[..|ls| - 1];
      LinesBytesCons(l, ls[..|ls| - 1]);
    }
  }

  lemma {:induction false} DumpRead(base: U32, data: seq<Byte>, off: nat)
    ensures LinesBytes(SplitLines(Dump(base, data, off))) == if off < |data| then data[off..] else []
    decreases |data| - off
  {
    hide Line, LineBytes, LinesBytes, SplitLines, AllShown;
    if off < |data| {
      var chunk := ChunkAt(data, off);
      var line := Line((base + off) % 0x1_0000_0000, chunk);
      var rest := Dump(base, data, off + BYTES_PER_LINE);
      LineShown((base + off) % 0x1_0000_0000, chunk);
      SplitFirst(line, rest);
      LinesBytesCons(line, SplitLines(rest));
      LineRead((base + off) % 0x1_0000_0000, chunk);
      DumpRead(base, data, off + BYTES_PER_LINE);
      assert data[off..] == chunk + if off + BYTES_PER_LINE < |data| then data[off + BYTES_PER_LINE..] else [];
    } else {
      NothingRead();
    }
  }

  lemma {:induction false} NothingRead()
    ensures LinesBytes(SplitLines([])) == []
  {
  }

  /** Print and parse: for every address and every bytes, the parser gives the dumped bytes back. */
  lemma {:induction false} DumpRoundTrip(base: U32, data: seq<Byte>)
    ensures LinesBytes(SplitLines(Dump(base, data, 0))) == data
  {
    DumpRead(base, data, 0);
  }

  // ---- Addresses and characters ----------------------------------------------------------------------------

  /** The number a run of hex digits stands for. */
  function HexValue(t: Text): nat {
    if t == [] then 0 else 16 * HexValue(t[..|t| - 1]) + HexNibble(t[|t| - 1]).GetOr(0)
  }

  lemma {:induction false} HexValueOf(v: nat)
    ensures HexValue(Hex(v)) == v
  {
    if v < 16 {
      NibbleOfDigit(v);
      assert Hex(v)[..0] == [];
      assert HexValue([]) == 0;
    } else {
      HexValueOf(v / 16);
      NibbleOfDigit(v % 16);
      assert Hex(v)[..|Hex(v / 16)|] == Hex(v / 16);
    }
  }

  /**
   A line for these bytes: "0x", the address in hex, a colon and a blank, 48 characters
   of columns, and between bars every byte as its character, or as a dot when it has
   none.
   */
  ghost predicate LineShows(line: Text, addr: nat, chunk: seq<Byte>) {
    && |line| > 55 + |chunk|
    && var n := |line| - 55 - |chunk|;
       && line[..2] == [0x30, 0x78] && AllHex(line[2..2 + n]) && HexValue(line[2..2 + n]) == addr
       && line[2 + n..4 + n] == [0x3A, 0x20] && line[n + 52..n + 54] == [0x20, 0x7C]
       && line[|line| - 1] == 0x7C
       && forall i :: 0 <= i < |chunk| ==>
            line[n + 54 + i] == if 0x20 <= chunk[i] <= 0x7E then chunk[i] else 0x2E
  }

  lemma {:induction false} CellsWidth(chunk: seq<Byte>, col: nat)
    requires col <= BYTES_PER_LINE
    ensures |Cells(chunk, col)| == 3 * (BYTES_PER_LINE - col)
    decreases BYTES_PER_LINE - col
  {
    if col < BYTES_PER_LINE {
      CellsWidth(chunk, col + 1);
    }
  }

  lemma {:induction false} LineStands(addr: U32, chunk: seq<Byte>)
    ensures LineShows(Line(addr, chunk), addr, chunk)
  {
    hide Hex, Cells, HexValue, AllHex;
    var line, h, cells := Line(addr, chunk), Hex(addr), Cells(chunk, 0);
    var n := |h|;
    HexIsHex(addr);
    HexValueOf(addr);
    CellsWidth(chunk, 0);
    var shown := Shown(chunk);
    assert line[2..2 + n] == h && line[2 + n..4 + n] == [COLON, SPACE] && line[n + 52..n + 54] == [SPACE, BAR];
    assert |shown| == |chunk| && line[n + 54..n + 54 + |chunk|] == shown;
    forall i | 0 <= i < |chunk| ensures line[n + 54 + i] == shown[i] {
      assert line[n + 54..n + 54 + |chunk|][i] == shown[i];
    }
  }

  lemma {:induction false} DumpLineFrom(base: U32, data: seq<Byte>, off: nat, k: nat)
    requires off + 16 * k < |data|
    ensures k < |SplitLines(Dump(base, data, off))|
    ensures LineShows(SplitLines(Dump(base, data, off))[k], (base + off + 16 * k) % 0x1_0000_0000,
                      data[off + 16 * k..Min(off + 16 * k + 16, |data|)])
    decreases k
  {
    hide Line, SplitLines, AllShown, LineShows;
    var line := Line((base + off) % 0x1_0000_0000, ChunkAt(data, off));
    LineShown((base + off) % 0x1_0000_0000, ChunkAt(data, off));
    SplitFirst(line, Dump(base, data, off + BYTES_PER_LINE));
    if k == 0 {
      LineStands((base + off) % 0x1_0000_0000, ChunkAt(data, off));
    } else {
      DumpLineFrom(base, data, off + BYTES_PER_LINE, k - 1);
    }
  }

  /**
   Every line of a dump names the address of its first byte, 16 on from the line
   before, and shows its characters.
   */
  lemma {:induction false} DumpLine(base: U32, data: seq<Byte>, k: nat)
    requires 16 * k < |data|
    ensures k < |SplitLines(Dump(base, data, 0))|
    ensures LineShows(SplitLines(Dump(base, data, 0))[k], (base + 16 * k) % 0x1_0000_0000,
                      data[16 * k..Min(16 * k + 16, |data|)])
  {
    hide LineShows, SplitLines, Dump;
    DumpLineFrom(base, data, 0, k);
  }

  // ---- Hex arguments -----------------------------------------------------------------------------------

  function StripHexPrefix(t: Text): Text {
    if |t| >= 2 && t[0] == 0x30 && (t[1] == 0x78 || t[1] == 0x58) then t[2..] else t
  }

  /** The bytes an even-length run of hex digits spells. */
  function HexBytes(body: Text): Option<seq<Byte>>
    requires |body| % 2 == 0
  {
    if body == [] then Some([])
    else
      var n := |body| - 2;
      var init, high, low := HexBytes(body[..n]), HexNibble(body[n]), HexNibble(body[n + 1]);
      if init.None? || high.None? || low.None? then None else Some(init.value + [16 * high.value + low.value])
  }

  method ParseHexBytes(text: Text) returns (out: Option<seq<Byte>>)
    ensures var body := StripHexPrefix(text);
            out == if body == [] || |body| % 2 != 0 || |body| / 2 > MAX_POKE_LEN then None else HexBytes(body)
  {
    var body := StripHexPrefix(text);
    if body == [] || |body| % 2 != 0 || |body| / 2 > MAX_POKE_LEN {
      return None;
    }
    var bytes := [];
    var i := 0;
    while i < |body|
      invariant i <= |body| && i % 2 == 0 && HexBytes(body[..i]) == Some(bytes)
    {
      assert body[..i + 2][..i] == body[..i];
      var high, low := HexNibble(body[i]), HexNibble(body[i + 1]);
      if high.None? || low.None? {
        NotHex(body, i);
        return None;
      }
      bytes := bytes + [16 * high.value + low.value];
      i := i + 2;
    }
    assert body[..i] == body;
    return Some(bytes);
  }

  lemma {:induction false} NotHex(body: Text, i: nat)
    requires |body| % 2 == 0 && i % 2 == 0 && i < |body|
    requires HexNibble(body[i]).None? || HexNibble(body[i + 1]).None?
    ensures HexBytes(body) == None
  {
    if i < |body| - 2 {
      NotHex(body[..|body| - 2], i);
    }
  }

  /** A poke argument is accepted exactly when every character is a hex digit. */
  lemma {:induction false} HexBytesExact(body: Text)
    requires |body| % 2 == 0
    ensures HexBytes(body).Some? <==> AllHex(body)
  {
    hide HexNibble;
    if body != [] {
      var n := |body| - 2;
      HexBytesExact(body[..n]);
      assert forall i :: 0 <= i < n ==> body[..n][i] == body[i];
    }
  }

  function Spell(data: seq<Byte>): Text {
    if data == [] then [] else Spell(data[..|data| - 1]) + HexByte(data[|data| - 1])
  }

  lemma {:induction false} HexBytesSnoc(t: Text, data: seq<Byte>, b: Byte)
    requires |t| % 2 == 0 && HexBytes(t) == Some(data)
    ensures HexBytes(t + HexByte(b)) == Some(data + [b])
  {
    hide HexDigit, HexNibble;
    NibbleOfDigit(b / 16);
    NibbleOfDigit(b % 16);
    assert (t + HexByte(b))[..|t|] == t;
  }

  /** Spelling bytes in hex and parsing them gives the bytes back. */
  lemma {:induction false} SpellRoundTrip(data: seq<Byte>)
    ensures |Spell(data)| == 2 * |data| && HexBytes(Spell(data)) == Some(data)
  {
    hide HexDigit, HexBytes;
    if data == [] {
      NoHex();
    } else {
      var n := |data| - 1;
      SpellRoundTrip(data[..n]);
      HexBytesSnoc(Spell(data[..n]), data[..n], data[n]);
      assert data == data[..n] + [data[n]];
    }
  }

  lemma {:induction false} NoHex()
    ensures HexBytes([]) == Some([])
  {
  }
}
