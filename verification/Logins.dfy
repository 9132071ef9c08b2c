/**
 What a LOGIN body means, byte by byte: which bodies carry which names, where the
 two accepted shapes could be confused, and what a completed login queues.
 */
module Logins {
  import opened Bits
  import opened Cursors
  import opened Framing
  import opened Queues
  import opened Packets
  import opened Protocol
  import opened Sessions
  import Opcodes

  // ---- Bytes under a cursor -----------------------------------------------------------------

  lemma {:induction false} TakeByte(b: seq<Byte>)
    ensures ReadByte(Start(b)).1 == if b == [] then None else Some(b[0])
    ensures b != [] ==> ReadByte(Start(b)).0 == Start(b[1..])
  {
    if b != [] {
      ByteValue(b[0]);
      var bits := Unpack(b);
      assert bits[..8] == BitsOf(b[0], 8) && bits[8..] == Unpack(b[1..]);
    }
  }

  lemma {:induction false} TakeU16(b: seq<Byte>)
    ensures ReadU16(Start(b)).1 == if |b| < 2 then None else Some(FromBigEndian(b))
    ensures |b| >= 2 ==> ReadU16(Start(b)).0 == Start(b[2..])
  {
    hide BitsOf, ValueOf;
    var bits := Unpack(b);
    if |b| >= 2 {
      FirstTwo(b);
      Pow2Values();
      BitsOfJoined(b[0], b[1], 8, 8);
      ValueOfBitsOf(FromBigEndian(b), 16);
      DivModUnique(FromBigEndian(b), 0x1_0000, 0, FromBigEndian(b));
    }
  }

  lemma {:induction false} FirstTwo(b: seq<Byte>)
    requires |b| >= 2
    ensures Unpack(b)[..16] == BitsOf(b[0], 8) + BitsOf(b[1], 8)
    ensures Unpack(b)[16..] == Unpack(b[2..])
  {
    hide BitsOf;
    assert b == b[..2] + b[2..];
    UnpackConcat(b[..2], b[2..]);
    assert b[..2] == [b[0]] + [b[1]];
    UnpackConcat([b[0]], [b[1]]);
    OneByte(b[0]);
    OneByte(b[1]);
  }

  lemma {:induction false} OneByte(x: Byte)
    ensures Unpack([x]) == BitsOf(x, 8)
  {
    assert [x][1..] == [];
    assert Unpack([x]) == BitsOf(x, 8) + Unpack([]);
  }

  lemma {:induction false} TakeChars(b: seq<Byte>, n: nat)
    ensures n <= |b| ==> ReadChars(Start(b), n) == (Start(b[n..]), Some(b[..n]))
    ensures n > |b| ==> ReadChars(Start(b), n).1 == None
    decreases n
  {
    hide ReadByte;
    if n > 0 {
      TakeByte(b);
      if b != [] {
        TakeChars(b[1..], n - 1);
        if n <= |b| {
          assert [b[0]] + b[1..][..n - 1] == b[..n];
        }
      }
    }
  }

  // ---- Texts -------------------------------------------------------------------------------------

  datatype Split = Split(text: Text, rest: seq<Byte>)

  /** A text at the front of some bytes: its length with the terminator, its bytes, a zero. */
  function FrontText(b: seq<Byte>, cap: nat): Option<Split> {
    if |b| < 2 then None
    else
      var n := FromBigEndian(b);
      if n == 0 || n > cap || |b| < 2 + n || b[1 + n] != 0 then None
      else Some(Split(b[2..1 + n], b[2 + n..]))
  }

  /** Reading a text is exactly splitting it off the front. */
  lemma {:induction false} ReadStringExact(b: seq<Byte>, cap: nat)
    ensures var f, r := FrontText(b, cap), ReadString(Start(b), cap);
            if f.None? then r.1.None? else r == (Start(f.value.rest), Some(f.value.text))
  {
    hide ReadU16, ReadChars, ReadByte;
    TakeU16(b);
    if |b| >= 2 && 0 < FromBigEndian(b) <= cap {
      var n := FromBigEndian(b);
      TakeChars(b[2..], n - 1);
      if n - 1 <= |b| - 2 {
        TakeByte(b[2..][n - 1..]);
        assert b[2..][..n - 1] == b[2..1 + n] && b[2..][n - 1..] == b[1 + n..];
      }
    }
  }

  /** How a client puts a text on the wire, byte for byte. */
  function TextBytes(t: Text): seq<Byte>
    requires |t| < 0xFFFF
  {
    BigEndian(|t| + 1) + t + [0]
  }

  lemma {:induction false} FrontTextBytes(t: Text, rest: seq<Byte>, cap: nat)
    requires |t| < 0xFFFF
    ensures FrontText(TextBytes(t) + rest, cap) == if |t| < cap then Some(Split(t, rest)) else None
  {
    var b := TextBytes(t) + rest;
    assert b == BigEndian(|t| + 1) + t + ([0] + rest);
    assert |b| >= 2 && FromBigEndian(b) == |t| + 1;
    assert b[2..2 + |t|] == t && b[2 + |t|] == 0 && b[3 + |t|..] == rest;
  }

  lemma {:induction false} TakeTextBytes(t: Text, rest: seq<Byte>)
    requires |t| < 0xFFFF
    ensures TakeAcceptable(Start(TextBytes(t) + rest)).1 == if GoodName(t) then Some(t) else None
    ensures GoodName(t) ==> TakeAcceptable(Start(TextBytes(t) + rest)).0 == Start(rest)
  {
    hide ReadString, TextBytes, Printable, FrontText;
    FrontTextBytes(t, rest, MAX_STRING_LEN);
    ReadStringExact(TextBytes(t) + rest, MAX_STRING_LEN);
  }

  // ---- The two shapes of a login ------------------------------------------------------------------

  /** A name alone is read as itself, whatever follows it. */
  lemma {:induction false} DirectLogin(t: Text, rest: seq<Byte>)
    requires GoodName(t)
    ensures ReadLogin(Start(TextBytes(t) + rest)) == Some(Login(t, None))
  {
    hide TakeAcceptable, TextBytes, Printable;
    TakeTextBytes(t, rest);
  }

  function TypedBody(user: Text, pass: Text, rest: seq<Byte>): seq<Byte>
    requires |user| < 0xFFFF && |pass| < 0xFFFF
  {
    [0] + (TextBytes(user) + (TextBytes(pass) + rest))
  }

  /** The type byte and the high length byte, read as a text length, decide which shape a typed body is taken for. */
  lemma {:induction false} TypedFront(user: Text, rest: seq<Byte>)
    requires GoodName(user)
    ensures TakeAcceptable(Start([0] + (TextBytes(user) + rest))).1 == if |user| == 255 then Some([]) else None
  {
    hide ReadString;
    var b := [0] + (TextBytes(user) + rest);
    assert b == [0, (|user| + 1) / 0x100, (|user| + 1) % 0x100] + user + ([0] + rest);
    assert FromBigEndian(b) == if |user| == 255 then 1 else 0;
    ReadStringExact(b, MAX_STRING_LEN);
    if |user| == 255 {
      assert b[2] == 0 && b[2..2] == [];
    }
  }

  /**
   A type-0 body is read as user name and password, trailing bytes ignored,
   exactly when the user name has at most 254 characters; with 255 the type byte
   and the length read as an empty name. A password the server would not accept
   counts as absent.
   */
  lemma {:induction false} TypedLogin(user: Text, pass: Text, rest: seq<Byte>)
    requires GoodName(user) && |pass| < 0xFFFF
    ensures ReadLogin(Start(TypedBody(user, pass, rest)))
            == if |user| == 255 then Some(Login([], None))
               else Some(Login(user, if GoodName(pass) then Some(pass) else None))
  {
    hide TakeAcceptable, TextBytes, Printable, ReadByte;
    var more := TextBytes(pass) + rest;
    var b := TypedBody(user, pass, rest);
    TypedFront(user, more);
    TakeByte(b);
    assert b[1..] == TextBytes(user) + more;
    TakeTextBytes(user, more);
    TakeTextBytes(pass, rest);
  }

  // ---- What a login does ----------------------------------------------------------------------------

  lemma {:induction false} DrainOne(s: Step, f: Frame, n: nat)
    requires Sendable(f) && n >= 2 && !s.close && s.conn.tcp == Acc(FrameBytes(f), false)
    requires FrameOf(s.conn.(tcp := Acc([], false)), f).ok &&
             FrameOf(s.conn.(tcp := Acc([], false)), f).conn.tcp == Acc([], false)
    ensures Drain(s, n) == AfterFrame(s, FrameOf(s.conn.(tcp := Acc([], false)), f))
  {
    hide FrameOf, NextStep;
    var popped := s.(conn := s.conn.(tcp := Acc([], false)));
    NextOfOne(f);
    var s' := AfterFrame(popped, FrameOf(popped.conn, f));
    NextOfNone();
    assert Drain(s', n - 1) == s';
  }

  lemma {:induction false} NextOfOne(f: Frame)
    requires Sendable(f)
    ensures NextStep(Acc(FrameBytes(f), false)) == (Acc([], false), Some(f))
  {
    var e := FrameBytes(f);
    assert FromBigEndian(e) == |e| && e[3..|e|] == f.body && e[|e|..] == [];
  }

  lemma {:induction false} NextOfNone()
    ensures NextStep(Acc([], false)) == (Acc([], false), None)
  {
  }

  /** One whole frame, arriving at an empty buffer, does what handling it does. */
  lemma {:induction false} OneFrameStep(c: Conn, f: Frame)
    requires Sendable(f) && c.tcp == Acc([], false) && c.state != Closed
    requires FrameOf(c, f).ok && FrameOf(c, f).conn.tcp == c.tcp
    ensures var h := FrameOf(c, f);
            TcpStep(c, FrameBytes(f)) == Step(h.conn, h.cmds, h.out, [], [], false)
  {
    hide FrameOf, FrameBytes, Drain;
    FedOne(f);
    var fed := Still(c.(tcp := Acc(FrameBytes(f), false)));
    assert c.(tcp := Acc([], false)) == c && fed.conn.(tcp := Acc([], false)) == c;
    DrainOne(fed, f, MAX_FRAMES_PER_DRAIN);
    var h := FrameOf(c, f);
    assert [] + h.cmds == h.cmds && [] + h.out == h.out;
  }

  lemma {:induction false} FedOne(f: Frame)
    requires Sendable(f)
    ensures FeedStep(Acc([], false), FrameBytes(f)) == Acc(FrameBytes(f), false) &&
            |FrameBytes(f)| <= MAX_BUFFERED_BYTES
  {
    assert [] + FrameBytes(f) == FrameBytes(f);
  }

  function LoginFrame(body: seq<Byte>): Frame {
    Frame(Opcodes.LOGIN, body)
  }

  lemma {:induction false} LoginFrameOf(c: Conn, body: seq<Byte>)
    ensures c.state == AwaitingUsername ==> FrameOf(c, LoginFrame(body)) == UsernameOf(c, Start(body))
    ensures c.state == AwaitingPassword ==> FrameOf(c, LoginFrame(body)) == PasswordOf(c, Start(body))
  {
    hide UsernameOf, PasswordOf;
  }

  function LoggedInAs(c: Conn, user: Text): Conn {
    c.(username := user, state := Verified)
  }

  function LoginCommands(id: nat, user: Text, pass: Text): seq<ClientCommand> {
    [Plain(LoginUser, id, user), Plain(LoginPassword, id, pass), Plain(ClientConnected, id, user)]
  }

  /**
   A client that sends name and password in one typed LOGIN is verified under that name
   and gets the whole bring-up.
   */
  lemma {:induction false} TypedLoginCompletes(c: Conn, user: Text, pass: Text, rest: seq<Byte>)
    requires c.state == AwaitingUsername && c.tcp == Acc([], false)
    requires GoodName(user) && |user| <= 254 && GoodName(pass) && Sendable(LoginFrame(TypedBody(user, pass, rest)))
    ensures var c' := LoggedInAs(c, user);
            TcpStep(c, FrameBytes(LoginFrame(TypedBody(user, pass, rest))))
            == Step(c', LoginCommands(c.sessionId, user, pass), Bringup(c'), [], [], false)
  {
    hide ReadLogin, TypedBody, Printable, Bringup, FrameOf, TcpStep, FrameBytes;
    var body := TypedBody(user, pass, rest);
    TypedLogin(user, pass, rest);
    LoginFrameOf(c, body);
    OneFrameStep(c, LoginFrame(body));
  }

  /**
   A client that sends the name alone is asked for the password and, once it sends
   it, has queued the same commands and ends in the same state with the same
   bring-up as one that sent both at once.
   */
  lemma {:induction false} TwoStepLoginCompletes(c: Conn, user: Text, pass: Text)
    requires c.state == AwaitingUsername && c.tcp == Acc([], false) && GoodName(user) && GoodName(pass)
    ensures var first := TcpStep(c, FrameBytes(LoginFrame(TextBytes(user))));
            var second := TcpStep(first.conn, FrameBytes(LoginFrame(TextBytes(pass))));
            var c' := LoggedInAs(c, user);
            && first.tcpOut == LoginStatus(true, ASK_PASSWORD) && !first.close && second.conn == c' && !second.close
            && first.cmds + second.cmds == LoginCommands(c.sessionId, user, pass) && second.tcpOut == Bringup(c')
  {
    hide ReadLogin, TextBytes, Printable, Bringup, FrameOf, TcpStep, FrameBytes, LoginStatus;
    DirectWhole(user);
    DirectWhole(pass);
    LoginFrameOf(c, TextBytes(user));
    OneFrameStep(c, LoginFrame(TextBytes(user)));
    var c1 := c.(username := user, state := AwaitingPassword);
    LoginFrameOf(c1, TextBytes(pass));
    OneFrameStep(c1, LoginFrame(TextBytes(pass)));
  }

  lemma {:induction false} DirectWhole(t: Text)
    requires GoodName(t)
    ensures ReadLogin(Start(TextBytes(t))) == Some(Login(t, None)) && Sendable(LoginFrame(TextBytes(t)))
  {
    hide ReadLogin, Printable;
    DirectLogin(t, []);
    assert TextBytes(t) + [] == TextBytes(t);
  }
}
