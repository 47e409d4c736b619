/** Multiplexing of eight terminal lines over one serial line (vtcp/main.c): a packet is a header
    with the top bit set, a line number and a count up to 15, followed by that many 7-bit
    characters. */
module Multiplex {
  import opened Bytes

  const LINES: nat := 8

  /** c & 0x7f */
  function Seven(c: byte): byte
  {
    c % 128
  }

  function Masked(s: seq<byte>): (r: seq<byte>)
    ensures |r| == |s|
  {
    if s == [] then [] else [Seven(s[0])] + Masked(s[1..])
  }

  /** The top bit is taken off each character, and nothing else happens to it. */
  lemma {:induction false} MaskedChars(s: seq<byte>)
    ensures forall i: nat :: i < |s| ==> Masked(s)[i] == if s[i] < 128 then s[i] else s[i] - 128
  {
    if s != [] {
      MaskedChars(s[1..]);
      forall i: nat | i < |s| ensures Masked(s)[i] == if s[i] < 128 then s[i] else s[i] - 128 {
        if i > 0 { assert Masked(s)[i] == Masked(s[1..])[i - 1] && s[i] == s[1..][i - 1]; }
      }
    }
  }

  /** Seven-bit characters. */
  predicate IsPlain(s: seq<byte>)
  {
    forall i: nat :: i < |s| ==> s[i] < 128
  }

  lemma PlainStays(s: seq<byte>)
    ensures IsPlain(s) ==> Masked(s) == s
  {
    MaskedChars(s);
  }

  lemma {:induction false} MaskedAppend(s: seq<byte>, t: seq<byte>)
    ensures Masked(s + t) == Masked(s) + Masked(t)
  {
    if s == [] {
      assert s + t == t;
    } else {
      assert (s + t)[1..] == s[1..] + t;
      MaskedAppend(s[1..], t);
    }
  }

  // ---------------------------------------------------------------
  // The receiver
  // ---------------------------------------------------------------

  /** What the receiver keeps between characters, and what each line has received. */
  datatype Receiver = Receiver(len: nat, line: nat, got: seq<seq<byte>>)
  {
    predicate Ok()
    {
      len < 16 && line < LINES && |got| == LINES
    }
  }

  /** The receiver after one character of a multiplexed stream. */
  function Received(r: Receiver, c: byte): (r': Receiver)
    requires r.Ok()
    ensures r'.Ok()
  {
    if c >= 128 then r.(line := c / 16 % 8, len := c % 16)
    else if r.len > 0 then r.(len := r.len - 1, got := r.got[r.line := r.got[r.line] + [c]])
    else r
  }

  function ReceivedAll(r: Receiver, s: seq<byte>): (r': Receiver)
    requires r.Ok()
    ensures r'.Ok()
    decreases |s|
  {
    if s == [] then r else ReceivedAll(Received(r, s[0]), s[1..])
  }

  lemma {:induction false} ReceivedAppend(r: Receiver, s: seq<byte>, t: seq<byte>)
    requires r.Ok()
    ensures ReceivedAll(r, s + t) == ReceivedAll(ReceivedAll(r, s), t)
    decreases |s|
  {
    if s == [] {
      assert s + t == t;
    } else {
      assert (s + t)[1..] == s[1..] + t;
      ReceivedAppend(Received(r, s[0]), s[1..], t);
    }
  }

  /** The receiver's variables and the lines it serves. */
  class Port {
    const mxmode: bool
    var len: nat
    var line: nat
    var got: seq<seq<byte>>

    constructor (mxmode: bool)
      ensures this.mxmode == mxmode && State() == Receiver(0, 0, seq(LINES, _ => []))
    {
      this.mxmode := mxmode;
      len, line, got := 0, 0, seq(LINES, _ => []);
    }

    ghost function State(): Receiver
      reads this
    {
      Receiver(len, line, got)
    }

    /** process_serial_char: without multiplexing every character goes to line 0. */
    method ProcessSerialChar(c: byte) returns (taken: bool)
      requires State().Ok()
      modifies this
      ensures State().Ok()
      ensures mxmode ==> State() == Received(old(State()), c)
      ensures mxmode ==> (taken <==> c >= 128 || old(len) > 0)
      ensures !mxmode ==> taken && State() == Receiver(0, old(line), old(got)[0 := old(got)[0] + [c]])
    {
      if mxmode {
        if c >= 128 {
          line := c / 16 % 8;
          len := c % 16;
        } else if len > 0 {
          len := len - 1;
          got := got[line := got[line] + [c]];
        } else {
          return false;
        }
      } else {
        got := got[0 := got[0] + [c]];
        len := 0;
      }
      return true;
    }

    /** A stream of serial characters. */
    method ProcessSerial(s: seq<byte>)
      requires State().Ok() && mxmode
      modifies this
      ensures State() == ReceivedAll(old(State()), s)
    {
      var i := 0;
      while i < |s|
        invariant i <= |s| && State().Ok()
        invariant ReceivedAll(old(State()), s) == ReceivedAll(State(), s[i..])
      {
        var _ := ProcessSerialChar(s[i]);
        assert s[i..][1..] == s[i + 1..];
        i := i + 1;
      }
    }
  }

  // ---------------------------------------------------------------
  // The sender
  // ---------------------------------------------------------------

  /** 0x80 | (line & 7) << 4 | len */
  function Header(line: nat, len: nat): byte
    requires len < 16
  {
    128 + 16 * (line % 8) + len
  }

  /** Line and count in the bits of a header, as both ends of the line have them. */
  lemma WireFormat(line: nat, len: nat, r: Receiver, c: byte)
    requires len < 16 && r.Ok()
    ensures Header(line, len) == Or(Or(0x80, 16 * And(line, 7)), len)
    ensures And(c, 0x80) != 0 ==> Received(r, c) == r.(line := And(c / 16, 7), len := And(c, 15))
    ensures And(c, 0x80) == 0 ==> Received(r, c) == if r.len > 0 then r.(len := r.len - 1, got := r.got[r.line := r.got[r.line] + [c]]) else r
  {
    assert Pow2(3) == 8 && Pow2(4) == 16 && Pow2(7) == 128 by { Powers(); }
    LowDigits(line);
    LowDigits(c);
    LowDigits(c / 16);
    OrBelow(1, 16 * (line % 8), 7);
    OrBelow(8 + line % 8, len, 4);
    TopDigit(c);
  }

  lemma Powers()
    ensures Pow2(3) == 8 && Pow2(4) == 16 && Pow2(7) == 128
  {
    assert Pow2(1) == 2 && Pow2(2) == 4 && Pow2(5) == 32 && Pow2(6) == 64;
  }

  lemma TopDigit(c: byte)
    ensures And(c, 0x80) != 0 <==> c >= 128
  {
    Powers();
    MaskOperators(c, 7);
    TopIs(c, 7);
  }

  lemma {:induction false} TopIs(a: nat, n: nat)
    requires a < 2 * Pow2(n)
    ensures Digit(a, n) <==> a >= Pow2(n)
  {
    if n > 0 { TopIs(a / 2, n - 1); }
  }

  /** The low digits of a number. */
  lemma LowDigits(a: nat)
    ensures And(a, 7) == a % 8 && And(a, 15) == a % 16
  {
    LowThree(a);
    LowThree(a / 2);
    AndStep(a, 15, 7);
    HalfOf16(a);
  }

  lemma LowThree(a: nat)
    ensures And(a, 7) == a % 8
  {
    LowTwo(a / 2);
    AndStep(a, 7, 3);
    HalfOf8(a);
  }

  lemma LowTwo(a: nat)
    ensures And(a, 3) == a % 4
  {
    AndZero(a / 4);
    AndStep(a / 2, 1, 0);
    AndStep(a, 3, 1);
    HalfOf4(a);
  }

  lemma AndStep(a: nat, b: nat, c: nat)
    requires b == 2 * c + 1
    ensures And(a, b) == 2 * And(a / 2, c) + a % 2
  {
  }

  lemma HalfOf16(a: nat)
    ensures a % 16 == 2 * (a / 2 % 8) + a % 2
  {
    assert a / 2 == 8 * (a / 16) + a % 16 / 2;
  }

  lemma HalfOf8(a: nat)
    ensures a % 8 == 2 * (a / 2 % 4) + a % 2
  {
    assert a / 2 == 4 * (a / 8) + a % 8 / 2;
  }

  lemma HalfOf4(a: nat)
    ensures a % 4 == 2 * (a / 2 % 2) + a % 2 && a / 2 / 2 == a / 4
  {
  }

  /** Digits put below others. */
  lemma {:induction false} OrBelow(a: nat, b: nat, n: nat)
    requires b < Pow2(n)
    ensures Or(a * Pow2(n), b) == a * Pow2(n) + b
  {
    if n == 0 {
      AndZero(a);
    } else {
      var y := a * Pow2(n - 1);
      assert a * Pow2(n) == 2 * y;
      OrBelow(a, b / 2, n - 1);
      OrStep(y, b);
    }
  }

  lemma OrStep(y: nat, b: nat)
    ensures Or(2 * y, b) == 2 * Or(y, b / 2) + b % 2
  {
  }

  /** The receiver that has got a complete message for a line. */
  function Delivered(r: Receiver, line: nat, s: seq<byte>): (r': Receiver)
    requires r.Ok()
    ensures r'.Ok()
  {
    Receiver(0, line % 8, r.got[line % 8 := r.got[line % 8] + Masked(s)])
  }

  /** A header and as many characters as it announces reach the announced line, whatever the
      receiver was waiting for. */
  lemma {:induction false} PacketArrives(r: Receiver, line: nat, s: seq<byte>)
    requires r.Ok() && |s| < 16
    ensures ReceivedAll(r, [Header(line, |s|)] + Masked(s)) == Delivered(r, line, s)
  {
    var p := [Header(line, |s|)] + Masked(s);
    var r1 := Received(r, p[0]);
    assert p[1..] == Masked(s);
    CharsArrive(r1, s);
    assert r.got[line % 8] + Masked(s) == r1.got[line % 8] + Masked(s);
  }

  lemma {:induction false} CharsArrive(r: Receiver, s: seq<byte>)
    requires r.Ok() && r.len == |s|
    ensures ReceivedAll(r, Masked(s)) == Receiver(0, r.line, r.got[r.line := r.got[r.line] + Masked(s)])
    decreases |s|
  {
    if s == [] {
      assert r.got[r.line] + Masked(s) == r.got[r.line];
      assert r.got[r.line := r.got[r.line]] == r.got;
    } else {
      var r1 := Received(r, Seven(s[0]));
      assert Masked(s)[1..] == Masked(s[1..]);
      CharsArrive(r1, s[1..]);
      assert Masked(s) == [Seven(s[0])] + Masked(s[1..]);
      GotTwice(r.got, r.line, [Seven(s[0])], Masked(s[1..]));
    }
  }

  /** Characters that come one part behind the other. */
  lemma GotTwice(got: seq<seq<byte>>, line: nat, a: seq<byte>, b: seq<byte>)
    requires line < |got|
    ensures var g := got[line := got[line] + a];
      g[line := g[line] + b] == got[line := got[line] + (a + b)]
  {
    assert got[line] + a + b == got[line] + (a + b);
  }

  lemma DeliveredTwice(r: Receiver, line: nat, s: seq<byte>, t: seq<byte>)
    requires r.Ok()
    ensures Delivered(Delivered(r, line, s), line, t) == Delivered(r, line, s + t)
  {
    MaskedAppend(s, t);
    GotTwice(r.got, line % 8, Masked(s), Masked(t));
  }

  /** s is a stream that delivers the characters c to a line, to any receiver. */
  ghost predicate Carries(s: seq<byte>, line: nat, c: seq<byte>)
  {
    forall r: Receiver {:trigger ReceivedAll(r, s)} :: r.Ok() ==> ReceivedAll(r, s) == Delivered(r, line, c)
  }

  /** The characters of one packet; at most 15 of them. */
  method SendPacket(c: seq<byte>, line: nat, len: nat) returns (packet: seq<byte>)
    requires len < 16 && len <= |c|
    ensures packet == [Header(line, len)] + Masked(c[..len])
  {
    packet := [Header(line, len)];
    var i := 0;
    while i < len
      invariant i <= len && packet == [Header(line, len)] + Masked(c[..i])
    {
      MaskedAppend(c[..i], [c[i]]);
      assert c[..i + 1] == c[..i] + [c[i]];
      packet := packet + [Seven(c[i])];
      i := i + 1;
    }
  }

  /** process_tcp_chars: the characters as they are, or in multiplex mode packets of 15 characters and a
      last, shorter one, which may be empty. */
  method ProcessTcpChars(c: seq<byte>, line: nat, mxmode: bool) returns (sent: seq<byte>)
    ensures !mxmode ==> sent == Masked(c)
    ensures mxmode ==> Carries(sent, line, c) && |sent| == |c| + |c| / 15 + 1
    ensures mxmode && IsPlain(c) && line < LINES ==>
      forall r: Receiver {:trigger ReceivedAll(r, sent)} :: r.Ok() ==> ReceivedAll(r, sent) == Receiver(0, line, r.got[line := r.got[line] + c])
  {
    if mxmode { sent := SendPackets(c, line); } else { sent := SendChars(c); }
    PlainStays(c);
  }

  method SendChars(c: seq<byte>) returns (sent: seq<byte>)
    ensures sent == Masked(c)
  {
    sent := [];
    for i := 0 to |c|
      invariant sent == Masked(c[..i])
    {
      MaskedAppend(c[..i], [c[i]]);
      assert c[..i + 1] == c[..i] + [c[i]];
      sent := sent + [Seven(c[i])];
    }
    assert c[..|c|] == c;
  }

  method SendPackets(c: seq<byte>, line: nat) returns (sent: seq<byte>)
    ensures Carries(sent, line, c)
    ensures |sent| == |c| + |c| / 15 + 1
  {
    sent := [];
    var n, done: int := |c|, 0;
    while n >= 0
      invariant done <= |c| && if n >= 0 then done + n == |c| else done == |c|
      invariant |sent| == if n >= 0 then done + done / 15 else |c| + |c| / 15 + 1
      invariant n >= 0 ==> done % 15 == 0
      invariant done > 0 || n < 0 ==> Carries(sent, line, c[..done])
      invariant done == 0 && n >= 0 ==> sent == []
      decreases n + 15
    {
      var len := if n > 15 then 15 else n;
      var packet := SendPacket(c[done..], line, len);
      NextPacket(sent, line, c, done, len, packet);
      sent := sent + packet;
      done := done + len;
      n := n - 15;
    }
    assert c[..|c|] == c;
  }

  lemma NextPacket(sent: seq<byte>, line: nat, c: seq<byte>, done: nat, len: nat, packet: seq<byte>)
    requires done + len <= |c| && len < 16 && packet == [Header(line, len)] + Masked(c[done..][..len])
    requires if done == 0 then sent == [] else Carries(sent, line, c[..done])
    ensures Carries(sent + packet, line, c[..done + len])
  {
    var part := c[done..][..len];
    assert c[..done + len] == c[..done] + part;
    forall r: Receiver | r.Ok() ensures ReceivedAll(r, sent + packet) == Delivered(r, line, c[..done + len]) {
      ReceivedAppend(r, sent, packet);
      var r1 := ReceivedAll(r, sent);
      PacketArrives(r1, line, part);
      if done > 0 { DeliveredTwice(r, line, c[..done], part); } else { assert part == c[..done + len]; }
    }
  }

  // ---------------------------------------------------------------
  // Interleaved messages
  // ---------------------------------------------------------------

  datatype Message = Message(line: nat, chars: seq<byte>)

  /** What a line should receive from a sequence of messages. */
  function Expected(m: seq<Message>, line: nat): seq<byte>
  {
    if m == [] then [] else (if m[0].line % 8 == line then Masked(m[0].chars) else []) + Expected(m[1..], line)
  }

  /** What was sent to a line. */
  function ForLine(m: seq<Message>, line: nat): seq<byte>
  {
    if m == [] then [] else (if m[0].line == line then m[0].chars else []) + ForLine(m[1..], line)
  }

  /** Seven-bit characters for existing lines. */
  predicate AllPlain(m: seq<Message>)
  {
    forall i: nat :: i < |m| ==> m[i].line < LINES && IsPlain(m[i].chars)
  }

  lemma PlainFirst(m: seq<Message>)
    requires AllPlain(m) && m != []
    ensures m[0].line % 8 == m[0].line && Masked(m[0].chars) == m[0].chars && AllPlain(m[1..])
  {
    PlainStays(m[0].chars);
  }

  /** Such characters are received as they were sent. */
  lemma {:induction false} PlainArrives(m: seq<Message>, line: nat)
    requires AllPlain(m)
    ensures Expected(m, line) == ForLine(m, line)
  {
    if m != [] {
      PlainFirst(m);
      PlainArrives(m[1..], line);
    }
  }

  function Concat(s: seq<seq<byte>>): seq<byte>
  {
    if s == [] then [] else s[0] + Concat(s[1..])
  }

  /** Messages for any lines, in any order, sent to a receiver in any state: every line gets
      exactly its own characters in their order, reduced to seven bits. */
  lemma {:induction false} InterleavingArrives(m: seq<Message>, sent: seq<seq<byte>>, r: Receiver)
    requires r.Ok() && |sent| == |m|
    requires forall i: nat :: i < |m| ==> Carries(sent[i], m[i].line, m[i].chars)
    ensures var r' := ReceivedAll(r, Concat(sent));
      forall line: nat :: line < LINES ==> r'.got[line] == r.got[line] + Expected(m, line)
  {
    if m != [] {
      var r1 := ReceivedAll(r, sent[0]);
      ReceivedAppend(r, sent[0], Concat(sent[1..]));
      InterleavingArrives(m[1..], sent[1..], r1);
      assert Carries(sent[0], m[0].line, m[0].chars);
    }
  }

  /** Both ends of the serial line: messages for any lines, sent one after the other and taken in character
      by character, arrive. */
  method Transmit(p: Port, m: seq<Message>)
    requires p.State().Ok() && p.mxmode
    modifies p
    ensures p.State().Ok() && forall line: nat :: line < LINES ==> p.got[line] == old(p.got)[line] + Expected(m, line)
    ensures AllPlain(m) ==> forall line: nat :: line < LINES ==> p.got[line] == old(p.got)[line] + ForLine(m, line)
  {
    ghost var was := p.State();
    ghost var all: seq<seq<byte>> := [];
    var i := 0;
    ConcatNone(was);
    while i < |m|
      invariant i <= |m| && |all| == i && p.State().Ok() && p.State() == ReceivedAll(was, Concat(all))
      invariant forall j: nat :: j < i ==> Carries(all[j], m[j].line, m[j].chars)
    {
      var sent := ProcessTcpChars(m[i].chars, m[i].line, p.mxmode);
      p.ProcessSerial(sent);
      ConcatNext(was, all, sent);
      all := all + [sent];
      i := i + 1;
    }
    InterleavingArrives(m, all, was);
    if AllPlain(m) {
      forall line: nat | line < LINES ensures Expected(m, line) == ForLine(m, line) {
        PlainArrives(m, line);
      }
    }
  }

  lemma ConcatNone(r: Receiver)
    requires r.Ok()
    ensures ReceivedAll(r, Concat([])) == r
  {
  }

  lemma {:induction false} ConcatNext(r: Receiver, all: seq<seq<byte>>, s: seq<byte>)
    requires r.Ok()
    ensures ReceivedAll(r, Concat(all + [s])) == ReceivedAll(ReceivedAll(r, Concat(all)), s)
  {
    ConcatAppend(all, s);
    ReceivedAppend(r, Concat(all), s);
  }

  lemma {:induction false} ConcatAppend(all: seq<seq<byte>>, s: seq<byte>)
    ensures Concat(all + [s]) == Concat(all) + s
  {
    if all == [] {
      assert Concat([s]) == s + Concat([]);
    } else {
      assert (all + [s])[1..] == all[1..] + [s];
      ConcatAppend(all[1..], s);
    }
  }
}
