/** The byte format of linuxpp::net::tcp_datagram_socket, as a reference: a frame
    is a 16-bit big-endian length followed by that many bytes. */
module Framing {

  newtype byte = x: int | 0 <= x < 256

  const LIMIT: nat := 0x1_0000

  function Be16(n: nat): (b: seq<byte>)
    requires n < LIMIT
    ensures |b| == 2
  {
    [(n / 256) as byte, (n % 256) as byte]
  }

  function FromBe16(b: seq<byte>): (n: nat)
    requires |b| == 2
    ensures n < LIMIT
  {
    b[0] as nat * 256 + b[1] as nat
  }

  lemma Be16RoundTrip(n: nat, b: seq<byte>)
    requires n < LIMIT && |b| == 2
    ensures FromBe16(Be16(n)) == n
    ensures Be16(FromBe16(b)) == b
  {
    assert Be16(FromBe16(b))[0] == b[0] && Be16(FromBe16(b))[1] == b[1];
  }

  function Frame(payload: seq<byte>): seq<byte>
    requires |payload| < LIMIT
  {
    Be16(|payload|) + payload
  }

  ghost predicate Sendable(payloads: seq<seq<byte>>) {
    forall i :: 0 <= i < |payloads| ==> |payloads[i]| < LIMIT
  }

  function Encode(payloads: seq<seq<byte>>): seq<byte>
    requires Sendable(payloads)
  {
    if payloads == [] then [] else Frame(payloads[0]) + Encode(payloads[1..])
  }

  /** The whole frames at the front of a byte sequence, and what follows them. */
  datatype Parsed = Parsed(frames: seq<seq<byte>>, rest: seq<byte>)

  /** A whole frame leads the sequence. */
  predicate Led(bytes: seq<byte>) {
    |bytes| >= 2 && |bytes| >= 2 + FromBe16(bytes[..2])
  }

  function Parse(bytes: seq<byte>): Parsed
    decreases |bytes|
  {
    if !Led(bytes) then Parsed([], bytes)
    else
      var n := FromBe16(bytes[..2]);
      var p := Parse(bytes[2 + n..]);
      Parsed([bytes[2..2 + n]] + p.frames, p.rest)
  }

  lemma ParseFrame(payload: seq<byte>, tail: seq<byte>)
    requires |payload| < LIMIT
    ensures Parse(Frame(payload) + tail) == Parsed([payload] + Parse(tail).frames, Parse(tail).rest)
  {
    var bytes := Frame(payload) + tail;
    assert bytes[..2] == Be16(|payload|);
    Be16RoundTrip(|payload|, Be16(|payload|));
    assert bytes[2..2 + |payload|] == payload;
    assert bytes[2 + |payload|..] == tail;
  }

  lemma WholeFrame(data: seq<byte>)
    requires |data| < LIMIT
    ensures Parse(Frame(data)) == Parsed([data], [])
  {
    assert Parse([]) == Parsed([], []);
    hide Parse, Frame;
    ParseFrame(data, []);
    assert Frame(data) + [] == Frame(data);
  }

  /** Parsing undoes encoding, whatever follows on the stream. */
  lemma {:induction false} ParseEncode(payloads: seq<seq<byte>>, tail: seq<byte>)
    requires Sendable(payloads)
    ensures Parse(Encode(payloads) + tail) == Parsed(payloads + Parse(tail).frames, Parse(tail).rest)
    decreases |payloads|
  {
    hide Parse;
    var p := Parse(tail);
    if payloads == [] {
      assert Encode(payloads) + tail == tail;
      assert payloads + p.frames == p.frames;
    } else {
      var others := payloads[1..];
      ParseEncode(others, tail);
      ParseFrame(payloads[0], Encode(others) + tail);
      hide Frame;
      Regroup(Frame(payloads[0]), Encode(others), tail);
      Regroup([payloads[0]], others, p.frames);
      assert payloads == [payloads[0]] + others;
    }
  }

  lemma ParseLed(bytes: seq<byte>)
    requires Led(bytes)
    ensures var n := FromBe16(bytes[..2]);
            Parse(bytes) == Parsed([bytes[2..2 + n]] + Parse(bytes[2 + n..]).frames, Parse(bytes[2 + n..]).rest)
  {}

  lemma Regroup<T>(a: seq<T>, b: seq<T>, c: seq<T>)
    ensures a + (b + c) == (a + b) + c
  {}

  lemma LedPrefix(a: seq<byte>, b: seq<byte>)
    requires Led(a)
    ensures Led(a + b)
    ensures var n := FromBe16(a[..2]);
            (a + b)[..2] == a[..2] && (a + b)[2..2 + n] == a[2..2 + n] && (a + b)[2 + n..] == a[2 + n..] + b
  {
    assert (a + b)[..2] == a[..2];
  }

  /** Parsing as the bytes arrive: what was left over is parsed again together with
      the new bytes. */
  function Continue(p: Parsed, bytes: seq<byte>): Parsed {
    var q := Parse(p.rest + bytes);
    Parsed(p.frames + q.frames, q.rest)
  }

  lemma ContinueBehind(frame: seq<byte>, p: Parsed, bytes: seq<byte>)
    ensures var c := Continue(p, bytes);
            Continue(Parsed([frame] + p.frames, p.rest), bytes) == Parsed([frame] + c.frames, c.rest)
  {
    hide Parse;
    Regroup([frame], p.frames, Parse(p.rest + bytes).frames);
  }

  lemma {:induction false} ParseAppend(a: seq<byte>, b: seq<byte>)
    ensures Parse(a + b) == Continue(Parse(a), b)
    decreases |a|
  {
    if Led(a) {
      hide Parse, FromBe16, Continue;
      var n := FromBe16(a[..2]);
      var frame, tail := a[2..2 + n], a[2 + n..];
      LedPrefix(a, b);
      ParseLed(a);
      ParseLed(a + b);
      ParseAppend(tail, b);
      ContinueBehind(frame, Parse(tail), b);
    } else {
      assert Parse(a) == Parsed([], a);
      hide Parse;
      assert [] + Parse(a + b).frames == Parse(a + b).frames;
    }
  }

  /** No frame is longer than its length field can say. */
  lemma {:induction false} FramesAreSendable(bytes: seq<byte>)
    ensures Sendable(Parse(bytes).frames)
    decreases |bytes|
  {
    if Led(bytes) {
      FramesAreSendable(bytes[2 + FromBe16(bytes[..2])..]);
    }
  }

  // ---------------------------------------------------------- bits of the header

  /** Bitwise or. */
  function BitOr(a: nat, b: nat): nat
    decreases a + b
  {
    if a == 0 then b else if b == 0 then a
    else 2 * BitOr(a / 2, b / 2) + if a % 2 == 1 || b % 2 == 1 then 1 else 0
  }

  /** Left shift by whole bytes. */
  function ShiftBytes(a: nat, count: nat): nat {
    if count == 0 then a else 256 * ShiftBytes(a, count - 1)
  }

  function Pow2(k: nat): nat {
    if k == 0 then 1 else 2 * Pow2(k - 1)
  }

  /** Or-ing into clear low bits adds. */
  lemma {:induction false} OrIntoClearBits(high: nat, low: nat, k: nat)
    requires low < Pow2(k)
    ensures BitOr(high * Pow2(k), low) == high * Pow2(k) + low
  {
    if k > 0 && high > 0 && low > 0 {
      var half := high * Pow2(k - 1);
      assert high * Pow2(k) == 2 * half;
      OrIntoClearBits(high, low / 2, k - 1);
    }
  }

  lemma OrLowByte(high: nat, low: byte)
    ensures BitOr(high * 256, low as nat) == high * 256 + low as nat
  {
    assert Pow2(2) == 4 && Pow2(4) == 16 && Pow2(6) == 64 && Pow2(8) == 256;
    OrIntoClearBits(high, low as nat, 8);
  }
}
