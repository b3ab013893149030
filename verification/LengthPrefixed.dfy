/** linuxpp::length_prefixed_message: the three framers, and linuxpp::accumulate
    over the lengths they are given. */
module LengthPrefixed {
  import opened Framing

  /** An iovec: one that points at the message's own length field, one that points
      at a caller's buffer, or one that was never assigned. */
  datatype Iovec = LengthField | Buffer(data: seq<byte>) | Indeterminate

  const U32: nat := 0x1_0000_0000

  function Total(buffers: seq<seq<byte>>): nat {
    if buffers == [] then 0 else |buffers[0]| + Total(buffers[1..])
  }

  function Concat(buffers: seq<seq<byte>>): seq<byte> {
    if buffers == [] then [] else buffers[0] + Concat(buffers[1..])
  }

  /** std::accumulate with an unsigned int accumulator: every partial sum wraps. */
  function AccumulateFrom(acc: nat, buffers: seq<seq<byte>>): nat
    decreases |buffers|
  {
    if buffers == [] then acc else AccumulateFrom((acc + |buffers[0]|) % U32, buffers[1..])
  }

  /** static_cast<uint16_t>(accumulate(...)) */
  function Prefix(buffers: seq<seq<byte>>): (n: nat)
    ensures n < LIMIT
  {
    AccumulateFrom(0, buffers) % LIMIT
  }

  function Point(buffers: seq<seq<byte>>): (r: seq<Iovec>)
    ensures |r| == |buffers|
    ensures forall i :: 0 <= i < |buffers| ==> r[i] == Buffer(buffers[i])
  {
    if buffers == [] then [] else [Buffer(buffers[0])] + Point(buffers[1..])
  }

  /** What sendmsg reads through an iovec list; nothing can be said of an iovec that
      was never assigned. */
  datatype Gathered = Bytes(bytes: seq<byte>) | Garbage

  function Gather(length: nat, iovec: seq<Iovec>): Gathered
    requires length < LIMIT
  {
    if iovec == [] then Bytes([])
    else
      match (iovec[0], Gather(length, iovec[1..]))
      case (LengthField, Bytes(rest)) => Bytes(Be16(length) + rest)
      case (Buffer(data), Bytes(rest)) => Bytes(data + rest)
      case _ => Garbage
  }

  // ------------------------------------------------------------ the arithmetic

  lemma {:induction false} AccumulateWraps(acc: nat, buffers: seq<seq<byte>>)
    requires acc < U32
    ensures AccumulateFrom(acc, buffers) == (acc + Total(buffers)) % U32
    decreases |buffers|
  {
    if buffers != [] {
      var next := (acc + |buffers[0]|) % U32;
      AccumulateWraps(next, buffers[1..]);
      assert (acc + |buffers[0]|) == (acc + |buffers[0]|) / U32 * U32 + next;
      WrapTwice(acc + |buffers[0]|, Total(buffers[1..]));
    }
  }

  lemma WrapTwice(a: nat, b: nat)
    ensures (a % U32 + b) % U32 == (a + b) % U32
  {
    var q := a / U32;
    assert a + b == (a % U32 + b) + q * U32;
  }

  /** Wrapping every partial sum at 32 bits and narrowing the result to 16 is the
      true sum modulo 2^16. */
  lemma PrefixIsTotalModulo(buffers: seq<seq<byte>>)
    ensures Prefix(buffers) == Total(buffers) % LIMIT
  {
    AccumulateWraps(0, buffers);
    hide AccumulateFrom, Total;
    Narrow(Total(buffers));
  }

  lemma Narrow(n: nat)
    ensures n % U32 % LIMIT == n % LIMIT
  {
    var high, low := n / U32, n % U32;
    assert n == (high * LIMIT + low / LIMIT) * LIMIT + low % LIMIT;
  }

  lemma {:induction false} ConcatLength(buffers: seq<seq<byte>>)
    ensures |Concat(buffers)| == Total(buffers)
  {
    if buffers != [] { ConcatLength(buffers[1..]); }
  }

  lemma {:induction false} GatherBuffers(length: nat, buffers: seq<seq<byte>>)
    requires length < LIMIT
    ensures Gather(length, Point(buffers)) == Bytes(Concat(buffers))
    decreases |buffers|
  {
    if buffers != [] { GatherBuffers(length, buffers[1..]); }
  }

  // ------------------------------------------------------ what the framers produce

  /** What the vector framer sends. */
  function Message(buffers: seq<seq<byte>>): seq<byte> {
    Be16(Prefix(buffers)) + Concat(buffers)
  }

  lemma VectorGathersMessage(buffers: seq<seq<byte>>)
    ensures Gather(Prefix(buffers), [LengthField] + Point(buffers)) == Bytes(Message(buffers))
  {
    GatherBuffers(Prefix(buffers), buffers);
    assert ([LengthField] + Point(buffers))[1..] == Point(buffers);
  }

  /** A message is the frame of its concatenated buffers, so that the receiver gets
      exactly that one payload, if and only if they fit the 16-bit length. */
  lemma MessageIsFrameIffItFits(buffers: seq<seq<byte>>)
    ensures Parse(Message(buffers)) == Parsed([Concat(buffers)], []) <==> Total(buffers) < LIMIT
  {
    PrefixIsTotalModulo(buffers);
    ConcatLength(buffers);
    hide Parse, Prefix, Total, Concat, Be16, Frame;
    var n, data := Prefix(buffers), Concat(buffers);
    if Total(buffers) < LIMIT {
      MessageIsFrame(buffers);
      WholeFrame(data);
    } else {
      assert Message(buffers) == Frame(data[..n]) + data[n..] by { SplitMessage(n, data); }
      ParseFrame(data[..n], data[n..]);
      assert |data[..n]| != |data|;
      assert ([data[..n]] + Parse(data[n..]).frames)[0] == data[..n];
    }
  }

  lemma SplitMessage(n: nat, data: seq<byte>)
    requires n < LIMIT && n <= |data|
    ensures Be16(n) + data == Frame(data[..n]) + data[n..]
  {
    hide Be16;
    assert data == data[..n] + data[n..];
  }

  /** The single-buffer framer sends the same bytes as the vector framer does for any
      way of scattering that buffer. */
  lemma BufferAndVectorAgree(buffers: seq<seq<byte>>)
    requires Total(buffers) < LIMIT
    ensures |Concat(buffers)| < LIMIT
    ensures Gather(|Concat(buffers)|, [LengthField, Buffer(Concat(buffers))]) == Bytes(Message(buffers))
  {
    PrefixIsTotalModulo(buffers);
    ConcatLength(buffers);
    hide AccumulateFrom, Prefix, Total, Concat, Be16;
    var data := Concat(buffers);
    var iovec := [LengthField, Buffer(data)];
    assert iovec[1..] == [Buffer(data)] && iovec[1..][1..] == [];
    assert Gather(|data|, []) == Bytes([]);
    assert Gather(|data|, [Buffer(data)]) == Bytes(data + []);
    assert data + [] == data;
  }

  /** What the array framer leaves in its iovecs: copying the buffers from slot 0 on
      covers the length, and the last slot is never assigned. */
  function ArrayIovecs(buffers: seq<seq<byte>>): seq<Iovec> {
    if buffers == [] then [LengthField] else Point(buffers) + [Indeterminate]
  }

  lemma {:induction false} GatherGarbage(length: nat, iovec: seq<Iovec>)
    requires length < LIMIT && Indeterminate in iovec
    ensures Gather(length, iovec) == Garbage
    decreases |iovec|
  {
    if iovec[0] != Indeterminate { GatherGarbage(length, iovec[1..]); }
  }

  /** As written, the array framer sends the message if and only if it has no buffers. */
  lemma ArraySendsMessageIffEmpty(buffers: seq<seq<byte>>)
    ensures Gather(Prefix(buffers), ArrayIovecs(buffers)) == Bytes(Message(buffers)) <==> buffers == []
  {
    if buffers == [] {
      assert [LengthField] + Point(buffers) == [LengthField];
      VectorGathersMessage(buffers);
    } else {
      assert ArrayIovecs(buffers)[|buffers|] == Indeterminate;
      GatherGarbage(Prefix(buffers), ArrayIovecs(buffers));
    }
  }

  // ------------------------------------------------------------- whole connections

  ghost predicate Fit(messages: seq<seq<seq<byte>>>) {
    forall i :: 0 <= i < |messages| ==> Total(messages[i]) < LIMIT
  }

  function Payloads(messages: seq<seq<seq<byte>>>): (r: seq<seq<byte>>)
    ensures |r| == |messages|
    ensures forall i :: 0 <= i < |messages| ==> r[i] == Concat(messages[i])
  {
    if messages == [] then [] else [Concat(messages[0])] + Payloads(messages[1..])
  }

  function Stream(messages: seq<seq<seq<byte>>>): seq<byte> {
    if messages == [] then [] else Message(messages[0]) + Stream(messages[1..])
  }

  lemma MessageIsFrame(buffers: seq<seq<byte>>)
    requires Total(buffers) < LIMIT
    ensures |Concat(buffers)| < LIMIT && Message(buffers) == Frame(Concat(buffers))
  {
    PrefixIsTotalModulo(buffers);
    ConcatLength(buffers);
    hide Prefix, Total, Concat, Be16;
  }

  lemma EncodeFirst(payload: seq<byte>, others: seq<seq<byte>>)
    requires |payload| < LIMIT && Sendable(others)
    ensures Sendable([payload] + others) && Encode([payload] + others) == Frame(payload) + Encode(others)
  {
    hide Frame;
    assert ([payload] + others)[1..] == others;
  }

  /** A sequence of sends puts the encoding of the payloads on the stream. */
  lemma {:induction false} SendsEncode(messages: seq<seq<seq<byte>>>)
    requires Fit(messages)
    ensures Sendable(Payloads(messages)) && Stream(messages) == Encode(Payloads(messages))
    decreases |messages|
  {
    hide Message, Frame, Total, Concat;
    if messages != [] {
      assert Fit(messages[1..]);
      SendsEncode(messages[1..]);
      MessageIsFrame(messages[0]);
      EncodeFirst(Concat(messages[0]), Payloads(messages[1..]));
    }
  }

  /** The stream of any number of messages holds exactly their payloads, in order and with
      nothing left over, if and only if each of them fits the 16-bit length. */
  lemma StreamHoldsPayloadsIffFit(messages: seq<seq<seq<byte>>>)
    ensures Parse(Stream(messages)) == Parsed(Payloads(messages), []) <==> Fit(messages)
  {
    if Fit(messages) {
      SendsEncode(messages);
      ParseEncode(Payloads(messages), []);
      assert Parse([]) == Parsed([], []);
      hide Parse, Encode;
      assert Encode(Payloads(messages)) + [] == Encode(Payloads(messages));
      assert Payloads(messages) + [] == Payloads(messages);
    } else {
      FramesAreSendable(Stream(messages));
      OversizeIsNotSendable(messages);
    }
  }

  lemma OversizeIsNotSendable(messages: seq<seq<seq<byte>>>)
    ensures Fit(messages) <==> Sendable(Payloads(messages))
  {
    forall i | 0 <= i < |messages| ensures |Payloads(messages)[i]| == Total(messages[i]) {
      ConcatLength(messages[i]);
    }
  }
}
