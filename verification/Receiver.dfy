/** The receiving side of linuxpp::net::tcp_datagram_socket: the blocking recv and
    the resumable recv_part. The socket is the byte sequence still to come; how
    many bytes each call gets is arbitrary. */
module Receiver {
  import opened Framing

  datatype Phase = ReceivingSize | ReceivingMsg | Finished

  datatype ReceiveState = ReceiveState(msgSize: nat, bytesReceived: nat, phase: Phase)

  const FRESH := ReceiveState(0, 0, ReceivingSize)

  /** The states recv_part hands out. */
  predicate Usable(st: ReceiveState) {
    match st.phase
    case ReceivingSize => st.bytesReceived < 2
    case ReceivingMsg => st.bytesReceived <= st.msgSize
    case Finished => true
  }

  /** How many bytes the next call asks the socket for. */
  function Want(st: ReceiveState): nat
    requires Usable(st)
  {
    match st.phase
    case ReceivingSize => 2 - st.bytesReceived
    case ReceivingMsg => st.msgSize - st.bytesReceived
    case Finished => 2
  }

  /** std::vector::resize */
  function Resize(buf: seq<byte>, n: nat): (r: seq<byte>)
    ensures |r| == n
    ensures forall i :: 0 <= i < n && i < |buf| ==> r[i] == buf[i]
  {
    if n <= |buf| then buf[..n] else buf + seq(n - |buf|, _ => 0)
  }

  /** The bytes of one recv, stored from position `at`. */
  function Store(buf: seq<byte>, at: nat, chunk: seq<byte>): seq<byte>
    requires at + |chunk| <= |buf|
  {
    buf[..at] + chunk + buf[at + |chunk|..]
  }

  /** The loop that ors header bytes, the first of them at index `at`, into the size. */
  function OrHeader(size: nat, at: nat, chunk: seq<byte>): nat
    requires at + |chunk| <= 2
    decreases |chunk|
  {
    if chunk == [] then size
    else OrHeader(BitOr(size, ShiftBytes(chunk[0] as nat, 1 - at)), at + 1, chunk[1..])
  }

  function RecvSizePart(st: ReceiveState, chunk: seq<byte>): ReceiveState
    requires st.bytesReceived + |chunk| <= 2
  {
    var size := OrHeader(st.msgSize, st.bytesReceived, chunk);
    var received := st.bytesReceived + |chunk|;
    if received != 2 then ReceiveState(size, received, st.phase)
    else ReceiveState(size, 0, ReceivingMsg)
  }

  function RecvMsgPart(buf: seq<byte>, st: ReceiveState, chunk: seq<byte>): (seq<byte>, ReceiveState)
    requires st.bytesReceived + |chunk| <= st.msgSize
  {
    var received := st.bytesReceived + |chunk|;
    (Store(Resize(buf, st.msgSize), st.bytesReceived, chunk),
     ReceiveState(st.msgSize, received, if received != st.msgSize then st.phase else Finished))
  }

  /** recv_part, given the bytes the socket delivered. */
  function RecvPart(buf: seq<byte>, st: ReceiveState, chunk: seq<byte>): (r: (seq<byte>, ReceiveState))
    requires Usable(st) && |chunk| <= Want(st)
    ensures Usable(r.1)
  {
    match st.phase
    case ReceivingSize => (buf, RecvSizePart(st, chunk))
    case ReceivingMsg => RecvMsgPart(buf, st, chunk)
    case Finished => (buf, RecvSizePart(FRESH, chunk))
  }

  // ------------------------------------------------------------- a connection

  /** A caller that threads one buffer and the returned state through recv_part.
      `delivered` is the buffer at each finished state; `consumed` and `stream` are
      the bytes received and still to come. */
  datatype Connection = Connection(
    st: ReceiveState,
    buf: seq<byte>,
    delivered: seq<seq<byte>>,
    consumed: seq<byte>,
    stream: seq<byte>)

  /** One call: at most `limit` bytes happen to be there, or none are and the socket
      throws EAGAIN. */
  datatype Call = Gets(limit: nat) | WouldBlock

  function Min(a: nat, b: nat): nat {
    if a < b then a else b
  }

  function Advance(c: Connection, call: Call): (d: Connection)
    requires Usable(c.st)
    ensures Usable(d.st)
  {
    match call
    case WouldBlock =>
      if c.st.phase == ReceivingMsg then c.(buf := Resize(c.buf, c.st.msgSize)) else c
    case Gets(limit) =>
      var n := Min(limit, Min(Want(c.st), |c.stream|));
      var (buf, st) := RecvPart(c.buf, c.st, c.stream[..n]);
      Connection(st, buf,
                 if st.phase == Finished then c.delivered + [buf] else c.delivered,
                 c.consumed + c.stream[..n], c.stream[n..])
  }

  function Drive(c: Connection, calls: seq<Call>): (d: Connection)
    requires Usable(c.st)
    ensures Usable(d.st)
    decreases |calls|
  {
    if calls == [] then c else Drive(Advance(c, calls[0]), calls[1..])
  }

  function Connected(buf: seq<byte>, stream: seq<byte>): Connection {
    Connection(FRESH, buf, [], [], stream)
  }

  // -------------------------------------------------------------- blocking recv

  datatype Received = Message(buf: seq<byte>, rest: seq<byte>) | LengthTruncated | MessageTruncated

  /** recv, with MSG_WAITALL on a stream that ends after `stream`. */
  function Recv(stream: seq<byte>): Received {
    if |stream| < 2 then LengthTruncated
    else
      var n := FromBe16(stream[..2]);
      if |stream| < 2 + n then MessageTruncated else Message(stream[2..2 + n], stream[2 + n..])
  }
}
