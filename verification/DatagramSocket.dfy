/** linuxpp::net::tcp_datagram_socket and the message objects it sends through, as
    the source keeps them. */
module DatagramSocket {
  import opened Framing
  import opened LengthPrefixed
  import R = Receiver
  import P = ReceiverProofs

  /** length_prefixed_message_buffer */
  class MessageBuffer {
    const length: nat
    const iovec: array<Iovec>

    constructor (data: seq<byte>)
      requires |data| < LIMIT
      ensures fresh(iovec) && length == |data| && iovec[..] == [LengthField, Buffer(data)]
    {
      length := |data|;
      iovec := new Iovec[2] [LengthField, Buffer(data)];
    }
  }

  /** length_prefixed_message_vector: `fill` reuses the vector of the message before. */
  class MessageVector {
    var length: nat
    var iovec: seq<Iovec>

    constructor ()
      ensures length == 0 && iovec == []
    {
      length, iovec := 0, [];
    }

    method Fill(buffers: seq<seq<byte>>)
      modifies this
      ensures length == Prefix(buffers) && iovec == [LengthField] + Point(buffers)
      ensures length < LIMIT && Gather(length, iovec) == Bytes(Message(buffers))
    {
      hide Gather, Total, AccumulateFrom;
      length := AccumulateFrom(0, buffers) % LIMIT;
      var n := |buffers| + 1;
      iovec := if n <= |iovec| then iovec[..n] else iovec + seq(n - |iovec|, _ => Indeterminate);
      iovec := iovec[0 := LengthField];
      iovec := iovec[..1] + Point(buffers) + iovec[1 + |buffers|..];
      assert iovec == [LengthField] + Point(buffers);
      VectorGathersMessage(buffers);
    }
  }

  /** length_prefixed_message_array: N + 1 slots, of which the copy fills the first N. */
  class MessageArray {
    const length: nat
    const iovec: array<Iovec>

    constructor (buffers: seq<seq<byte>>)
      ensures fresh(iovec) && length == Prefix(buffers) && iovec[..] == ArrayIovecs(buffers)
    {
      length := AccumulateFrom(0, buffers) % LIMIT;
      var slots := new Iovec[|buffers| + 1](_ => Indeterminate);
      iovec := slots;
      new;
      slots[0] := LengthField;
      var i := 0;
      while i < |buffers|
        invariant i <= |buffers|
        invariant forall k :: 0 <= k < i ==> slots[k] == Buffer(buffers[k])
        invariant slots[|buffers|] == if buffers == [] then LengthField else Indeterminate
      {
        slots[i] := Buffer(buffers[i]);
        i := i + 1;
      }
      assert slots[..] == ArrayIovecs(buffers);
    }
  }

  /** `incoming` is what the peer has sent and nobody has received, `sent` what this
      side has put on the stream. How many bytes a system call moves is an argument. */
  class Socket {
    const message: MessageVector
    var incoming: seq<byte>
    var sent: seq<byte>

    constructor (incoming: seq<byte>)
      ensures fresh(message) && this.incoming == incoming && sent == []
    {
      message := new MessageVector();
      this.incoming := incoming;
      sent := [];
    }

    /** The bytes a recv of at most `want` gets when `limit` happen to be there. */
    method Take(want: nat, limit: nat) returns (chunk: seq<byte>)
      modifies this`incoming
      ensures chunk == old(incoming)[..R.Min(limit, R.Min(want, |old(incoming)|))]
      ensures incoming == old(incoming)[|chunk|..]
    {
      var n := R.Min(limit, R.Min(want, |incoming|));
      chunk := incoming[..n];
      incoming := incoming[n..];
    }

    method RecvSizePart(st: R.ReceiveState, limit: nat) returns (next: R.ReceiveState)
      requires st.phase != R.ReceivingMsg && st.bytesReceived < 2
      modifies this`incoming
      ensures var n := R.Min(limit, R.Min(2 - st.bytesReceived, |old(incoming)|));
              next == R.RecvSizePart(st, old(incoming)[..n]) && incoming == old(incoming)[n..]
    {
      var header := new byte[2](_ => 0);
      var chunk := Take(2 - st.bytesReceived, limit);
      var received := st.bytesReceived + |chunk|;
      forall k | 0 <= k < |chunk| {
        header[st.bytesReceived + k] := chunk[k];
      }
      assert header[st.bytesReceived..received] == chunk;
      var size := OrBytes(st.msgSize, header, st.bytesReceived, received);
      next := st.(msgSize := size, bytesReceived := received);
      if received == 2 {
        next := next.(phase := R.ReceivingMsg, bytesReceived := 0);
      }
    }

    /** The loop that ors the bytes just received into the size. */
    method OrBytes(size: nat, header: array<byte>, start: nat, end: nat) returns (r: nat)
      requires start <= end <= 2 == header.Length
      ensures r == R.OrHeader(size, start, header[start..end])
    {
      r := size;
      var i := start;
      while i < end
        invariant start <= i <= end
        invariant R.OrHeader(r, i, header[i..end]) == R.OrHeader(size, start, header[start..end])
      {
        assert header[i..end][0] == header[i] && header[i..end][1..] == header[i + 1..end];
        r := BitOr(r, ShiftBytes(header[i] as nat, 1 - i));
        i := i + 1;
      }
    }

    method RecvMsgPart(buf: seq<byte>, st: R.ReceiveState, limit: nat) returns (buf': seq<byte>, next: R.ReceiveState)
      requires st.phase == R.ReceivingMsg && st.bytesReceived <= st.msgSize
      modifies this`incoming
      ensures var n := R.Min(limit, R.Min(st.msgSize - st.bytesReceived, |old(incoming)|));
              (buf', next) == R.RecvMsgPart(buf, st, old(incoming)[..n]) && incoming == old(incoming)[n..]
    {
      buf' := R.Resize(buf, st.msgSize);
      var chunk := Take(|buf'| - st.bytesReceived, limit);
      buf' := R.Store(buf', st.bytesReceived, chunk);
      next := st.(bytesReceived := st.bytesReceived + |chunk|);
      if next.bytesReceived == next.msgSize {
        next := next.(phase := R.Finished);
      }
    }

    /** recv_part: one step of the connection modelled in Receiver. */
    method RecvPart(buf: seq<byte>, st: R.ReceiveState, limit: nat) returns (buf': seq<byte>, next: R.ReceiveState)
      requires R.Usable(st)
      modifies this`incoming
      ensures var n := R.Min(limit, R.Min(R.Want(st), |old(incoming)|));
              (buf', next) == R.RecvPart(buf, st, old(incoming)[..n]) && incoming == old(incoming)[n..]
    {
      match st.phase {
        case ReceivingSize =>
          buf' := buf;
          next := RecvSizePart(st, limit);
        case ReceivingMsg =>
          buf', next := RecvMsgPart(buf, st, limit);
        case Finished =>
          buf' := buf;
          next := RecvSizePart(R.FRESH, limit);
      }
    }

    /** Receiving a whole stream through recv_part, call after call. */
    method ReceiveAll(buf: seq<byte>, limits: seq<nat>) returns (delivered: seq<seq<byte>>)
      modifies this`incoming
      ensures var calls := seq(|limits|, k requires 0 <= k < |limits| => R.Gets(limits[k]));
              delivered == R.Drive(R.Connected(buf, old(incoming)), calls).delivered
    {
      var calls := seq(|limits|, k requires 0 <= k < |limits| => R.Gets(limits[k]));
      var st, data := R.FRESH, buf;
      delivered := [];
      ghost var start := R.Connected(buf, incoming);
      ghost var now := start;
      var i := 0;
      while i < |limits|
        invariant i <= |limits| && R.Usable(st)
        invariant now.st == st && now.buf == data && now.delivered == delivered && now.stream == incoming
        invariant R.Drive(now, calls[i..]) == R.Drive(start, calls)
      {
        now := R.Advance(now, calls[i]);
        assert calls[i..][1..] == calls[i + 1..];
        data, st := RecvPart(data, st, limits[i]);
        if st.phase == R.Finished {
          delivered := delivered + [data];
        }
        i := i + 1;
      }
    }

    /** The blocking recv, on a stream that ends after `incoming`. A truncated receive
        has used the stream up; the buffer is then untouched, or resized and filled as
        far as the bytes went. */
    method Recv(buf: seq<byte>) returns (buf': seq<byte>, result: R.Received)
      modifies this`incoming
      ensures result == R.Recv(old(incoming))
      ensures result.Message? ==> buf' == result.buf && incoming == result.rest
      ensures !result.Message? ==> incoming == []
      ensures result.LengthTruncated? ==> buf' == buf
      ensures result.MessageTruncated? ==>
                |buf'| == FromBe16(old(incoming)[..2]) && old(incoming)[2..] <= buf'
    {
      hide R.Resize, FromBe16;
      buf' := buf;
      var header := Take(2, 2);
      assert |header| == 2 ==> header == old(incoming)[..2] && incoming == old(incoming)[2..];
      if |header| != 2 {
        return buf', R.LengthTruncated;
      }
      var size := FromBe16(header);
      buf' := R.Resize(buf', size);
      var data := Take(size, size);
      buf' := R.Store(buf', 0, data);
      assert buf'[..|data|] == data;
      if |data| != size {
        return buf', R.MessageTruncated;
      }
      result := R.Message(buf', incoming);
    }

    /** send(buf, length): at most `accepted` bytes go out. */
    method SendBuffer(data: seq<byte>, accepted: nat) returns (n: nat)
      requires |data| < LIMIT
      modifies this`sent
      ensures n == R.Min(accepted, |Frame(data)|) && sent == old(sent) + Frame(data)[..n]
    {
      var msg := new MessageBuffer(data);
      BufferAndVectorAgree([data]);
      assert Concat([data]) == data + Concat([]) == data;
      MessageOfOne(data);
      var bytes := Gather(msg.length, msg.iovec[..]).bytes;
      n := R.Min(accepted, |bytes|);
      sent := sent + bytes[..n];
    }

    /** send(buffers, size): refills the stored message. */
    method SendVector(buffers: seq<seq<byte>>, accepted: nat) returns (n: nat)
      modifies this`sent, message
      ensures n == R.Min(accepted, |Message(buffers)|) && sent == old(sent) + Message(buffers)[..n]
    {
      message.Fill(buffers);
      var bytes := Gather(message.length, message.iovec).bytes;
      n := R.Min(accepted, |bytes|);
      sent := sent + bytes[..n];
    }
  }

  lemma MessageOfOne(data: seq<byte>)
    requires |data| < LIMIT
    ensures Total([data]) == |data| && Concat([data]) == data && Message([data]) == Frame(data)
  {
    assert [data][1..] == [];
    assert Total([data]) == |data| + Total([]) && Concat([data]) == data + [];
    hide Prefix, Be16, Total, Concat;
    PrefixIsTotalModulo([data]);
  }

  /** From one end to the other: messages that fit, sent as any number of scattered
      buffers, come out of the resumable receiver whole and in order, however the
      stream is cut up, and all of them once enough calls have been made. If one does
      not fit, no way of receiving gives these messages. */
  lemma EndToEnd(buf: seq<byte>, messages: seq<seq<seq<byte>>>, calls: seq<R.Call>)
    ensures var d := R.Drive(R.Connected(buf, Stream(messages)), calls);
            if Fit(messages) then
              && d.delivered <= Payloads(messages)
              && (P.NoneIdle(calls) && |calls| >= |Stream(messages)| + |messages| ==> d.delivered == Payloads(messages))
            else d.delivered != Payloads(messages)
  {
    hide R.Drive, Stream, Encode, P.Tracks, Parse;
    if Fit(messages) {
      SendsEncode(messages);
      P.RoundTrip(buf, Payloads(messages), calls);
      if P.NoneIdle(calls) && |calls| >= |Stream(messages)| + |messages| {
        P.ConnectedTracks(buf, Stream(messages));
        assert [] + Stream(messages) == Stream(messages);
        P.EnoughCallsDeliver(R.Connected(buf, Stream(messages)), Payloads(messages), calls);
      }
    } else {
      var d := R.Drive(R.Connected(buf, Stream(messages)), calls);
      P.DeliversWholeFrames(buf, Stream(messages), calls);
      FramesAreSendable(d.consumed);
      OversizeIsNotSendable(messages);
      assert d.delivered <= Parse(d.consumed).frames;
    }
  }
}
