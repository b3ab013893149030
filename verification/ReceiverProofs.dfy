/** The resumable receiver against the reference parser, for every byte stream and
    every way of cutting it up. */
module ReceiverProofs {
  import opened Framing
  import opened Receiver

  /** The value of the header bytes seen so far, the missing ones counted as zero. */
  function HeaderValue(h: seq<byte>): nat
    requires |h| <= 2
  {
    (if |h| > 0 then h[0] as nat * 256 else 0) + (if |h| > 1 then h[1] as nat else 0)
  }

  lemma OrHeaderIsBigEndian(h: seq<byte>, chunk: seq<byte>)
    requires |h| + |chunk| <= 2
    ensures OrHeader(HeaderValue(h), |h|, chunk) == HeaderValue(h + chunk)
  {
    if |chunk| > 0 {
      var size := BitOr(HeaderValue(h), ShiftBytes(chunk[0] as nat, 1 - |h|));
      if |h| == 0 {
        assert ShiftBytes(chunk[0] as nat, 1) == 256 * ShiftBytes(chunk[0] as nat, 0);
        assert size == chunk[0] as nat * 256;
        if |chunk| == 2 {
          OrLowByte(chunk[0] as nat, chunk[1]);
          assert chunk[1..][1..] == [];
          assert OrHeader(size, 1, chunk[1..]) == OrHeader(BitOr(size, chunk[1] as nat), 2, []);
        } else {
          assert chunk[1..] == [];
        }
      } else {
        OrLowByte(h[0] as nat, chunk[0]);
        assert chunk[1..] == [];
      }
    } else {
      assert h + chunk == h;
    }
  }

  // ------------------------------------------------------------ the invariant

  /** How the state of a receiver shows what has been consumed since the last whole
      frame. A frame of length zero is whole as soon as its header is in, but is
      delivered only by the call after that. */
  ghost predicate Shows(st: ReceiveState, buf: seq<byte>, delivered: seq<seq<byte>>, p: Parsed) {
    match st.phase
    case ReceivingSize =>
      && delivered == p.frames
      && |p.rest| == st.bytesReceived < 2
      && st.msgSize == HeaderValue(p.rest)
    case ReceivingMsg =>
      if st.msgSize == 0 then
        p.frames == delivered + [[]] && p.rest == [] && st.bytesReceived == 0
      else
        && delivered == p.frames
        && st.bytesReceived < st.msgSize < LIMIT
        && |p.rest| == 2 + st.bytesReceived
        && p.rest[..2] == Be16(st.msgSize)
        && |buf| >= st.bytesReceived && buf[..st.bytesReceived] == p.rest[2..]
    case Finished =>
      && delivered == p.frames && p.rest == []
      && delivered != [] && buf == delivered[|delivered| - 1]
      && st.msgSize == st.bytesReceived == |buf|
  }

  ghost predicate Tracks(c: Connection) {
    Shows(c.st, c.buf, c.delivered, Parse(c.consumed))
  }

  lemma PartialParse(bytes: seq<byte>)
    requires !Led(bytes)
    ensures Parse(bytes) == Parsed([], bytes)
  {}

  lemma HeaderOnly(h: seq<byte>)
    requires |h| == 2
    ensures Parse(h) == if FromBe16(h) == 0 then Parsed([[]], []) else Parsed([], h)
  {
    assert h[..2] == h;
    if FromBe16(h) == 0 {
      assert h[2..2] == [] && h[2..] == [];
      PartialParse([]);
      ParseLed(h);
    } else {
      PartialParse(h);
    }
  }

  /** A call in the header phase, `h` being the header bytes already in. */
  lemma SizeStep(st: ReceiveState, buf: seq<byte>, delivered: seq<seq<byte>>, h: seq<byte>, chunk: seq<byte>)
    requires |h| + |chunk| <= 2 && |h| < 2
    requires st == ReceiveState(HeaderValue(h), |h|, ReceivingSize)
    ensures var p := Parse(h + chunk);
            Shows(RecvSizePart(st, chunk), buf, delivered, Parsed(delivered + p.frames, p.rest))
  {
    var all := h + chunk;
    OrHeaderIsBigEndian(h, chunk);
    assert delivered + [] == delivered;
    if |all| < 2 {
      PartialParse(all);
      hide Parse, OrHeader, HeaderValue;
    } else {
      HeaderOnly(all);
      Be16RoundTrip(FromBe16(all), all);
      assert HeaderValue(all) == FromBe16(all);
      hide Parse, Be16, FromBe16, OrHeader, HeaderValue;
      assert all[..2] == all && all[2..] == [];
    }
  }

  lemma StoreKeepsPrefix(buf: seq<byte>, n: nat, at: nat, chunk: seq<byte>)
    requires at + |chunk| <= n && at <= |buf|
    ensures var r := Store(Resize(buf, n), at, chunk);
            |r| == n && r[..at + |chunk|] == buf[..at] + chunk
  {}

  /** A call in the message phase, `body` being the payload bytes already in. */
  lemma MsgStep(st: ReceiveState, buf: seq<byte>, delivered: seq<seq<byte>>, body: seq<byte>, chunk: seq<byte>)
    requires st.phase == ReceivingMsg && 0 < st.msgSize < LIMIT
    requires |body| == st.bytesReceived < st.msgSize && |body| + |chunk| <= st.msgSize
    requires |buf| >= |body| && buf[..|body|] == body
    ensures var (buf', st') := RecvMsgPart(buf, st, chunk);
            var p := Parse(Be16(st.msgSize) + (body + chunk));
            Shows(st', buf', if st'.phase == Finished then delivered + [buf'] else delivered,
                  Parsed(delivered + p.frames, p.rest))
  {
    var m, data := st.msgSize, body + chunk;
    var (buf', st') := RecvMsgPart(buf, st, chunk);
    StoreKeepsPrefix(buf, m, |body|, chunk);
    assert buf'[..|data|] == data;
    hide RecvMsgPart, Store, Resize, Parse;
    if |data| < m {
      PartialFrame(m, data);
      assert delivered + [] == delivered;
      assert st' == ReceiveState(m, |data|, ReceivingMsg) by { MsgStates(st, buf, chunk); }
      assert (Be16(m) + data)[..2] == Be16(m) && (Be16(m) + data)[2..] == data;
    } else {
      assert buf' == buf'[..m];
      WholeFrame(data);
      assert st' == ReceiveState(m, m, Finished) by { MsgStates(st, buf, chunk); }
    }
  }

  lemma MsgStates(st: ReceiveState, buf: seq<byte>, chunk: seq<byte>)
    requires st.phase == ReceivingMsg && st.bytesReceived + |chunk| <= st.msgSize
    ensures var received := st.bytesReceived + |chunk|;
            RecvMsgPart(buf, st, chunk).1 ==
              ReceiveState(st.msgSize, received, if received < st.msgSize then ReceivingMsg else Finished)
  {}

  lemma PartialFrame(m: nat, data: seq<byte>)
    requires |data| < m < LIMIT
    ensures Parse(Be16(m) + data) == Parsed([], Be16(m) + data)
  {
    assert (Be16(m) + data)[..2] == Be16(m);
    Be16RoundTrip(m, Be16(m));
    PartialParse(Be16(m) + data);
  }

  // ------------------------------------------------------------- one call, any call

  lemma AdvanceBytes(c: Connection, call: Call)
    requires Usable(c.st)
    ensures Advance(c, call).consumed + Advance(c, call).stream == c.consumed + c.stream
  {
    if call.Gets? {
      var n := Min(call.limit, Min(Want(c.st), |c.stream|));
      assert c.stream == c.stream[..n] + c.stream[n..];
      assert (c.consumed + c.stream[..n]) + c.stream[n..] == c.consumed + (c.stream[..n] + c.stream[n..]);
    }
  }

  lemma BlockedTracks(c: Connection)
    requires Usable(c.st) && Tracks(c)
    ensures Tracks(Advance(c, WouldBlock))
  {
    hide Parse;
  }

  /** What one recv_part call has to show. */
  ghost predicate Showing(c: Connection, chunk: seq<byte>, p: Parsed)
    requires Usable(c.st) && |chunk| <= Want(c.st)
  {
    var (buf, st) := RecvPart(c.buf, c.st, chunk);
    Shows(st, buf, if st.phase == Finished then c.delivered + [buf] else c.delivered, p)
  }

  lemma RecvHeaderTracks(c: Connection, chunk: seq<byte>, p: Parsed)
    requires Usable(c.st) && Shows(c.st, c.buf, c.delivered, p) && |chunk| <= Want(c.st)
    requires c.st.phase != ReceivingMsg
    ensures Showing(c, chunk, Continue(p, chunk))
  {
    var st := if c.st.phase == Finished then FRESH else c.st;
    SizeStep(st, c.buf, c.delivered, p.rest, chunk);
    hide Parse;
    assert RecvSizePart(st, chunk).phase != Finished;
  }

  lemma RecvEmptyTracks(c: Connection, chunk: seq<byte>, p: Parsed)
    requires Usable(c.st) && Shows(c.st, c.buf, c.delivered, p) && |chunk| <= Want(c.st)
    requires c.st.phase == ReceivingMsg && c.st.msgSize == 0
    ensures Showing(c, chunk, Continue(p, chunk))
  {
    assert p.rest + chunk == [];
    PartialParse([]);
    assert p.frames + [] == p.frames;
  }

  lemma RecvBodyTracks(c: Connection, chunk: seq<byte>, p: Parsed)
    requires Usable(c.st) && Shows(c.st, c.buf, c.delivered, p) && |chunk| <= Want(c.st)
    requires c.st.phase == ReceivingMsg && c.st.msgSize > 0
    ensures Showing(c, chunk, Continue(p, chunk))
  {
    var body := p.rest[2..];
    MsgStep(c.st, c.buf, c.delivered, body, chunk);
    assert p.frames == c.delivered && p.rest[..2] == Be16(c.st.msgSize);
    hide Shows, Parse, RecvMsgPart, Be16;
    assert p.rest == p.rest[..2] + body;
    Regroup(p.rest[..2], body, chunk);
  }

  lemma RecvTracks(c: Connection, chunk: seq<byte>)
    requires Usable(c.st) && Tracks(c) && |chunk| <= Want(c.st)
    ensures Showing(c, chunk, Parse(c.consumed + chunk))
  {
    ParseAppend(c.consumed, chunk);
    hide Parse, Showing, Shows;
    var p := Parse(c.consumed);
    if c.st.phase != ReceivingMsg {
      RecvHeaderTracks(c, chunk, p);
    } else if c.st.msgSize == 0 {
      RecvEmptyTracks(c, chunk, p);
    } else {
      RecvBodyTracks(c, chunk, p);
    }
  }

  lemma AdvanceTracks(c: Connection, call: Call)
    requires Usable(c.st) && Tracks(c)
    ensures Tracks(Advance(c, call))
  {
    match call
    case WouldBlock => BlockedTracks(c);
    case Gets(limit) =>
      var n := Min(limit, Min(Want(c.st), |c.stream|));
      RecvTracks(c, c.stream[..n]);
      hide Shows, Parse;
  }

  /** For every stream of bytes and every sequence of calls, whatever each of them
      gets: the frames delivered and the state reached are those the reference
      parser finds in the bytes consumed, so they depend on nothing else. */
  lemma {:induction false} ReceiverTracksParser(c: Connection, calls: seq<Call>)
    requires Usable(c.st) && Tracks(c)
    ensures var d := Drive(c, calls); Tracks(d) && d.consumed + d.stream == c.consumed + c.stream
    decreases |calls|
  {
    hide Tracks;
    if calls != [] {
      AdvanceTracks(c, calls[0]);
      AdvanceBytes(c, calls[0]);
      ReceiverTracksParser(Advance(c, calls[0]), calls[1..]);
    }
  }

  lemma ConnectedTracks(buf: seq<byte>, stream: seq<byte>)
    ensures Tracks(Connected(buf, stream))
  {
    PartialParse([]);
  }

  /** A frame of length zero has its header in and waits for the next call. */
  predicate EmptyFrameWaits(st: ReceiveState) {
    st.phase == ReceivingMsg && st.msgSize == 0
  }

  /** Prefix safety: on any stream at any point, exactly the frames wholly inside the
      bytes consumed have been delivered, except that a frame of length zero may
      still wait for the call after its header. */
  lemma DeliversWholeFrames(buf: seq<byte>, stream: seq<byte>, calls: seq<Call>)
    ensures var d := Drive(Connected(buf, stream), calls);
            && d.consumed + d.stream == stream
            && Parse(d.consumed).frames == d.delivered + if EmptyFrameWaits(d.st) then [[]] else []
  {
    ConnectedTracks(buf, stream);
    ReceiverTracksParser(Connected(buf, stream), calls);
    assert [] + stream == stream;
    var d := Drive(Connected(buf, stream), calls);
    hide Parse;
    assert d.delivered + [] == d.delivered;
  }

  /** A call that finds no bytes, and throws, is as if it had not been made, but that a
      buffer being filled has the length of its message, with what is in it kept. */
  lemma BlockedCallChangesNothing(c: Connection)
    requires Usable(c.st)
    ensures var d := Advance(c, WouldBlock);
            && d.st == c.st && d.delivered == c.delivered && d.consumed == c.consumed && d.stream == c.stream
            && (c.st.phase == ReceivingMsg ==>
                  && |d.buf| == c.st.msgSize
                  && forall i :: 0 <= i < |c.buf| && i < |d.buf| ==> d.buf[i] == c.buf[i])
            && (c.st.phase != ReceivingMsg ==> d.buf == c.buf)
  {}

  // ---------------------------------------------------------------- round trip

  lemma ConsumedFrames(consumed: seq<byte>, stream: seq<byte>, payloads: seq<seq<byte>>)
    requires Sendable(payloads) && consumed + stream == Encode(payloads)
    ensures Parse(consumed).frames <= payloads
    ensures stream == [] ==> Parse(consumed) == Parsed(payloads, [])
    ensures Parse(consumed).frames == payloads ==> stream == []
  {
    ParseEncode(payloads, []);
    assert Encode(payloads) + [] == Encode(payloads);
    assert Parse([]) == Parsed([], []) && payloads + [] == payloads;
    ParseAppend(consumed, stream);
    hide Parse;
    if stream == [] { assert consumed + stream == consumed; }
    var p := Parse(consumed);
    var q := Parse(p.rest + stream);
    assert payloads == p.frames + q.frames && q.rest == [];
    if p.frames == payloads {
      assert q.frames == [];
      NoFramesMeansRest(p.rest + stream);
    }
  }

  lemma NoFramesMeansRest(bytes: seq<byte>)
    requires Parse(bytes).frames == []
    ensures Parse(bytes).rest == bytes
  {}

  /** The round trip: for every list of payloads that fit a frame and every way the
      stream is cut up, what has been delivered is always a prefix of the payloads,
      and once the stream is exhausted it is all of them, a last empty one at most
      waiting for one more call. */
  lemma RoundTrip(buf: seq<byte>, payloads: seq<seq<byte>>, calls: seq<Call>)
    requires Sendable(payloads)
    ensures var d := Drive(Connected(buf, Encode(payloads)), calls);
            && d.delivered <= payloads
            && (d.stream == [] ==> payloads == d.delivered + if EmptyFrameWaits(d.st) then [[]] else [])
  {
    DeliversWholeFrames(buf, Encode(payloads), calls);
    var d := Drive(Connected(buf, Encode(payloads)), calls);
    hide Parse, Drive;
    ConsumedFrames(d.consumed, d.stream, payloads);
  }

  /** What is still to come: bytes to receive and payloads to deliver. */
  ghost function Left(c: Connection, payloads: seq<seq<byte>>): int {
    |c.stream| + |payloads| - |c.delivered|
  }

  ghost predicate Carries(c: Connection, payloads: seq<seq<byte>>) {
    Usable(c.st) && Tracks(c) && Sendable(payloads) && c.consumed + c.stream == Encode(payloads)
  }

  /** Whether a frame of length zero waits accounts for all that is not delivered yet. */
  lemma TracksDelivered(c: Connection)
    requires Tracks(c)
    ensures Parse(c.consumed).frames == c.delivered + if EmptyFrameWaits(c.st) then [[]] else []
    ensures Usable(c.st) && Want(c.st) == 0 ==> EmptyFrameWaits(c.st)
  {
    hide Parse;
    assert c.delivered + [] == c.delivered;
  }

  /** A call that gets something, or completes an empty frame, makes progress until
      everything is delivered. */
  lemma CallMakesProgress(c: Connection, payloads: seq<seq<byte>>, limit: nat)
    requires Carries(c, payloads) && limit > 0
    ensures Left(c, payloads) >= 0
    ensures c.delivered != payloads ==> Left(Advance(c, Gets(limit)), payloads) < Left(c, payloads)
    ensures c.delivered == payloads <==> Left(c, payloads) == 0
  {
    TracksDelivered(c);
    ConsumedFrames(c.consumed, c.stream, payloads);
    hide Tracks, Parse, Encode;
    if c.delivered == payloads {
      assert |c.delivered| <= |Parse(c.consumed).frames| <= |payloads|;
      assert Parse(c.consumed).frames == payloads;
    } else if Min(limit, Min(Want(c.st), |c.stream|)) == 0 && Want(c.st) == 0 {
      assert Advance(c, Gets(limit)).st.phase == Finished;
    }
  }

  lemma AdvanceCarries(c: Connection, payloads: seq<seq<byte>>, call: Call)
    requires Carries(c, payloads)
    ensures Carries(Advance(c, call), payloads)
  {
    AdvanceTracks(c, call);
    AdvanceBytes(c, call);
  }

  ghost predicate NoneIdle(calls: seq<Call>) {
    forall k :: 0 <= k < |calls| ==> calls[k].Gets? && calls[k].limit > 0
  }

  lemma NoneIdleAfterFirst(calls: seq<Call>)
    requires NoneIdle(calls) && calls != []
    ensures calls[0].Gets? && calls[0].limit > 0 && NoneIdle(calls[1..])
  {}

  /** Completeness: whatever the chunks, as many calls as there are bytes and payloads
      left, none of them idle, deliver everything. */
  lemma {:induction false} EnoughCallsDeliver(c: Connection, payloads: seq<seq<byte>>, calls: seq<Call>)
    requires Carries(c, payloads) && |calls| >= Left(c, payloads)
    requires NoneIdle(calls)
    ensures Drive(c, calls).delivered == payloads
    decreases |calls|
  {
    assert Usable(c.st);
    hide Carries, Advance, NoneIdle;
    if calls == [] {
      CallMakesProgress(c, payloads, 1);
    } else {
      NoneIdleAfterFirst(calls);
      CallMakesProgress(c, payloads, calls[0].limit);
      AdvanceCarries(c, payloads, calls[0]);
      if c.delivered == payloads { StaysDelivered(c, payloads, calls[0]); }
      EnoughCallsDeliver(Advance(c, calls[0]), payloads, calls[1..]);
    }
  }

  lemma StaysDelivered(c: Connection, payloads: seq<seq<byte>>, call: Call)
    requires Carries(c, payloads) && c.delivered == payloads
    ensures Left(Advance(c, call), payloads) == 0
  {
    CallMakesProgress(c, payloads, 1);
    TracksDelivered(c);
    ConsumedFrames(c.consumed, c.stream, payloads);
    AdvanceCarries(c, payloads, call);
    var d := Advance(c, call);
    TracksDelivered(d);
    ConsumedFrames(d.consumed, d.stream, payloads);
    CallMakesProgress(d, payloads, 1);
  }

  // ------------------------------------------- agreement with the blocking receiver

  /** Between frames: nothing received of the next one. */
  predicate AtBoundary(st: ReceiveState) {
    st == FRESH || st.phase == Finished
  }

  lemma BoundaryMeansNothingLeft(c: Connection)
    requires Tracks(c) && AtBoundary(c.st)
    ensures Parse(c.consumed) == Parsed(c.delivered, [])
  {
    hide Parse;
  }

  lemma OneFrame(x: seq<byte>, frame: seq<byte>)
    requires Parse(x) == Parsed([frame], [])
    ensures Led(x) && |x| == 2 + FromBe16(x[..2]) && x[2..] == frame
  {
    hide Parse, FromBe16, Led;
    FramesMeanLed(x);
    LedLength(x);
    var n := FromBe16(x[..2]);
    ParseLed(x);
    Singleton(frame, x[2..2 + n], Parse(x[2 + n..]).frames);
    NoFramesMeansRest(x[2 + n..]);
    assert |x[2 + n..]| == 0;
  }

  lemma FramesMeanLed(x: seq<byte>)
    requires Parse(x).frames != []
    ensures Led(x)
  {}

  lemma LedLength(x: seq<byte>)
    requires Led(x)
    ensures |x| >= 2 && |x| >= 2 + FromBe16(x[..2])
  {}

  lemma Singleton<T>(a: T, b: T, rest: seq<T>)
    requires [a] == [b] + rest
    ensures a == b && rest == []
  {
    assert ([b] + rest)[0] == b;
    assert |[b] + rest| == 1 + |rest|;
  }

  lemma Splice(a: seq<byte>, s: seq<byte>, n: nat, y: seq<byte>, t: seq<byte>)
    requires n <= |s| && y + t == s[n..]
    ensures (a + s[..n]) + y == a + (s[..n] + y)
    ensures (s[..n] + y) + t == s
  {
    assert (s[..n] + y) + t == s[..n] + (y + t);
  }

  lemma AdvanceConsumes(c: Connection, call: Call) returns (n: nat)
    requires Usable(c.st)
    ensures n <= |c.stream|
    ensures Advance(c, call).consumed == c.consumed + c.stream[..n] && Advance(c, call).stream == c.stream[n..]
  {
    n := if call.Gets? then Min(call.limit, Min(Want(c.st), |c.stream|)) else 0;
  }

  /** The bytes that took a receiver from one state to another. */
  lemma {:induction false} DriveConsumes(c: Connection, calls: seq<Call>) returns (x: seq<byte>)
    requires Usable(c.st)
    ensures var d := Drive(c, calls); d.consumed == c.consumed + x && x + d.stream == c.stream
    decreases |calls|
  {
    hide Advance;
    x := [];
    if calls != [] {
      var n := AdvanceConsumes(c, calls[0]);
      var y := DriveConsumes(Advance(c, calls[0]), calls[1..]);
      Splice(c.consumed, c.stream, n, y, Drive(c, calls).stream);
      x := c.stream[..n] + y;
    }
  }

  lemma RecvOfFrame(x: seq<byte>, rest: seq<byte>)
    requires Led(x) && |x| == 2 + FromBe16(x[..2])
    ensures Recv(x + rest) == Message(x[2..], rest)
  {
    LedPrefix(x, rest);
    assert x[2..2 + FromBe16(x[..2])] == x[2..];
    assert x[2 + FromBe16(x[..2])..] + rest == rest;
  }

  /** The resumable receiver refines the blocking one: any run of calls that starts
      between two frames and ends at the next finished state has filled the buffer
      and used up the stream exactly as one blocking recv does. */
  lemma RunsAgreeWithRecv(c: Connection, calls: seq<Call>)
    requires Usable(c.st) && Tracks(c) && AtBoundary(c.st)
    requires var d := Drive(c, calls); d.st.phase == Finished && |d.delivered| == |c.delivered| + 1
    ensures var d := Drive(c, calls); Recv(c.stream) == Message(d.buf, d.stream)
  {
    var d := Drive(c, calls);
    ReceiverTracksParser(c, calls);
    var x := DriveConsumes(c, calls);
    BoundaryMeansNothingLeft(c);
    BoundaryMeansNothingLeft(d);
    assert d.buf == d.delivered[|d.delivered| - 1];
    ParseAppend(c.consumed, x);
    hide Tracks, Drive, Parse;
    assert [] + x == x;
    assert d.delivered == c.delivered + Parse(x).frames;
    assert Parse(x).frames == [d.buf];
    OneFrame(x, d.buf);
    RecvOfFrame(x, d.stream);
  }

  /** Where the blocking receiver reports truncation, no run ever finishes a frame. */
  lemma TruncatedNeverFinishes(buf: seq<byte>, stream: seq<byte>, calls: seq<Call>)
    requires !Recv(stream).Message?
    ensures var d := Drive(Connected(buf, stream), calls); d.delivered == [] && d.st.phase != Finished
  {
    var d := Drive(Connected(buf, stream), calls);
    ConnectedTracks(buf, stream);
    ReceiverTracksParser(Connected(buf, stream), calls);
    assert [] + stream == stream;
    assert !Led(stream);
    PartialParse(stream);
    ParseAppend(d.consumed, d.stream);
    TracksDelivered(d);
    hide Parse, Drive;
  }

  lemma FullHeaderCall(buf: seq<byte>, stream: seq<byte>)
    requires |stream| >= 2
    ensures var d := Advance(Connected(buf, stream), Gets(2));
            && d.st == ReceiveState(FromBe16(stream[..2]), 0, ReceivingMsg)
            && d.stream == stream[2..] && d.delivered == []
  {
    var h := stream[..2];
    assert [] + h == h;
    OrHeaderIsBigEndian([], h);
    assert HeaderValue(h) == FromBe16(h);
    hide OrHeader, HeaderValue, FromBe16;
  }

  lemma FullBodyCall(c: Connection)
    requires c.st.phase == ReceivingMsg && c.st.bytesReceived == 0 && c.st.msgSize <= |c.stream| && c.st.msgSize < LIMIT
    ensures Usable(c.st)
    ensures var d := Advance(c, Gets(LIMIT)); d.st.phase == Finished && |d.delivered| == |c.delivered| + 1
  {
    hide Store, Resize;
  }

  /** Where it delivers a message, two calls that get all they ask for do too. */
  lemma MessageCanFinish(buf: seq<byte>, stream: seq<byte>)
    requires Recv(stream).Message?
    ensures var d := Drive(Connected(buf, stream), [Gets(2), Gets(LIMIT)]);
            d.st.phase == Finished && Message(d.buf, d.stream) == Recv(stream)
  {
    var c := Connected(buf, stream);
    var d := Advance(c, Gets(2));
    ConnectedTracks(buf, stream);
    FullHeaderCall(buf, stream);
    FullBodyCall(d);
    hide Advance, Tracks, FromBe16;
    TwoCalls(c, Gets(2), Gets(LIMIT));
    RunsAgreeWithRecv(c, [Gets(2), Gets(LIMIT)]);
  }

  lemma TwoCalls(c: Connection, a: Call, b: Call)
    requires Usable(c.st)
    ensures Drive(c, [a, b]) == Advance(Advance(c, a), b)
  {
    hide Advance;
    assert [a, b][1..] == [b] && [b][1..] == [];
    assert Drive(c, [a, b]) == Drive(Advance(c, a), [b]) == Drive(Advance(Advance(c, a), b), []);
  }

  // ------------------------------------------------------------ chunk independence

  /** Two runs that have consumed equally many bytes of the same stream agree: on what
      they delivered, and on their state, except that a run between two frames may
      or may not have been called since. (Runs with an empty frame waiting are one
      call behind.) */
  lemma ChunksDoNotMatter(buf: seq<byte>, stream: seq<byte>, calls: seq<Call>, calls': seq<Call>)
    requires var d, d' := Drive(Connected(buf, stream), calls), Drive(Connected(buf, stream), calls');
             |d.consumed| == |d'.consumed| && !EmptyFrameWaits(d.st) && !EmptyFrameWaits(d'.st)
    ensures var d, d' := Drive(Connected(buf, stream), calls), Drive(Connected(buf, stream), calls');
            d.delivered == d'.delivered && (d.st == d'.st || (AtBoundary(d.st) && AtBoundary(d'.st)))
  {
    var d, d' := Drive(Connected(buf, stream), calls), Drive(Connected(buf, stream), calls');
    ConnectedTracks(buf, stream);
    ReceiverTracksParser(Connected(buf, stream), calls);
    ReceiverTracksParser(Connected(buf, stream), calls');
    assert d.consumed == (d.consumed + d.stream)[..|d.consumed|];
    assert d'.consumed == (d'.consumed + d'.stream)[..|d.consumed|];
    hide Parse, Drive;
    SameParseSameState(d, d');
  }

  lemma SameParseSameState(d: Connection, d': Connection)
    requires Tracks(d) && Tracks(d') && d.consumed == d'.consumed
    requires !EmptyFrameWaits(d.st) && !EmptyFrameWaits(d'.st)
    ensures d.delivered == d'.delivered && (d.st == d'.st || (AtBoundary(d.st) && AtBoundary(d'.st)))
  {
    hide Parse;
    if d.st.phase == ReceivingMsg && d'.st.phase == ReceivingMsg {
      Be16RoundTrip(d.st.msgSize, Be16(d.st.msgSize));
      Be16RoundTrip(d'.st.msgSize, Be16(d'.st.msgSize));
    }
  }
}
