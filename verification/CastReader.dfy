/** The buffer-and-drain loop that turns arbitrary read chunks back into frames. */
module CastReader {
  import opened Wrappers
  import opened CastProto

  /** Every frame that can be taken off the front of buf, in order, and the bytes that stay behind. */
  function Drain(buf: seq<byte>): (seq<CastMessage>, seq<byte>)
    decreases |buf|
  {
    match DecodeFrame(buf)
    case None => ([], buf)
    case Some((m, n)) =>
      var (ms, rest) := Drain(buf[n..]);
      ([m] + ms, rest)
  }

  /** The session's inbound side: bytes received and not yet taken as frames. */
  class FrameReader {
    var readBuf: seq<byte>

    constructor ()
      ensures readBuf == []
    {
      readBuf := [];
    }

    /** One read: append the chunk, then take frames until none is complete. */
    method Receive(chunk: seq<byte>) returns (messages: seq<CastMessage>)
      modifies this
      ensures (messages, readBuf) == Drain(old(readBuf) + chunk)
      ensures DecodeFrame(readBuf) == None
    {
      readBuf := readBuf + chunk;
      messages := [];
      assert messages + Drain(readBuf).0 == Drain(readBuf).0;
      while true
        invariant Drain(old(readBuf) + chunk) == (messages + Drain(readBuf).0, Drain(readBuf).1)
        decreases |readBuf|
      {
        match DecodeFrame(readBuf) {
          case None =>
            assert messages + [] == messages;
            break;
          case Some((m, n)) =>
            assert messages + ([m] + Drain(readBuf[n..]).0) == messages + [m] + Drain(readBuf[n..]).0;
            messages := messages + [m];
            readBuf := readBuf[n..];
        }
      }
    }
  }

  /** The reader over a whole sequence of chunks, one `Receive` per chunk. */
  method ReceiveAll(chunks: seq<seq<byte>>) returns (delivered: seq<CastMessage>, left: seq<byte>)
    ensures (delivered, left) == Received(chunks)
  {
    var reader := new FrameReader();
    delivered := [];
    for i := 0 to |chunks|
      invariant (delivered, reader.readBuf) == Received(chunks[..i])
    {
      assert chunks[..i + 1][..i] == chunks[..i];
      var messages := reader.Receive(chunks[i]);
      delivered := delivered + messages;
    }
    assert chunks[..|chunks|] == chunks;
    left := reader.readBuf;
  }

  /** Messages delivered and bytes still buffered after reading the chunks one at a time. */
  function Received(chunks: seq<seq<byte>>): (seq<CastMessage>, seq<byte>) {
    if chunks == [] then ([], [])
    else
      var (ms, buf) := Received(chunks[..|chunks| - 1]);
      var (new', rest) := Drain(buf + chunks[|chunks| - 1]);
      (ms + new', rest)
  }

  /** The byte stream a peer writes for a list of messages. */
  function Stream(messages: seq<CastMessage>): seq<byte> {
    if messages == [] then [] else Frame(messages[0]) + Stream(messages[1..])
  }

  ghost predicate Framable(messages: seq<CastMessage>) {
    forall i | 0 <= i < |messages| :: |EncodeMessage(messages[i])| < U32_RANGE
  }

  // ---- What a drain leaves ----------------------------------------------------------------------

  /** How many bytes a drain takes off the front. */
  function TakenBytes(buf: seq<byte>): (k: nat)
    ensures k <= |buf|
    decreases |buf|
  {
    match DecodeFrame(buf)
    case None => 0
    case Some((_, n)) => n + TakenBytes(buf[n..])
  }

  /** What a drain leaves is the untouched tail, which holds no complete decodable frame; each delivered
      frame took at least four bytes. */
  lemma {:induction false} DrainLeavesTail(buf: seq<byte>)
    ensures Drain(buf).1 == buf[TakenBytes(buf)..]
    ensures 4 * |Drain(buf).0| <= TakenBytes(buf)
    ensures DecodeFrame(Drain(buf).1) == None
    decreases |buf|
  {
    match DecodeFrame(buf) {
      case None =>
      case Some((m, n)) =>
        DrainLeavesTail(buf[n..]);
        assert buf[n..][TakenBytes(buf[n..])..] == buf[n + TakenBytes(buf[n..])..];
    }
  }

  lemma DrainStep(buf: seq<byte>, m: CastMessage, n: nat)
    requires DecodeFrame(buf) == Some((m, n))
    ensures Drain(buf) == ([m] + Drain(buf[n..]).0, Drain(buf[n..]).1)
  {
  }

  /** The bytes a drain takes are whole frames that decode to exactly the delivered messages. */
  lemma {:induction false} DrainTakesWholeFrames(buf: seq<byte>)
    ensures Drain(buf[..TakenBytes(buf)]) == (Drain(buf).0, [])
    decreases |buf|
  {
    hide DecodeFrame;
    var next := DecodeFrame(buf);
    if next.Some? {
      var (m, n) := next.value;
      var rest := buf[n..];
      var k := TakenBytes(rest);
      DrainTakesWholeFrames(rest);
      DecodeFrameOfPrefix(buf, n + k);
      assert buf[..n + k][n..] == rest[..k];
      DrainStep(buf[..n + k], m, n);
      DrainStep(buf, m, n);
    }
  }

  /** Draining early and then again is draining once: chunk borders do not matter, for any bytes. */
  lemma {:induction false} DrainInTwoSteps(a: seq<byte>, b: seq<byte>)
    ensures var (ms, rest) := Drain(a);
            var (ms', rest') := Drain(rest + b);
            Drain(a + b) == (ms + ms', rest')
    decreases |a|
  {
    hide DecodeFrame;
    match DecodeFrame(a) {
      case None =>
        assert [] + Drain(a + b).0 == Drain(a + b).0;
      case Some((m, n)) =>
        DecodeFrameIgnoresSuffix(a, b);
        DrainStep(a, m, n);
        DrainStep(a + b, m, n);
        hide Drain;
        assert (a + b)[n..] == a[n..] + b;
        DrainInTwoSteps(a[n..], b);
        var (ms, rest) := Drain(a[n..]);
        Associative([m], ms, Drain(rest + b).0);
    }
  }

  /** However a stream is cut into chunks, reading it chunk by chunk equals draining it whole. */
  lemma {:induction false} ChunkingDoesNotMatter(chunks: seq<seq<byte>>)
    ensures Received(chunks) == Drain(Flatten(chunks))
  {
    if chunks != [] {
      var init, last := chunks[..|chunks| - 1], chunks[|chunks| - 1];
      assert chunks == init + [last];
      ChunkingDoesNotMatter(init);
      FlattenSnoc(init, last);
      DrainInTwoSteps(Flatten(init), last);
    }
  }

  /** After every read, the bytes received are the delivered frames followed by the buffer, which holds no
      complete frame. */
  lemma ReceivedConservesBytes(chunks: seq<seq<byte>>)
    ensures var (ms, buf) := Received(chunks);
            var all := Flatten(chunks);
            var k := TakenBytes(all);
      && all == all[..k] + buf
      && Drain(all[..k]) == (ms, [])
      && DecodeFrame(buf) == None
  {
    hide DecodeFrame, Drain, Received;
    ChunkingDoesNotMatter(chunks);
    DrainLeavesTail(Flatten(chunks));
    DrainTakesWholeFrames(Flatten(chunks));
  }

  /** A stream of frames followed by an incomplete one drains to its messages and that tail. */
  lemma {:induction false} DrainOfStream(messages: seq<CastMessage>, tail: seq<byte>)
    requires Framable(messages) && DecodeFrame(tail) == None
    ensures Drain(Stream(messages) + tail) == (messages, tail)
  {
    if messages == [] {
      assert Stream(messages) + tail == tail;
    } else {
      hide DecodeFrame, Drain, Frame, EncodeMessage;
      var first, later := messages[0], messages[1..];
      var frame, rest := Frame(first), Stream(later) + tail;
      Associative(frame, Stream(later), tail);
      assert Stream(messages) + tail == frame + rest;
      hide Stream;
      FrameRoundTrip(first, rest);
      DrainStep(frame + rest, first, |frame|);
      assert (frame + rest)[|frame|..] == rest;
      DrainOfStream(later, tail);
      assert [first] + later == messages;
    }
  }

  /** Reassembly: however the frames of a list of messages are cut into read chunks, exactly those
      messages are delivered, in order, and nothing stays buffered. */
  lemma StreamReassembly(messages: seq<CastMessage>, chunks: seq<seq<byte>>)
    requires Framable(messages) && Flatten(chunks) == Stream(messages)
    ensures Received(chunks) == (messages, [])
  {
    ChunkingDoesNotMatter(chunks);
    DrainOfStream(messages, []);
    assert Stream(messages) + [] == Stream(messages);
  }

  /** Midway through a frame, everything before it has been delivered and the cut frame is what waits. */
  lemma PartialStreamReassembly(messages: seq<CastMessage>, next: CastMessage, k: nat,
                                chunks: seq<seq<byte>>)
    requires Framable(messages + [next]) && k < |Frame(next)|
    requires Flatten(chunks) == Stream(messages) + Frame(next)[..k]
    ensures Received(chunks) == (messages, Frame(next)[..k])
  {
    ChunkingDoesNotMatter(chunks);
    assert (messages + [next])[|messages|] == next;
    assert forall i | 0 <= i < |messages| :: messages[i] == (messages + [next])[i];
    StrictPrefixIsIncomplete(next, k);
    DrainOfStream(messages, Frame(next)[..k]);
  }

  /** A complete frame at the head of the buffer whose payload does not decode. */
  predicate Stalled(buf: seq<byte>) {
    && |buf| >= 4
    && |buf| >= 4 + FromBigEndian(buf[..4])
    && DecodeMessage(buf[4..4 + FromBigEndian(buf[..4])]) == None
  }

  /** Head-of-line stall: once such a frame is at the head, no later bytes are ever delivered. And it is
      the only way to get stuck: in any other state with no complete frame, more bytes complete the
      announced length. */
  lemma UndecodableFrameStalls(buf: seq<byte>, more: seq<byte>)
    requires DecodeFrame(buf) == None
    ensures Stalled(buf) ==> Drain(buf + more) == ([], buf + more)
    ensures !Stalled(buf) ==> |buf| < 4 || |buf| < 4 + FromBigEndian(buf[..4])
  {
    if Stalled(buf) {
      var total := 4 + FromBigEndian(buf[..4]);
      assert (buf + more)[..4] == buf[..4] && (buf + more)[4..total] == buf[4..total];
    }
  }

  /** One byte that is no field key is enough. */
  lemma StalledBufferExists()
    ensures Stalled([0, 0, 0, 1, 0])
  {
    var buf: seq<byte> := [0, 0, 0, 1, 0];
    assert buf[..4] == [0, 0, 0, 1] && buf[4..5] == [0];
  }

  lemma StalledStays(buf: seq<byte>, more: seq<byte>)
    requires Stalled(buf)
    ensures Stalled(buf + more) && DecodeFrame(buf + more) == None
  {
    var total := 4 + FromBigEndian(buf[..4]);
    assert (buf + more)[..4] == buf[..4] && (buf + more)[4..total] == buf[4..total];
  }
}
