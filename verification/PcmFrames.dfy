/** The canonical PCM frame and the capture pump that cuts a byte stream into frames. A sample is kept as
    the 32-bit pattern of its little-endian float. */
module PcmFrames {
  import opened Wrappers

  const CHANNELS: nat := 2
  const FRAME_SIZE: nat := 960
  const SAMPLES_PER_FRAME: nat := FRAME_SIZE * CHANNELS
  const BYTES_PER_FRAME: nat := SAMPLES_PER_FRAME * 4
  const BROADCAST_CAPACITY: nat := 256

  type Frame = seq<u32>

  function FromLittleEndian(b: seq<byte>): u32
    requires |b| == 4
  {
    b[0] + 256 * (b[1] + 256 * (b[2] + 256 * (b[3] as int)))
  }

  function Samples(bytes: seq<byte>): (frame: Frame)
    ensures |frame| == |bytes| / 4
  {
    if |bytes| < 4 then [] else [FromLittleEndian(bytes[..4])] + Samples(bytes[4..])
  }

  /** The full frames of a byte buffer; a trailing partial frame is dropped. */
  function SplitFrames(bytes: seq<byte>): (frames: seq<Frame>)
    ensures |frames| == |bytes| / BYTES_PER_FRAME
  {
    if |bytes| < BYTES_PER_FRAME then []
    else [Samples(bytes[..BYTES_PER_FRAME])] + SplitFrames(bytes[BYTES_PER_FRAME..])
  }

  /** Frame i is made of bytes 7680 i to 7680 (i + 1), and so does not depend on what comes later. */
  lemma {:induction false} SplitFramesAt(bytes: seq<byte>, i: nat)
    requires i < |SplitFrames(bytes)|
    ensures BYTES_PER_FRAME * (i + 1) <= |bytes|
    ensures SplitFrames(bytes)[i] == Samples(bytes[BYTES_PER_FRAME * i..BYTES_PER_FRAME * (i + 1)])
  {
    hide Samples;
    if i > 0 {
      var rest := bytes[BYTES_PER_FRAME..];
      SplitFramesAt(rest, i - 1);
      assert rest[BYTES_PER_FRAME * (i - 1)..BYTES_PER_FRAME * i]
          == bytes[BYTES_PER_FRAME * i..BYTES_PER_FRAME * (i + 1)];
    }
  }

  lemma {:induction false} SamplesAt(bytes: seq<byte>, j: nat)
    requires 4 * (j + 1) <= |bytes|
    ensures Samples(bytes)[j] == (bytes[4 * j] as int) + 0x100 * (bytes[4 * j + 1] as int)
                                 + 0x1_0000 * (bytes[4 * j + 2] as int) + 0x100_0000 * (bytes[4 * j + 3] as int)
  {
    if j > 0 {
      SamplesAt(bytes[4..], j - 1);
      assert bytes[4..][4 * (j - 1)] == bytes[4 * j];
    }
  }

  /** The frames of a buffer are all its full 7680 bytes, 1920 samples each; sample j of frame i is the 32-bit
      pattern of the four bytes from 7680 i + 4 j on, the least significant first. */
  lemma SampleAt(bytes: seq<byte>, i: nat, j: nat)
    requires 7680 * (i + 1) <= |bytes| && j < 1920
    ensures var frames, o := SplitFrames(bytes), 7680 * i + 4 * j;
      && |frames| == |bytes| / 7680 && |frames[i]| == 1920
      && frames[i][j] == (bytes[o] as int) + 0x100 * (bytes[o + 1] as int) + 0x1_0000 * (bytes[o + 2] as int)
                         + 0x100_0000 * (bytes[o + 3] as int)
  {
    SplitFramesAt(bytes, i);
    var own := bytes[7680 * i..7680 * (i + 1)];
    SamplesAt(own, j);
    hide Samples, SplitFrames;
    assert own[4 * j] == bytes[7680 * i + 4 * j] && own[4 * j + 1] == bytes[7680 * i + 4 * j + 1];
    assert own[4 * j + 2] == bytes[7680 * i + 4 * j + 2] && own[4 * j + 3] == bytes[7680 * i + 4 * j + 3];
  }

  /** Frames already cut stay the same when more bytes arrive. */
  lemma {:induction false} SplitFramesPrefix(bytes: seq<byte>, more: seq<byte>)
    ensures SplitFrames(bytes) <= SplitFrames(bytes + more)
    decreases |bytes|
  {
    hide Samples;
    if |bytes| >= BYTES_PER_FRAME {
      assert (bytes + more)[..BYTES_PER_FRAME] == bytes[..BYTES_PER_FRAME];
      assert (bytes + more)[BYTES_PER_FRAME..] == bytes[BYTES_PER_FRAME..] + more;
      SplitFramesPrefix(bytes[BYTES_PER_FRAME..], more);
    }
  }

  /** The capture tool's stdout: chunks of any size, then end of file or a read error. */
  class ByteReader {
    var chunks: seq<seq<byte>>
    const endsCleanly: bool

    constructor (chunks: seq<seq<byte>>, endsCleanly: bool)
      requires [] !in chunks
      ensures this.chunks == chunks && this.endsCleanly == endsCleanly && Valid()
    {
      this.chunks, this.endsCleanly := chunks, endsCleanly;
    }

    ghost predicate Valid()
      reads this
    {
      [] !in chunks
    }

    /** Reads up to the rest of buf; 0 bytes means the stream has ended. */
    method ReadInto(buf: array<byte>, from: nat) returns (n: nat)
      requires Valid() && from < buf.Length
      modifies this, buf
      ensures Valid() && from + n <= buf.Length
      ensures n == 0 <==> old(Flatten(chunks)) == []
      ensures buf[..from] == old(buf[..from])
      ensures buf[from..from + n] + Flatten(chunks) == old(Flatten(chunks))
    {
      if chunks == [] {
        return 0;
      }
      var chunk := chunks[0];
      assert chunk in chunks;
      n := Min(|chunk|, buf.Length - from);
      forall k | 0 <= k < n {
        buf[from + k] := chunk[k];
      }
      assert buf[from..from + n] == chunk[..n];
      ghost var later := Flatten(chunks[1..]);
      if n == |chunk| {
        chunks := chunks[1..];
      } else {
        assert forall c <- chunks[1..] :: c in chunks;
        Associative(chunk[..n], chunk[n..], later);
        assert chunk == chunk[..n] + chunk[n..];
        chunks := [chunk[n..]] + chunks[1..];
        assert chunks[1..] == old(chunks)[1..];
      }
    }
  }

  /** The sending side of the PCM bus: everything sent so far. Sending never blocks or fails. */
  class PcmBus {
    var log: seq<Frame>

    constructor ()
      ensures log == []
    {
      log := [];
    }

    method Send(frame: Frame)
      modifies this
      ensures log == old(log) + [frame]
    {
      log := log + [frame];
    }
  }

  /** Fills buf exactly; false when the stream ends first. */
  method ReadExact(reader: ByteReader, buf: array<byte>) returns (ok: bool)
    requires reader.Valid() && buf.Length > 0
    modifies reader, buf
    ensures reader.Valid()
    ensures ok <==> |old(Flatten(reader.chunks))| >= buf.Length
    ensures ok ==> buf[..] + Flatten(reader.chunks) == old(Flatten(reader.chunks))
    ensures !ok ==> Flatten(reader.chunks) == []
  {
    ghost var input := Flatten(reader.chunks);
    var filled := 0;
    while filled < buf.Length
      invariant 0 <= filled <= buf.Length && reader.Valid()
      invariant buf[..filled] + Flatten(reader.chunks) == input
    {
      ghost var before, left := buf[..filled], Flatten(reader.chunks);
      var n := reader.ReadInto(buf, filled);
      if n == 0 {
        assert input == before;
        return false;
      }
      hide Flatten;
      assert buf[..filled + n] == before + buf[filled..filled + n];
      Associative(before, buf[filled..filled + n], Flatten(reader.chunks));
      filled := filled + n;
    }
    assert buf[..buf.Length] == buf[..];
    return true;
  }

  /** One turn of the capture loop: the next full frame is read and sent, if there is one. */
  method PumpOne(reader: ByteReader, buf: array<byte>, tx: PcmBus) returns (ok: bool)
    requires reader.Valid() && buf.Length == BYTES_PER_FRAME
    modifies reader, buf, tx
    ensures reader.Valid()
    ensures var frames := SplitFrames(old(Flatten(reader.chunks)));
      && (ok <==> frames != [])
      && (ok ==> tx.log == old(tx.log) + [frames[0]] && SplitFrames(Flatten(reader.chunks)) == frames[1..])
      && (!ok ==> tx.log == old(tx.log) && SplitFrames(Flatten(reader.chunks)) == [])
  {
    hide Samples;
    ghost var left := Flatten(reader.chunks);
    ok := ReadExact(reader, buf);
    if ok {
      assert left[..BYTES_PER_FRAME] == buf[..] && left[BYTES_PER_FRAME..] == Flatten(reader.chunks);
      tx.Send(Samples(buf[..]));
    }
  }

  /** The first n turns. */
  method PumpSome(reader: ByteReader, buf: array<byte>, tx: PcmBus, n: nat)
    requires reader.Valid() && buf.Length == BYTES_PER_FRAME
    modifies reader, buf, tx
    ensures reader.Valid()
    ensures var frames := SplitFrames(old(Flatten(reader.chunks)));
      var sent := Min(n, |frames|);
      tx.log == old(tx.log) + frames[..sent] && SplitFrames(Flatten(reader.chunks)) == frames[sent..]
  {
    hide SplitFrames, Flatten;
    ghost var frames := SplitFrames(Flatten(reader.chunks));
    for i := 0 to n
      invariant reader.Valid()
      invariant tx.log == old(tx.log) + frames[..Min(i, |frames|)]
      invariant SplitFrames(Flatten(reader.chunks)) == frames[Min(i, |frames|)..]
    {
      var _ := PumpOne(reader, buf, tx);
    }
  }

  /** However the stream is chunked, exactly the full frames of its bytes reach the bus, in order; the result
      tells a clean end from a read error. */
  method PumpFrames(reader: ByteReader, tx: PcmBus) returns (ok: bool)
    requires reader.Valid()
    modifies reader, tx
    ensures tx.log == old(tx.log) + SplitFrames(old(Flatten(reader.chunks)))
    ensures ok <==> reader.endsCleanly
  {
    hide SplitFrames, Flatten;
    ghost var input := SplitFrames(Flatten(reader.chunks));
    var buf := new byte[BYTES_PER_FRAME];
    while true
      invariant reader.Valid() && fresh(buf)
      invariant tx.log + SplitFrames(Flatten(reader.chunks)) == old(tx.log) + input
      decreases |SplitFrames(Flatten(reader.chunks))|
    {
      ghost var log, left := tx.log, SplitFrames(Flatten(reader.chunks));
      var full := PumpOne(reader, buf, tx);
      if !full {
        return reader.endsCleanly;
      }
      Associative(log, [left[0]], left[1..]);
    }
  }
}
