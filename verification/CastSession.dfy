/** The CASTV2 session task: handshake, dispatch of inbound frames, heartbeat and inbound deadline.
    What the session does depends on which `select!` branch completes, so a run is given by the script of
    completed branches; a write is given by whether it succeeds. JSON is behind a classifier of payloads. */
module CastSession {
  import opened Wrappers
  import opened CastProto
  import opened CastReader

  // ---- Messages ---------------------------------------------------------------------------------

  datatype Namespace = NsConnection | NsHeartbeat | NsReceiver | NsMedia

  datatype Body = Connect | Launch(requestId: nat) | Ping | Pong | Load(requestId: nat) | Close

  /** A sender, receiver or transport id. */
  datatype Address = Address(id: seq<byte>)

  /** An outbound message. */
  datatype Sent = Sent(namespace: Namespace, destination: Address, body: Body)

  /** What an inbound payload is to the session: its "type", and for a RECEIVER_STATUS the transport of
      the launched media receiver, if it names one. */
  datatype Kind = PingMessage | ReceiverStatus(transport: Option<Address>) | Ignored

  type Classifier = Utf8 -> Kind

  /** "receiver-0" in ASCII. */
  const RECEIVER_0 := Address([114, 101, 99, 101, 105, 118, 101, 114, 45, 48])

  const OPEN_RECEIVER := Sent(NsConnection, RECEIVER_0, Connect)
  const LAUNCH_RECEIVER := Sent(NsReceiver, RECEIVER_0, Launch(1))
  const HEARTBEAT := Sent(NsHeartbeat, RECEIVER_0, Ping)
  const CLOSE_RECEIVER := Sent(NsConnection, RECEIVER_0, Close)

  function PongTo(sender: Address): Sent {
    Sent(NsHeartbeat, sender, Pong)
  }

  function KindOf(classify: Classifier, m: CastMessage): Kind {
    classify(match m.payloadUtf8 case Some(json) => json case None => [])
  }

  // ---- Specification of a run -------------------------------------------------------------------

  const INBOUND_DEADLINE_MS: nat := 15_000

  datatype Event = Stop | Nudge | Chunk(bytes: seq<byte>) | EndOfStream | ReadError | Tick

  /** A completed select branch and the time it completed at, in milliseconds. */
  datatype Timed = At(time: int, event: Event)

  datatype End = Running | Stopped | PeerGone | ReadFailed | WriteFailed | LinkLost

  datatype Session = Session(
    readBuf: seq<byte>,
    loaded: bool,
    reqId: nat,
    lastInbound: int,
    sent: seq<Sent>,
    processed: seq<CastMessage>,
    end: End)

  predicate LinkSilent(lastInbound: int, now: int) {
    now - lastInbound > INBOUND_DEADLINE_MS
  }

  /** One write; the write numbered `failAt` (counting from 0) is the one that fails, if any does. */
  function Write(s: Session, failAt: Option<nat>, m: Sent): Session {
    if failAt == Some(|s.sent|) then s.(end := WriteFailed) else s.(sent := s.sent + [m])
  }

  function Opening(failAt: Option<nat>, now: int): Session {
    var s := Write(Session([], false, 2, now, [], [], Running), failAt, OPEN_RECEIVER);
    if s.end == Running then Write(s, failAt, LAUNCH_RECEIVER) else s
  }

  function Dispatch(s: Session, classify: Classifier, failAt: Option<nat>, m: CastMessage): Session {
    var s := s.(processed := s.processed + [m]);
    match KindOf(classify, m)
    case PingMessage => Write(s, failAt, PongTo(Address(m.sourceId)))
    case ReceiverStatus(Some(t)) => if s.loaded then s else OpenMedia(s, failAt, t)
    case _ => s
  }

  /** CONNECT to the transport channel, then LOAD the stream on it. */
  function OpenMedia(s: Session, failAt: Option<nat>, t: Address): Session {
    var s := Write(s, failAt, Sent(NsConnection, t, Connect));
    if s.end != Running then s
    else
      var s := Write(s.(reqId := s.reqId + 1), failAt, Sent(NsMedia, t, Load(s.reqId)));
      if s.end != Running then s else s.(loaded := true)
  }

  /** Drain all complete frames, dispatching each, until a write fails. */
  function Pump(s: Session, classify: Classifier, failAt: Option<nat>): Session
    decreases |s.readBuf|
  {
    match DecodeFrame(s.readBuf)
    case None => s
    case Some((m, n)) =>
      var s' := Dispatch(s.(readBuf := s.readBuf[n..]), classify, failAt, m);
      if s'.end != Running then s' else Pump(s', classify, failAt)
  }

  function Step(s: Session, classify: Classifier, failAt: Option<nat>, e: Timed): Session {
    if s.end != Running then s
    else
      match e.event
      case Stop => Write(s, failAt, CLOSE_RECEIVER).(end := Stopped)
      case Nudge => s
      case ReadError => s.(end := ReadFailed)
      case EndOfStream => s.(end := PeerGone)
      case Chunk(bytes) => Pump(s.(lastInbound := e.time, readBuf := s.readBuf + bytes), classify, failAt)
      case Tick =>
        var s := Write(s, failAt, HEARTBEAT);
        if s.end == Running && LinkSilent(s.lastInbound, e.time) then s.(end := LinkLost) else s
  }

  function Run(classify: Classifier, failAt: Option<nat>, start: int, script: seq<Timed>): Session {
    if script == [] then Opening(failAt, start)
    else Step(Run(classify, failAt, start, script[..|script| - 1]), classify, failAt, script[|script| - 1])
  }

  // ---- The task ---------------------------------------------------------------------------------

  /** The variables of the session task, and the write half of its connection. */
  class CastTask {
    const classify: Classifier
    const failAt: Option<nat>
    var readBuf: seq<byte>
    var loaded: bool
    var reqId: nat
    var lastInbound: int
    var sent: seq<Sent>
    var processed: seq<CastMessage>

    constructor (classify: Classifier, failAt: Option<nat>)
      ensures this.classify == classify && this.failAt == failAt && sent == []
    {
      this.classify, this.failAt := classify, failAt;
      sent := [];
    }

    ghost function View(end: End): Session
      reads this
    {
      Session(readBuf, loaded, reqId, lastInbound, sent, processed, end)
    }

    method WriteAll(m: Sent) returns (ok: bool)
      modifies this`sent
      ensures View(if ok then Running else WriteFailed) == Write(old(View(Running)), failAt, m)
      ensures ok <==> failAt != Some(|old(sent)|)
    {
      ok := failAt != Some(|sent|);
      if ok {
        sent := sent + [m];
      }
    }

    method HandleMessage(m: CastMessage) returns (ok: bool)
      modifies this
      ensures View(if ok then Running else WriteFailed) == Dispatch(old(View(Running)), classify, failAt, m)
    {
      processed := processed + [m];
      ok := true;
      match KindOf(classify, m) {
        case PingMessage =>
          ok := WriteAll(PongTo(Address(m.sourceId)));
        case ReceiverStatus(Some(t)) =>
          if !loaded {
            ok := WriteAll(Sent(NsConnection, t, Connect));
            if ok {
              var load := Sent(NsMedia, t, Load(reqId));
              reqId := reqId + 1;
              ok := WriteAll(load);
            }
            if ok {
              loaded := true;
            }
          }
        case _ =>
      }
    }

    /** Bytes arrived: note the time, then take and dispatch every complete frame. */
    method HandleChunk(bytes: seq<byte>, now: int) returns (ok: bool)
      modifies this
      ensures View(if ok then Running else WriteFailed)
           == Step(old(View(Running)), classify, failAt, At(now, Chunk(bytes)))
    {
      lastInbound := now;
      readBuf := readBuf + bytes;
      ghost var goal := Pump(View(Running), classify, failAt);
      ok := true;
      while ok
        invariant goal == if ok then Pump(View(Running), classify, failAt) else View(WriteFailed)
        decreases ok, |readBuf|
      {
        match DecodeFrame(readBuf) {
          case None => return;
          case Some((m, n)) =>
            readBuf := readBuf[n..];
            ghost var before := View(Running);
            ok := HandleMessage(m);
            DispatchKeepsBuffer(before, classify, failAt, m);
        }
      }
    }

    method HandleTick(now: int) returns (end: End)
      modifies this`sent
      ensures View(end) == Step(old(View(Running)), classify, failAt, At(now, Tick))
    {
      var ok := WriteAll(HEARTBEAT);
      if !ok {
        end := WriteFailed;
      } else if LinkSilent(lastInbound, now) {
        end := LinkLost;
      } else {
        end := Running;
      }
    }

    method Start(now: int) returns (ok: bool)
      requires sent == []
      modifies this
      ensures View(if ok then Running else WriteFailed) == Opening(failAt, now)
    {
      readBuf, loaded, reqId, lastInbound, processed := [], false, 2, now, [];
      ok := WriteAll(OPEN_RECEIVER);
      if ok {
        ok := WriteAll(LAUNCH_RECEIVER);
      }
    }

    method RunSession(start: int, script: seq<Timed>) returns (end: End)
      requires sent == []
      modifies this
      ensures View(end) == Run(classify, failAt, start, script)
    {
      hide Pump, Opening, Write;
      var ok := Start(start);
      end := if ok then Running else WriteFailed;
      for i := 0 to |script|
        invariant View(end) == Run(classify, failAt, start, script[..i])
      {
        assert script[..i + 1][..i] == script[..i];
        if end != Running {
          EndedRunStays(classify, failAt, start, script[..i], script[i..]);
          assert script[..i] + script[i..] == script;
          return;
        }
        match script[i].event {
          case Stop =>
            ok := WriteAll(CLOSE_RECEIVER);
            end := Stopped;
          case Nudge =>
          case ReadError =>
            end := ReadFailed;
          case EndOfStream =>
            end := PeerGone;
          case Chunk(bytes) =>
            ok := HandleChunk(bytes, script[i].time);
            end := if ok then Running else WriteFailed;
          case Tick =>
            end := HandleTick(script[i].time);
        }
      }
      assert script[..|script|] == script;
    }
  }

  lemma DispatchKeepsBuffer(s: Session, classify: Classifier, failAt: Option<nat>, m: CastMessage)
    ensures Dispatch(s, classify, failAt, m).readBuf == s.readBuf
  {
  }

  /** Once the session has returned nothing more happens. */
  lemma {:induction false} EndedRunStays(classify: Classifier, failAt: Option<nat>, start: int,
                                         script: seq<Timed>, more: seq<Timed>)
    requires Run(classify, failAt, start, script).end != Running
    ensures Run(classify, failAt, start, script + more) == Run(classify, failAt, start, script)
    decreases |more|
  {
    if more == [] {
      assert script + more == script;
    } else {
      assert (script + more)[..|script + more| - 1] == script + more[..|more| - 1];
      EndedRunStays(classify, failAt, start, script, more[..|more| - 1]);
    }
  }
}
