/** The session branch by branch: what each completed `select!` branch adds to a run that is still going. */
module CastBranches {
  import opened Wrappers
  import opened CastProto
  import opened CastReader
  import opened CastSession
  import opened CastTrace

  /** "receiver-0" in ASCII. */
  function Receiver(): Address {
    Address([0x72, 0x65, 0x63, 0x65, 0x69, 0x76, 0x65, 0x72, 0x2D, 0x30])
  }

  /** Sends these messages, up to the write that fails. */
  function Sends(s: Session, failAt: Option<nat>, out: seq<Sent>): Session {
    if failAt.Some? && |s.sent| <= failAt.value < |s.sent| + |out|
    then s.(sent := s.sent + out[..failAt.value - |s.sent|], end := WriteFailed)
    else s.(sent := s.sent + out)
  }

  /** The session starts with CONNECT and LAUNCH number 1 to receiver-0, and then waits. */
  lemma OpeningTaken(classify: Classifier, failAt: Option<nat>, start: int)
    ensures Run(classify, failAt, start, []) ==
      Sends(Session([], false, 2, start, [], [], Running), failAt,
            [Sent(NsConnection, Receiver(), Connect), Sent(NsReceiver, Receiver(), Launch(1))])
  {
    var s, connect, launch := Session([], false, 2, start, [], [], Running), OPEN_RECEIVER, LAUNCH_RECEIVER;
    assert [] + [connect] == [connect] && [connect, launch][..1] == [connect];
    assert [connect] + [launch] == [connect, launch];
  }

  lemma OneWrite(s: Session, failAt: Option<nat>, m: Sent)
    ensures Write(s, failAt, m) == Sends(s, failAt, [m])
  {
    assert [m][..0] == [] && s.sent + [] == s.sent;
  }

  /** While the session runs: a stop says CLOSE, unless that write fails, and ends it; the peer's end and a read
      error end it without a word; a tick sends one PING and then finds the link lost, if nothing has come in for
      more than 15 seconds; and being nudged does nothing. */
  lemma BranchTaken(classify: Classifier, failAt: Option<nat>, start: int, script: seq<Timed>, e: Timed)
    requires Run(classify, failAt, start, script).end == Running
    ensures var s, s' := Run(classify, failAt, start, script), Run(classify, failAt, start, script + [e]);
      match e.event
      case Stop =>
        s' == s.(end := Stopped,
                 sent := if failAt == Some(|s.sent|) then s.sent else s.sent + [Sent(NsConnection, Receiver(), Close)])
      case EndOfStream => s' == s.(end := PeerGone)
      case ReadError => s' == s.(end := ReadFailed)
      case Nudge => s' == s
      case Tick =>
        if failAt == Some(|s.sent|) then s' == s.(end := WriteFailed)
        else s' == s.(sent := s.sent + [Sent(NsHeartbeat, Receiver(), Ping)],
                      end := if e.time - s.lastInbound > 15_000 then LinkLost else Running)
      case Chunk(bytes) =>
        && s'.lastInbound == e.time && (s'.end == Running || s'.end == WriteFailed)
        && s'.processed <= s.processed + Drain(s.readBuf + bytes).0
        && (s'.end == Running ==> (s'.processed, s'.readBuf)
                                  == (s.processed + Drain(s.readBuf + bytes).0, Drain(s.readBuf + bytes).1))
  {
    RunSnoc(classify, failAt, start, script, e);
    var s := Run(classify, failAt, start, script);
    hide Run;
    if e.event.Chunk? {
      var s0 := s.(lastInbound := e.time, readBuf := s.readBuf + e.event.bytes);
      PumpIsDrain(s0, classify, failAt);
      PumpEnds(s0, classify, failAt);
      hide Pump, Drain;
    }
  }

  lemma {:induction false} PumpEnds(s: Session, classify: Classifier, failAt: Option<nat>)
    requires s.end == Running
    ensures var s' := Pump(s, classify, failAt);
      (s'.end == Running || s'.end == WriteFailed) && s'.lastInbound == s.lastInbound
    decreases |s.readBuf|
  {
    hide DecodeFrame;
    match DecodeFrame(s.readBuf) {
      case None =>
      case Some((m, n)) =>
        DispatchKeepsBuffer(s.(readBuf := s.readBuf[n..]), classify, failAt, m);
        var s' := Dispatch(s.(readBuf := s.readBuf[n..]), classify, failAt, m);
        if s'.end == Running {
          PumpEnds(s', classify, failAt);
        }
    }
  }

  /** What a message makes the session send. */
  function Answer(classify: Classifier, loaded: bool, m: CastMessage): seq<Sent> {
    match KindOf(classify, m)
    case PingMessage => [Sent(NsHeartbeat, Address(m.sourceId), Pong)]
    case ReceiverStatus(Some(t)) => if loaded then [] else [Sent(NsConnection, t, Connect), Sent(NsMedia, t, Load(2))]
    case _ => []
  }

  /** A message's own frame, read when nothing is left over: it is dispatched at once. A PING gets a PONG to its
      sender; the first RECEIVER_STATUS with a transport gets CONNECT and LOAD number 2 there; nothing else gets
      anything. */
  lemma MessageTaken(classify: Classifier, failAt: Option<nat>, start: int, script: seq<Timed>, time: int,
                     m: CastMessage)
    requires |EncodeMessage(m)| < 0x1_0000_0000
    requires var s := Run(classify, failAt, start, script); s.end == Running && s.readBuf == []
    ensures var s := Run(classify, failAt, start, script);
      var s' := Run(classify, failAt, start, script + [At(time, Chunk(Frame(m)))]);
      var out := Answer(classify, s.loaded, m);
      && (s'.sent, s'.end) == (Sends(s, failAt, out).sent, Sends(s, failAt, out).end)
      && s'.processed == s.processed + [m] && s'.lastInbound == time && s'.readBuf == []
      && s'.loaded == (s.loaded || (|out| == 2 && s'.end == Running))
  {
    RunSnoc(classify, failAt, start, script, At(time, Chunk(Frame(m))));
    RunKeepsInv(classify, failAt, start, script);
    var s := Run(classify, failAt, start, script);
    assert s.reqId == if s.loaded then 3 else 2;
    hide Run, Inv, Step, Frame, EncodeMessage, Dispatch, Sends, Answer;
    FrameIsDispatched(s, classify, failAt, time, m);
    DispatchAnswers(s.(lastInbound := time), classify, failAt, m);
    DispatchKeepsBuffer(s.(lastInbound := time), classify, failAt, m);
    SendsIgnoresInbound(s, failAt, Answer(classify, s.loaded, m), time);
  }

  lemma SendsIgnoresInbound(s: Session, failAt: Option<nat>, out: seq<Sent>, time: int)
    ensures var a, b := Sends(s, failAt, out), Sends(s.(lastInbound := time), failAt, out);
      a.sent == b.sent && a.end == b.end
  {
  }

  lemma FrameIsDispatched(s: Session, classify: Classifier, failAt: Option<nat>, time: int, m: CastMessage)
    requires s.end == Running && s.readBuf == [] && |EncodeMessage(m)| < 0x1_0000_0000
    ensures Step(s, classify, failAt, At(time, Chunk(Frame(m)))) == Dispatch(s.(lastInbound := time), classify, failAt, m)
  {
    FrameRoundTrip(m, []);
    assert Frame(m) + [] == Frame(m) && s.readBuf + Frame(m) == Frame(m);
    assert Frame(m)[|Frame(m)|..] == [];
    assert DecodeFrame([]) == None;
    hide DecodeFrame, EncodeMessage, Frame, Dispatch;
    var s1 := Dispatch(s.(lastInbound := time), classify, failAt, m);
    DispatchKeepsBuffer(s.(lastInbound := time), classify, failAt, m);
    assert Pump(s1, classify, failAt) == s1;
  }

  lemma DispatchAnswers(s: Session, classify: Classifier, failAt: Option<nat>, m: CastMessage)
    requires s.end == Running && (!s.loaded ==> s.reqId == 2)
    ensures var s', out := Dispatch(s, classify, failAt, m), Answer(classify, s.loaded, m);
      && (s'.sent, s'.end) == (Sends(s, failAt, out).sent, Sends(s, failAt, out).end)
      && s'.processed == s.processed + [m] && s'.lastInbound == s.lastInbound
      && s'.loaded == (s.loaded || (|out| == 2 && s'.end == Running))
  {
    assert s.sent + [] == s.sent;
    match KindOf(classify, m) {
      case PingMessage => OneWrite(s, failAt, PongTo(Address(m.sourceId)));
      case ReceiverStatus(Some(t)) =>
        if !s.loaded {
          var connect, load := Sent(NsConnection, t, Connect), Sent(NsMedia, t, Load(2));
          assert [connect, load][..1] == [connect] && [connect, load][..0] == [];
          assert [connect] + [load] == [connect, load];
          Associative(s.sent, [connect], [load]);
        }
      case _ =>
    }
  }
}
