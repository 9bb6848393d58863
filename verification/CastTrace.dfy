/** What every run of the session keeps: the order of what it sends, heartbeats and goodbye, replies to what the
    peer's bytes say, and silence once the reader is stalled. */
module CastTrace {
  import opened Wrappers
  import opened CastProto
  import opened CastReader
  import opened CastSession

  // ---- Order of the outbound trace --------------------------------------------------------------

  /** Message i of a trace is in place: CONNECT(receiver-0) first, LAUNCH second; a later CONNECT is
      followed at once, if by anything, by a LOAD to the same destination, and a LOAD is only ever there;
      CLOSE only last; heartbeats anywhere else. */
  predicate InPlace(trace: seq<Sent>, i: nat)
    requires i < |trace|
  {
    match trace[i].body
    case Connect =>
      if i == 0 then trace[i] == OPEN_RECEIVER
      else i >= 2 && trace[i].namespace == NsConnection && (i + 1 < |trace| ==> trace[i + 1].body.Load?)
    case Launch(_) => i == 1 && trace[i] == LAUNCH_RECEIVER
    case Ping => i >= 2 && trace[i] == HEARTBEAT
    case Pong => i >= 2 && trace[i].namespace == NsHeartbeat
    case Load(id) => i >= 3 && id == 2 && trace[i].namespace == NsMedia
      && trace[i - 1].body == Connect && trace[i - 1].destination == trace[i].destination
    case Close => i >= 2 && i == |trace| - 1 && trace[i] == CLOSE_RECEIVER
  }

  ghost predicate Ordered(trace: seq<Sent>) {
    forall i | 0 <= i < |trace| :: InPlace(trace, i)
  }

  datatype Topic = Connects | Launches | Heartbeats | Replies | Loads | Closes

  function TopicOf(body: Body): Topic {
    match body
    case Connect => Connects
    case Launch(_) => Launches
    case Ping => Heartbeats
    case Pong => Replies
    case Load(_) => Loads
    case Close => Closes
  }

  /** Where the messages of one topic went, in order. */
  function Destinations(trace: seq<Sent>, topic: Topic): seq<Address> {
    if trace == [] then []
    else
      var last := trace[|trace| - 1];
      Destinations(trace[..|trace| - 1], topic) + if TopicOf(last.body) == topic then [last.destination] else []
  }

  /** Senders of the PINGs received. */
  function Pings(classify: Classifier, messages: seq<CastMessage>): seq<Address> {
    if messages == [] then []
    else
      var last := messages[|messages| - 1];
      Pings(classify, messages[..|messages| - 1]) +
      if KindOf(classify, last) == PingMessage then [Address(last.sourceId)] else []
  }

  /** The transport named by the first RECEIVER_STATUS that names one. */
  function FirstTransport(classify: Classifier, messages: seq<CastMessage>): Option<Address> {
    if messages == [] then None
    else
      match KindOf(classify, messages[0])
      case ReceiverStatus(Some(t)) => Some(t)
      case _ => FirstTransport(classify, messages[1..])
  }

  lemma {:induction false} FirstTransportSnoc(classify: Classifier, messages: seq<CastMessage>, m: CastMessage)
    ensures FirstTransport(classify, messages + [m]) ==
      if FirstTransport(classify, messages).Some? then FirstTransport(classify, messages)
      else match KindOf(classify, m) case ReceiverStatus(t) => t case _ => None
  {
    if messages == [] {
      assert [] + [m] == [m] && [m][1..] == [];
    } else {
      assert (messages + [m])[1..] == messages[1..] + [m];
      FirstTransportSnoc(classify, messages[1..], m);
    }
  }

  /** PONGs answer the PINGs in order; only a failed write can leave one, the last, unanswered. */
  ghost predicate PongsMatch(s: Session, classify: Classifier) {
    var pongs, pings := Destinations(s.sent, Replies), Pings(classify, s.processed);
    pongs == pings || (s.end == WriteFailed && |pings| > 0 && pongs == pings[..|pings| - 1])
  }

  /** The media session is opened on the first transport named by a RECEIVER_STATUS, once, and on no other;
      only a failed write can leave its CONNECT or its LOAD out. */
  ghost predicate LoadsMatch(s: Session, classify: Classifier) {
    var connects, loads := Destinations(s.sent, Connects), Destinations(s.sent, Loads);
    match FirstTransport(classify, s.processed)
    case None => (connects == [RECEIVER_0] || (s.end == WriteFailed && connects == [])) && loads == []
    case Some(t) =>
      || (connects == [RECEIVER_0, t] && loads == [t])
      || (s.end == WriteFailed && loads == [] && (connects == [RECEIVER_0] || connects == [RECEIVER_0, t]))
  }

  /** What holds after every completed branch. */
  ghost predicate Inv(s: Session, classify: Classifier) {
    && Ordered(s.sent)
    && PongsMatch(s, classify)
    && LoadsMatch(s, classify)
    && (s.end == Running ==> Live(s.sent) && s.reqId == (if s.loaded then 3 else 2)
                             && (s.loaded <==> FirstTransport(classify, s.processed).Some?))
  }

  /** Handshake done, nothing half sent, not closed. */
  predicate Live(trace: seq<Sent>) {
    && |trace| >= 2
    && trace[|trace| - 1].body != Close
    && trace[|trace| - 1].body != Connect
  }

  /** A trace that has not been closed may be extended by whatever is due. */
  lemma OrderedSnoc(trace: seq<Sent>, m: Sent)
    requires Ordered(trace) && InPlace(trace + [m], |trace|)
    requires |trace| > 0 ==> trace[|trace| - 1].body != Close
    requires |trace| > 1 && trace[|trace| - 1].body == Connect ==> m.body.Load?
    ensures Ordered(trace + [m])
  {
    var trace' := trace + [m];
    forall i | 0 <= i < |trace'| ensures InPlace(trace', i) {
      if i < |trace| {
        assert InPlace(trace, i);
      }
    }
  }

  lemma ProcessedSnoc(classify: Classifier, messages: seq<CastMessage>, m: CastMessage)
    ensures Pings(classify, messages + [m]) ==
            Pings(classify, messages) + if KindOf(classify, m) == PingMessage then [Address(m.sourceId)] else []
  {
    assert (messages + [m])[..|messages|] == messages;
  }

  lemma WriteProjections(trace: seq<Sent>, m: Sent)
    ensures Destinations(trace + [m], Connects)
         == Destinations(trace, Connects) + if m.body == Connect then [m.destination] else []
    ensures Destinations(trace + [m], Replies)
         == Destinations(trace, Replies) + if m.body == Pong then [m.destination] else []
    ensures Destinations(trace + [m], Loads)
         == Destinations(trace, Loads) + if m.body.Load? then [m.destination] else []
  {
    assert (trace + [m])[..|trace|] == trace;
  }

  lemma OpeningIsOrdered()
    ensures Ordered([]) && Ordered([OPEN_RECEIVER]) && Ordered([OPEN_RECEIVER, LAUNCH_RECEIVER])
  {
    OrderedSnoc([], OPEN_RECEIVER);
    assert [] + [OPEN_RECEIVER] == [OPEN_RECEIVER];
    OrderedSnoc([OPEN_RECEIVER], LAUNCH_RECEIVER);
    assert [OPEN_RECEIVER] + [LAUNCH_RECEIVER] == [OPEN_RECEIVER, LAUNCH_RECEIVER];
  }

  lemma OpeningDestinations(topic: Topic)
    ensures Destinations([], topic) == []
    ensures Destinations([OPEN_RECEIVER], topic) == if topic == Connects then [RECEIVER_0] else []
    ensures topic != Launches ==> Destinations([OPEN_RECEIVER, LAUNCH_RECEIVER], topic) == Destinations([OPEN_RECEIVER], topic)
  {
    assert [OPEN_RECEIVER][..0] == [];
    assert [OPEN_RECEIVER, LAUNCH_RECEIVER][..1] == [OPEN_RECEIVER];
  }

  lemma NothingProcessed(classify: Classifier)
    ensures Pings(classify, []) == [] && FirstTransport(classify, []) == None
  {
  }

  lemma OpeningKeepsInv(classify: Classifier, failAt: Option<nat>, now: int)
    ensures Inv(Opening(failAt, now), classify)
  {
    hide Ordered, Destinations, Pings, FirstTransport;
    OpeningIsOrdered();
    OpeningDestinations(Connects);
    OpeningDestinations(Replies);
    OpeningDestinations(Loads);
    NothingProcessed(classify);
    var s := Opening(failAt, now);
    assert s.sent == (if failAt == Some(0) then [] else if failAt == Some(1) then [OPEN_RECEIVER]
                      else [OPEN_RECEIVER, LAUNCH_RECEIVER]);
  }

  lemma QuietInPlace(trace: seq<Sent>, m: Sent)
    requires Ordered(trace) && Live(trace) && (m == HEARTBEAT || m == CLOSE_RECEIVER)
    ensures Ordered(trace + [m]) && (m == HEARTBEAT ==> Live(trace + [m]))
  {
    OrderedSnoc(trace, m);
    hide Ordered;
  }

  /** A heartbeat or a goodbye touches neither PONGs nor the media session. */
  lemma QuietWriteKeepsInv(s: Session, classify: Classifier, failAt: Option<nat>, m: Sent)
    requires s.end == Running && (m == HEARTBEAT || m == CLOSE_RECEIVER)
    ensures var s' := Write(s, failAt, m);
      Inv(s, classify) ==> Inv(if m == HEARTBEAT then s' else s'.(end := Stopped), classify)
  {
    if Inv(s, classify) {
      hide Ordered, Destinations, Pings, FirstTransport, InPlace, Live;
      QuietInPlace(s.sent, m);
      WriteProjections(s.sent, m);
      var s' := Write(s, failAt, m);
      if failAt == Some(|s.sent|) {
        assert s' == s.(end := WriteFailed);
      } else {
        assert s' == s.(sent := s.sent + [m]);
        assert PongsMatch(s', classify) && LoadsMatch(s', classify);
      }
      hide PongsMatch, LoadsMatch, Write;
    }
  }

  lemma PongInPlace(trace: seq<Sent>, sender: Address)
    requires Ordered(trace) && Live(trace)
    ensures Ordered(trace + [PongTo(sender)]) && Live(trace + [PongTo(sender)])
  {
    OrderedSnoc(trace, PongTo(sender));
    hide Ordered;
  }

  lemma PongRestoresInv(s: Session, classify: Classifier, failAt: Option<nat>, sender: Address)
    requires s.end == Running && Ordered(s.sent) && Live(s.sent) && LoadsMatch(s, classify)
    requires s.reqId == (if s.loaded then 3 else 2)
    requires s.loaded <==> FirstTransport(classify, s.processed).Some?
    requires Pings(classify, s.processed) == Destinations(s.sent, Replies) + [sender]
    ensures Inv(Write(s, failAt, PongTo(sender)), classify)
  {
    hide FirstTransport, Pings, Ordered, Destinations, InPlace, Live;
    PongInPlace(s.sent, sender);
    WriteProjections(s.sent, PongTo(sender));
    var s' := Write(s, failAt, PongTo(sender));
    if failAt == Some(|s.sent|) {
      assert s' == s.(end := WriteFailed);
    } else {
      assert s' == s.(sent := s.sent + [PongTo(sender)]);
    }
  }

  lemma PingKeepsInv(s: Session, classify: Classifier, failAt: Option<nat>, m: CastMessage)
    requires Inv(s, classify) && s.end == Running && KindOf(classify, m) == PingMessage
    ensures Inv(Dispatch(s, classify, failAt, m), classify)
  {
    FirstTransportSnoc(classify, s.processed, m);
    ProcessedSnoc(classify, s.processed, m);
    hide Ordered, FirstTransport, Pings, Destinations;
    PongRestoresInv(s.(processed := s.processed + [m]), classify, failAt, Address(m.sourceId));
  }

  /** CONNECT(t) then LOAD extends a live trace by an ordered pair. */
  lemma MediaPairInPlace(trace: seq<Sent>, connect: Sent, load: Sent)
    requires Ordered(trace) && Live(trace)
    requires connect == Sent(NsConnection, load.destination, Connect)
    requires load == Sent(NsMedia, load.destination, Load(2))
    ensures Ordered(trace + [connect]) && Ordered(trace + [connect] + [load])
  {
    OrderedSnoc(trace, connect);
    OrderedSnoc(trace + [connect], load);
  }

  lemma OpenMediaRestoresInv(s: Session, classify: Classifier, failAt: Option<nat>, t: Address)
    requires s.end == Running && !s.loaded && s.reqId == 2
    requires Ordered(s.sent) && Live(s.sent) && PongsMatch(s, classify)
    requires FirstTransport(classify, s.processed) == Some(t)
    requires Destinations(s.sent, Connects) == [RECEIVER_0] && Destinations(s.sent, Loads) == []
    ensures Inv(OpenMedia(s, failAt, t), classify)
  {
    hide FirstTransport, Pings, Ordered, Destinations, InPlace;
    var connect, load := Sent(NsConnection, t, Connect), Sent(NsMedia, t, Load(2));
    MediaPairInPlace(s.sent, connect, load);
    WriteProjections(s.sent, connect);
    WriteProjections(s.sent + [connect], load);
    var s' := OpenMedia(s, failAt, t);
    if failAt == Some(|s.sent|) {
      assert s' == s.(end := WriteFailed);
    } else if failAt == Some(|s.sent| + 1) {
      assert s' == s.(sent := s.sent + [connect], reqId := 3, end := WriteFailed);
    } else {
      assert s' == s.(sent := s.sent + [connect] + [load], reqId := 3, loaded := true);
    }
  }

  lemma StatusKeepsInv(s: Session, classify: Classifier, failAt: Option<nat>, m: CastMessage, t: Address)
    requires Inv(s, classify) && s.end == Running && KindOf(classify, m) == ReceiverStatus(Some(t))
    ensures Inv(Dispatch(s, classify, failAt, m), classify)
  {
    FirstTransportSnoc(classify, s.processed, m);
    ProcessedSnoc(classify, s.processed, m);
    hide Ordered, FirstTransport, Pings, Destinations, OpenMedia;
    var s' := s.(processed := s.processed + [m]);
    if !s.loaded {
      OpenMediaRestoresInv(s', classify, failAt, t);
    }
  }

  lemma DispatchKeepsInv(s: Session, classify: Classifier, failAt: Option<nat>, m: CastMessage)
    requires Inv(s, classify) && s.end == Running
    ensures Inv(Dispatch(s, classify, failAt, m), classify)
  {
    match KindOf(classify, m) {
      case PingMessage => PingKeepsInv(s, classify, failAt, m);
      case ReceiverStatus(Some(t)) => StatusKeepsInv(s, classify, failAt, m, t);
      case _ =>
        FirstTransportSnoc(classify, s.processed, m);
        ProcessedSnoc(classify, s.processed, m);
    }
  }

  lemma InvIgnoresInbound(s: Session, classify: Classifier, readBuf: seq<byte>, lastInbound: int)
    requires Inv(s, classify)
    ensures Inv(s.(readBuf := readBuf, lastInbound := lastInbound), classify)
  {
  }

  lemma {:induction false} PumpKeepsInv(s: Session, classify: Classifier, failAt: Option<nat>)
    requires Inv(s, classify) && s.end == Running
    ensures Inv(Pump(s, classify, failAt), classify)
    decreases |s.readBuf|
  {
    hide DecodeFrame, Inv, Dispatch;
    match DecodeFrame(s.readBuf) {
      case None =>
      case Some((m, n)) =>
        var s' := s.(readBuf := s.readBuf[n..]);
        InvIgnoresInbound(s, classify, s.readBuf[n..], s.lastInbound);
        DispatchKeepsInv(s', classify, failAt, m);
        DispatchKeepsBuffer(s', classify, failAt, m);
        if Dispatch(s', classify, failAt, m).end == Running {
          PumpKeepsInv(Dispatch(s', classify, failAt, m), classify, failAt);
        }
    }
  }

  lemma EndingKeepsInv(s: Session, classify: Classifier, end: End)
    requires Inv(s, classify) && s.end == Running && (end == ReadFailed || end == PeerGone || end == LinkLost)
    ensures Inv(s.(end := end), classify)
  {
  }

  lemma StepKeepsInv(s: Session, classify: Classifier, failAt: Option<nat>, e: Timed)
    requires Inv(s, classify)
    ensures Inv(Step(s, classify, failAt, e), classify)
  {
    hide Inv, Pump;
    if s.end == Running {
      match e.event {
        case Stop => QuietWriteKeepsInv(s, classify, failAt, CLOSE_RECEIVER);
        case Nudge =>
        case ReadError => EndingKeepsInv(s, classify, ReadFailed);
        case EndOfStream => EndingKeepsInv(s, classify, PeerGone);
        case Chunk(bytes) =>
          InvIgnoresInbound(s, classify, s.readBuf + bytes, e.time);
          PumpKeepsInv(s.(readBuf := s.readBuf + bytes, lastInbound := e.time), classify, failAt);
        case Tick =>
          QuietWriteKeepsInv(s, classify, failAt, HEARTBEAT);
          var s' := Write(s, failAt, HEARTBEAT);
          if s'.end == Running {
            EndingKeepsInv(s', classify, LinkLost);
          }
      }
    }
  }

  lemma {:induction false} RunKeepsInv(classify: Classifier, failAt: Option<nat>, start: int,
                                       script: seq<Timed>)
    ensures Inv(Run(classify, failAt, start, script), classify)
  {
    if script == [] {
      OpeningKeepsInv(classify, failAt, start);
    } else {
      RunKeepsInv(classify, failAt, start, script[..|script| - 1]);
      StepKeepsInv(Run(classify, failAt, start, script[..|script| - 1]), classify, failAt,
                   script[|script| - 1]);
    }
  }

  /** In every run, at every point of it: the outbound trace is in order, the media session is opened on
      the transport named by the first RECEIVER_STATUS that names one, and PONGs answer the PINGs. */
  lemma SessionOrder(classify: Classifier, failAt: Option<nat>, start: int, script: seq<Timed>)
    ensures var s := Run(classify, failAt, start, script);
      Ordered(s.sent) && LoadsMatch(s, classify) && PongsMatch(s, classify)
  {
    RunKeepsInv(classify, failAt, start, script);
  }

  // ---- Heartbeats and goodbye -------------------------------------------------------------------

  function Ticks(script: seq<Timed>): nat {
    if script == [] then 0
    else Ticks(script[..|script| - 1]) + if script[|script| - 1].event.Tick? then 1 else 0
  }

  /** PINGs sent, and whether the last message is a CLOSE. */
  function Beats(trace: seq<Sent>): nat {
    |Destinations(trace, Heartbeats)|
  }

  predicate Closed(trace: seq<Sent>) {
    trace != [] && trace[|trace| - 1].body == Close
  }

  lemma WriteBeats(s: Session, failAt: Option<nat>, m: Sent)
    requires s.end == Running
    ensures var s' := Write(s, failAt, m);
      if s'.end == Running then Beats(s'.sent) == Beats(s.sent) + (if m.body == Ping then 1 else 0) && Closed(s'.sent) == (m.body == Close)
      else s'.sent == s.sent && s'.end == WriteFailed
  {
    assert (s.sent + [m])[..|s.sent|] == s.sent;
  }

  lemma DispatchKeepsBeats(s: Session, classify: Classifier, failAt: Option<nat>, m: CastMessage)
    requires s.end == Running && !Closed(s.sent)
    ensures var s' := Dispatch(s, classify, failAt, m);
      Beats(s'.sent) == Beats(s.sent) && !Closed(s'.sent) && s'.end in {Running, WriteFailed}
  {
    hide Beats, Closed, Write;
    var s' := s.(processed := s.processed + [m]);
    match KindOf(classify, m) {
      case PingMessage => WriteBeats(s', failAt, PongTo(Address(m.sourceId)));
      case ReceiverStatus(Some(t)) =>
        if !s.loaded {
          var connect, load := Sent(NsConnection, t, Connect), Sent(NsMedia, t, Load(s.reqId));
          WriteBeats(s', failAt, connect);
          var opened' := Write(s', failAt, connect);
          if opened'.end == Running {
            assert opened'.reqId == s.reqId by { WriteKeepsRest(s', failAt, connect); }
            WriteBeats(opened'.(reqId := s.reqId + 1), failAt, load);
          }
        }
      case _ =>
    }
  }

  lemma WriteKeepsRest(s: Session, failAt: Option<nat>, m: Sent)
    ensures Write(s, failAt, m).reqId == s.reqId
  {
  }

  lemma {:induction false} PumpKeepsBeats(s: Session, classify: Classifier, failAt: Option<nat>)
    requires s.end == Running && !Closed(s.sent)
    ensures var s' := Pump(s, classify, failAt);
      Beats(s'.sent) == Beats(s.sent) && !Closed(s'.sent) && s'.end in {Running, WriteFailed}
    decreases |s.readBuf|
  {
    hide DecodeFrame, Dispatch, Beats, Closed;
    match DecodeFrame(s.readBuf) {
      case None =>
      case Some((m, n)) =>
        var s' := s.(readBuf := s.readBuf[n..]);
        DispatchKeepsBeats(s', classify, failAt, m);
        DispatchKeepsBuffer(s', classify, failAt, m);
        if Dispatch(s', classify, failAt, m).end == Running {
          PumpKeepsBeats(Dispatch(s', classify, failAt, m), classify, failAt);
        }
    }
  }

  lemma OpeningBeats(failAt: Option<nat>, now: int)
    ensures var s := Opening(failAt, now); Beats(s.sent) == 0 && !Closed(s.sent) && s.end in {Running, WriteFailed}
  {
    WriteBeats(Session([], false, 2, now, [], [], Running), failAt, OPEN_RECEIVER);
    var s := Write(Session([], false, 2, now, [], [], Running), failAt, OPEN_RECEIVER);
    if s.end == Running {
      WriteBeats(s, failAt, LAUNCH_RECEIVER);
    }
  }

  /** The ticks that came while the session was running. */
  function TicksTaken(classify: Classifier, failAt: Option<nat>, start: int, script: seq<Timed>): nat {
    if script == [] then 0
    else
      var before := script[..|script| - 1];
      var taken := script[|before|].event.Tick? && Run(classify, failAt, start, before).end == Running;
      TicksTaken(classify, failAt, start, before) + if taken then 1 else 0
  }

  lemma {:induction false} RunningTakesAllTicks(classify: Classifier, failAt: Option<nat>, start: int,
                                                script: seq<Timed>)
    requires Run(classify, failAt, start, script).end == Running
    ensures TicksTaken(classify, failAt, start, script) == Ticks(script)
  {
    if script != [] {
      RunningTakesAllTicks(classify, failAt, start, script[..|script| - 1]);
      hide Step;
    }
  }

  /** Every tick that a session takes sends one PING, the tick that finds the link lost included, unless that
      very write fails; nothing else sends one. A session that is stopped says CLOSE unless that write fails,
      and no other session does. */
  lemma {:induction false} EveryTickBeats(classify: Classifier, failAt: Option<nat>, start: int, script: seq<Timed>)
    ensures var s, ticks := Run(classify, failAt, start, script), TicksTaken(classify, failAt, start, script);
      && (if s.end == WriteFailed then Beats(s.sent) <= ticks <= Beats(s.sent) + 1 else Beats(s.sent) == ticks)
      && (s.end == Running ==> ticks == Ticks(script))
      && (Closed(s.sent) ==> s.end == Stopped)
      && (s.end == Stopped ==> Closed(s.sent) || failAt == Some(|s.sent|))
  {
    hide Beats, Closed, Pump, Opening;
    if Run(classify, failAt, start, script).end == Running {
      RunningTakesAllTicks(classify, failAt, start, script);
    }
    if script == [] {
      OpeningBeats(failAt, start);
    } else {
      var init, e := script[..|script| - 1], script[|script| - 1];
      var s := Run(classify, failAt, start, init);
      EveryTickBeats(classify, failAt, start, init);
      if s.end == Running {
        match e.event {
          case Tick => WriteBeats(s, failAt, HEARTBEAT);
          case Stop => WriteBeats(s, failAt, CLOSE_RECEIVER);
          case Chunk(bytes) => PumpKeepsBeats(s.(lastInbound := e.time, readBuf := s.readBuf + bytes), classify, failAt);
          case _ =>
        }
      }
    }
  }

  // ---- From bytes to replies --------------------------------------------------------------------

  /** All bytes read in a run. */
  function Inbound(script: seq<Timed>): seq<byte> {
    if script == [] then []
    else
      Inbound(script[..|script| - 1]) +
      match script[|script| - 1].event case Chunk(bytes) => bytes case _ => []
  }

  /** `processed` is as much of what the bytes decode to as was dispatched: all of it while running. */
  ghost predicate ReadsStream(s: Session, bytes: seq<byte>) {
    && s.processed <= Drain(bytes).0
    && (s.end == Running ==> Drain(bytes) == (s.processed, s.readBuf))
  }

  lemma DispatchAppends(s: Session, classify: Classifier, failAt: Option<nat>, m: CastMessage)
    ensures Dispatch(s, classify, failAt, m).processed == s.processed + [m]
  {
  }

  lemma {:induction false} PumpIsDrain(s: Session, classify: Classifier, failAt: Option<nat>)
    requires s.end == Running
    ensures var s', (ms, rest) := Pump(s, classify, failAt), Drain(s.readBuf);
      && s'.processed <= s.processed + ms
      && (s'.end == Running ==> s'.processed == s.processed + ms && s'.readBuf == rest)
    decreases |s.readBuf|
  {
    hide DecodeFrame, Dispatch;
    match DecodeFrame(s.readBuf) {
      case None =>
      case Some((m, n)) =>
        var s' := Dispatch(s.(readBuf := s.readBuf[n..]), classify, failAt, m);
        DispatchAppends(s.(readBuf := s.readBuf[n..]), classify, failAt, m);
        DispatchKeepsBuffer(s.(readBuf := s.readBuf[n..]), classify, failAt, m);
        var ms := Drain(s.readBuf[n..]).0;
        assert s.processed + ([m] + ms) == s.processed + [m] + ms;
        if s'.end == Running {
          PumpIsDrain(s', classify, failAt);
        }
    }
  }

  /** The session dispatches exactly what the received bytes decode to, in order. */
  lemma {:induction false} SessionReadsStream(classify: Classifier, failAt: Option<nat>, start: int,
                                              script: seq<Timed>)
    ensures ReadsStream(Run(classify, failAt, start, script), Inbound(script))
  {
    hide DecodeFrame, Pump;
    if script != [] {
      var init, e := script[..|script| - 1], script[|script| - 1];
      var s := Run(classify, failAt, start, init);
      SessionReadsStream(classify, failAt, start, init);
      var more := match e.event case Chunk(bytes) => bytes case _ => [];
      DrainInTwoSteps(Inbound(init), more);
      if s.end == Running {
        if e.event.Chunk? {
          PumpIsDrain(s.(lastInbound := e.time, readBuf := s.readBuf + more), classify, failAt);
        } else {
          assert Inbound(init) + more == Inbound(init);
        }
      }
    } else {
      EmptyBufferDrains();
    }
  }

  lemma EmptyBufferDrains()
    ensures Drain([]) == ([], []) && DecodeFrame([]) == None
  {
  }

  /** End to end: a peer that writes a list of messages, cut into chunks in any way, gets one PONG per PING,
      in order, addressed to its sender, and one media session on the first transport it names. */
  lemma PeerIsAnswered(classify: Classifier, failAt: Option<nat>, start: int, script: seq<Timed>,
                       messages: seq<CastMessage>)
    requires Framable(messages) && Inbound(script) == Stream(messages)
    ensures var s := Run(classify, failAt, start, script);
      s.end == Running ==>
      && s.processed == messages && s.readBuf == []
      && Destinations(s.sent, Replies) == Pings(classify, messages)
      && Destinations(s.sent, Loads) == match FirstTransport(classify, messages) case None => [] case Some(t) => [t]
  {
    hide DecodeFrame, Ordered, Drain, Stream, Framable, Run, Destinations, Pings, FirstTransport, InPlace, Live;
    SessionReadsStream(classify, failAt, start, script);
    RunKeepsInv(classify, failAt, start, script);
    WholeStreamDrains(messages);
  }

  lemma WholeStreamDrains(messages: seq<CastMessage>)
    requires Framable(messages)
    ensures Drain(Stream(messages)) == (messages, [])
  {
    hide *;
    EmptyBufferDrains();
    DrainOfStream(messages, []);
    assert Stream(messages) + [] == Stream(messages);
  }

  lemma RunSnoc(classify: Classifier, failAt: Option<nat>, start: int, script: seq<Timed>, e: Timed)
    ensures Run(classify, failAt, start, script + [e]) == Step(Run(classify, failAt, start, script), classify, failAt, e)
  {
    assert (script + [e])[..|script|] == script;
  }

  // ---- A stalled session ------------------------------------------------------------------------

  /** With an undecodable frame at the head, a chunk is buffered and noted as a sign of life, and that is all. */
  lemma StalledChunkIsIgnored(s: Session, classify: Classifier, failAt: Option<nat>, bytes: seq<byte>, time: int)
    requires s.end == Running && Stalled(s.readBuf)
    ensures Stalled(s.readBuf + bytes)
    ensures Step(s, classify, failAt, At(time, Chunk(bytes)))
         == s.(lastInbound := time, readBuf := s.readBuf + bytes)
  {
    StalledStays(s.readBuf, bytes);
    hide DecodeFrame, Stalled;
  }

  /** Nothing has been dispatched or sent since s, besides heartbeats and a goodbye. */
  ghost predicate DeafSince(s: Session, now: Session) {
    && now.processed == s.processed && now.loaded == s.loaded
    && (forall topic: Topic | topic != Heartbeats && topic != Closes ::
          Destinations(now.sent, topic) == Destinations(s.sent, topic))
    && (now.end == Running ==> Stalled(now.readBuf))
  }

  lemma QuietWriteIsDeaf(s: Session, now: Session, failAt: Option<nat>, m: Sent)
    requires DeafSince(s, now) && now.end == Running && (m.body == Ping || m.body == Close)
    ensures DeafSince(s, Write(now, failAt, m))
  {
    hide Stalled;
    forall topic: Topic | topic != Heartbeats && topic != Closes
      ensures Destinations(now.sent + [m], topic) == Destinations(now.sent, topic)
    {
      assert (now.sent + [m])[..|now.sent|] == now.sent;
    }
  }

  lemma StepStaysDeaf(s: Session, now: Session, classify: Classifier, failAt: Option<nat>, e: Timed)
    requires DeafSince(s, now)
    ensures DeafSince(s, Step(now, classify, failAt, e))
  {
    hide Stalled, Pump, Write, Destinations;
    if now.end == Running {
      match e.event {
        case Chunk(bytes) => StalledChunkIsIgnored(now, classify, failAt, bytes, e.time);
        case Tick => QuietWriteIsDeaf(s, now, failAt, HEARTBEAT);
        case Stop => QuietWriteIsDeaf(s, now, failAt, CLOSE_RECEIVER);
        case _ =>
      }
    }
  }

  /** From then on, whatever arrives and whatever happens, no message is ever dispatched or answered again. */
  lemma {:induction false} StalledSessionIsDeaf(classify: Classifier, failAt: Option<nat>, start: int,
                                                script: seq<Timed>, more: seq<Timed>)
    requires var s := Run(classify, failAt, start, script); s.end == Running && Stalled(s.readBuf)
    ensures DeafSince(Run(classify, failAt, start, script), Run(classify, failAt, start, script + more))
    decreases |more|
  {
    hide Run, Step, Stalled, Destinations;
    if more == [] {
      assert script + more == script;
    } else {
      hide DeafSince;
      var before, e := more[..|more| - 1], more[|more| - 1];
      StalledSessionIsDeaf(classify, failAt, start, script, before);
      assert script + more == (script + before) + [e];
      RunSnoc(classify, failAt, start, script + before, e);
      StepStaysDeaf(Run(classify, failAt, start, script), Run(classify, failAt, start, script + before),
                    classify, failAt, e);
    }
  }
}
