/** The Opus pump: PCM frames off a lossy broadcast bus, through an encoder, onto a track with wrapping RTP
    timestamps (48 kHz clock, section 4.1 of RFC 7587) and sequence numbers (section 5.1 of RFC 3550). */
module RtpPump {
  import opened Wrappers
  import opened PcmFrames

  const RTP_SAMPLES_PER_FRAME: nat := 960

  // ---- The timeline -----------------------------------------------------------------------------

  /** RTP timestamp and sequence number of the packet `position` frame slots after the first. */
  function TimestampAt(position: nat): u32 {
    RTP_SAMPLES_PER_FRAME * position % U32_RANGE
  }

  function SequenceAt(position: nat): u16 {
    position % U16_RANGE
  }

  function WrappingAdd(a: nat, b: nat, range: nat): nat
    requires range > 0
  {
    (a + b) % range
  }

  class RtpTimeline {
    var timestamp: u32
    var sequence: u16

    constructor ()
      ensures timestamp == 0 && sequence == 0 && At(0)
    {
      timestamp, sequence := 0, 0;
    }

    /** The next packet belongs in slot `position`. */
    ghost predicate At(position: nat)
      reads this
    {
      timestamp == TimestampAt(position) && sequence == SequenceAt(position)
    }

    method NextPacket(ghost position: nat) returns (ts: u32, seqNo: u16)
      requires At(position)
      modifies this
      ensures ts == TimestampAt(position) && seqNo == SequenceAt(position)
      ensures At(position + 1)
    {
      ts, seqNo := timestamp, sequence;
      timestamp := WrappingAdd(timestamp, RTP_SAMPLES_PER_FRAME, U32_RANGE);
      sequence := WrappingAdd(sequence, 1, U16_RANGE);
      StepByOne(position);
    }

    /** n dropped frames. The arithmetic is that of u32 and u16 words. */
    method Skip(n: u32, ghost position: nat)
      requires At(position)
      modifies this
      ensures At(position + n)
    {
      timestamp := WrappingAdd(timestamp, RTP_SAMPLES_PER_FRAME * n % U32_RANGE, U32_RANGE);
      sequence := WrappingAdd(sequence, n % U16_RANGE, U16_RANGE);
      SkipIsWrapping(position, n);
    }
  }

  lemma Mod32(q: nat, r: nat)
    requires r < U32_RANGE
    ensures (U32_RANGE * q + r) % U32_RANGE == r
  {
  }

  lemma Mod16(q: nat, r: nat)
    requires r < U16_RANGE
    ensures (U16_RANGE * q + r) % U16_RANGE == r
  {
  }

  lemma TimestampSum(a: nat, b: nat)
    ensures (a % U32_RANGE + b % U32_RANGE) % U32_RANGE == (a + b) % U32_RANGE
  {
    var low := a % U32_RANGE + b % U32_RANGE;
    assert a + b == U32_RANGE * (a / U32_RANGE + b / U32_RANGE + low / U32_RANGE) + low % U32_RANGE;
    Mod32(a / U32_RANGE + b / U32_RANGE + low / U32_RANGE, low % U32_RANGE);
  }

  lemma SequenceSum(a: nat, b: nat)
    ensures (a % U16_RANGE + b % U16_RANGE) % U16_RANGE == (a + b) % U16_RANGE
  {
    var low := a % U16_RANGE + b % U16_RANGE;
    assert a + b == U16_RANGE * (a / U16_RANGE + b / U16_RANGE + low / U16_RANGE) + low % U16_RANGE;
    Mod16(a / U16_RANGE + b / U16_RANGE + low / U16_RANGE, low % U16_RANGE);
  }

  lemma StepByOne(position: nat)
    ensures WrappingAdd(TimestampAt(position), RTP_SAMPLES_PER_FRAME, U32_RANGE) == TimestampAt(position + 1)
    ensures WrappingAdd(SequenceAt(position), 1, U16_RANGE) == SequenceAt(position + 1)
  {
    SkipIsWrapping(position, 1);
  }

  lemma SkipIsWrapping(position: nat, n: nat)
    ensures WrappingAdd(TimestampAt(position), RTP_SAMPLES_PER_FRAME * n % U32_RANGE, U32_RANGE)
         == TimestampAt(position + n)
    ensures WrappingAdd(SequenceAt(position), n % U16_RANGE, U16_RANGE) == SequenceAt(position + n)
  {
    TimestampSum(RTP_SAMPLES_PER_FRAME * position, RTP_SAMPLES_PER_FRAME * n);
    SequenceSum(position, n);
  }

  /** A lag is counted in 64 bits and cut to 32 before it is skipped. */
  function CappedLag(n: nat): u32 {
    if n < U32_RANGE then n else U32_RANGE - 1
  }

  lemma TimestampUnmoved(t: nat, dt: nat)
    ensures (t + dt) % U32_RANGE == t % U32_RANGE <==> dt % U32_RANGE == 0
  {
  }

  lemma SamePosition(position: nat, x: nat)
    ensures TimestampAt(position) == TimestampAt(position + x) && SequenceAt(position) == SequenceAt(position + x)
       <==> x % 0x400_0000 == 0
  {
    var t, dt := RTP_SAMPLES_PER_FRAME * position, RTP_SAMPLES_PER_FRAME * x;
    assert RTP_SAMPLES_PER_FRAME * (position + x) == t + dt;
    FrameMultiples(x);
    TimestampUnmoved(t, dt);
    if x % 0x400_0000 == 0 {
      SequenceUnmoved(position, x / 0x400_0000);
    }
  }

  lemma SequenceUnmoved(position: nat, k: nat)
    ensures SequenceAt(position + 0x400_0000 * k) == SequenceAt(position)
  {
    var q, r := position / U16_RANGE, position % U16_RANGE;
    assert position + 0x400_0000 * k == U16_RANGE * (q + 0x400 * k) + r;
    Mod16(q + 0x400 * k, r);
  }

  /** Cutting the lag keeps the timeline in step for every lag below 2^32, and beyond that exactly for the
      lags one short of a multiple of 2^26. */
  lemma CappedSkipInStep(position: nat, n: nat)
    ensures TimestampAt(position + CappedLag(n)) == TimestampAt(position + n)
            && SequenceAt(position + CappedLag(n)) == SequenceAt(position + n)
       <==> n < U32_RANGE || (n + 1) % 0x400_0000 == 0
  {
    hide TimestampAt, SequenceAt;
    if n >= U32_RANGE {
      var x: nat := n - CappedLag(n);
      SamePosition(position + CappedLag(n), x);
      assert n + 1 == 64 * 0x400_0000 + x;
    }
  }

  /** 960 x is a multiple of 2^32 exactly when x is one of 2^26, 15 being odd. */
  lemma FrameMultiples(x: nat)
    ensures RTP_SAMPLES_PER_FRAME * x % U32_RANGE == 0 <==> x % 0x400_0000 == 0
  {
    if RTP_SAMPLES_PER_FRAME * x % U32_RANGE == 0 {
      var k := RTP_SAMPLES_PER_FRAME * x / U32_RANGE;
      assert 15 * x == 0x400_0000 * k;
      assert x == 0x400_0000 * (49213167 * k - 11 * x);
    }
  }

  // ---- The bus, as a receiver sees it -----------------------------------------------------------

  datatype Received = Lagged(missed: nat) | Item(frame: Frame) | Empty

  /** The bus keeps the last 256 items. A receiver whose next item is gone is told how many it missed and
      moved to the oldest one kept. */
  function Receive(log: seq<Frame>, next: nat): Received {
    if next + BROADCAST_CAPACITY < |log| then Lagged(|log| - BROADCAST_CAPACITY - next)
    else if next < |log| then Item(log[next])
    else Empty
  }

  // ---- Specification of a run -------------------------------------------------------------------

  datatype Encoded = Opus | NoPacket | Panicked

  /** What happens next: the capture side sends a frame or goes away, or the pump is polled, with the
      encoder's and the sink's answers for the frame it may take; or shutdown. */
  datatype Event = Produce(frame: Frame) | SourceGone | Poll(encoded: Encoded, sinkOk: bool) | Shutdown

  datatype Packet = Packet(frame: Frame, timestamp: u32, sequence: u16)

  datatype Pump = Pump(
    log: seq<Frame>,
    closed: bool,
    running: bool,
    next: nat,
    position: nat,
    packets: seq<Packet>,
    sentAt: seq<nat>,
    failedAt: seq<nat>,
    skipped: nat,
    worstLag: nat)

  function Subscribed(log: seq<Frame>): Pump {
    Pump(log, false, true, |log|, 0, [], [], [], 0, 0)
  }

  function Polled(s: Pump, encoded: Encoded, sinkOk: bool): Pump {
    match Receive(s.log, s.next)
    case Empty => if s.closed then s.(running := false) else s
    case Lagged(n) =>
      s.(next := s.next + n, position := s.position + CappedLag(n), skipped := s.skipped + n,
         worstLag := if n > s.worstLag then n else s.worstLag)
    case Item(frame) =>
      match encoded
      case Panicked => s.(running := false)
      case NoPacket => s.(next := s.next + 1, failedAt := s.failedAt + [s.next])
      case Opus =>
        if sinkOk then
          s.(next := s.next + 1, position := s.position + 1, sentAt := s.sentAt + [s.next],
             packets := s.packets + [Packet(frame, TimestampAt(s.position), SequenceAt(s.position))])
        else s.(running := false)
  }

  function Step(s: Pump, e: Event): Pump {
    match e
    case Produce(frame) => if s.closed then s else s.(log := s.log + [frame])
    case SourceGone => s.(closed := true)
    case Shutdown => s.(running := false)
    case Poll(encoded, sinkOk) => if s.running then Polled(s, encoded, sinkOk) else s
  }

  function Run(log: seq<Frame>, script: seq<Event>): Pump {
    if script == [] then Subscribed(log)
    else Step(Run(log, script[..|script| - 1]), script[|script| - 1])
  }

  // ---- The pump ---------------------------------------------------------------------------------

  class OpusPump {
    const bus: PcmBus
    const timeline: RtpTimeline
    var closed: bool
    var running: bool
    var next: nat
    var packets: seq<Packet>
    ghost var position: nat
    ghost var sentAt: seq<nat>
    ghost var failedAt: seq<nat>
    ghost var skipped: nat
    ghost var worstLag: nat

    constructor (bus: PcmBus)
      ensures this.bus == bus && fresh(timeline)
      ensures Valid() && View() == Subscribed(bus.log)
    {
      this.bus := bus;
      timeline := new RtpTimeline();
      closed, running, next, packets := false, true, |bus.log|, [];
      position, sentAt, failedAt, skipped, worstLag := 0, [], [], 0, 0;
    }

    ghost predicate Valid()
      reads this, timeline
    {
      timeline.At(position)
    }

    ghost function View(): Pump
      reads this, bus
    {
      Pump(bus.log, closed, running, next, position, packets, sentAt, failedAt, skipped, worstLag)
    }

    /** One turn of the receive loop. */
    method PollOnce(encoded: Encoded, sinkOk: bool)
      requires Valid() && running
      modifies this, timeline
      ensures Valid() && View() == Polled(old(View()), encoded, sinkOk)
    {
      hide TimestampAt, SequenceAt;
      match Receive(bus.log, next) {
        case Empty =>
          if closed {
            running := false;
          }
        case Lagged(n) =>
          timeline.Skip(CappedLag(n), position);
          next := next + n;
          position, skipped := position + CappedLag(n), skipped + n;
          worstLag := if n > worstLag then n else worstLag;
        case Item(frame) =>
          match encoded {
            case Panicked => running := false;
            case NoPacket =>
              failedAt := failedAt + [next];
              next := next + 1;
            case Opus =>
              if sinkOk {
                var timestamp, sequence := timeline.NextPacket(position);
                packets := packets + [Packet(frame, timestamp, sequence)];
                position, sentAt := position + 1, sentAt + [next];
                next := next + 1;
              } else {
                running := false;
              }
          }
      }
    }

    method Happen(e: Event)
      requires Valid()
      modifies this, timeline, bus
      ensures Valid() && View() == Step(old(View()), e)
    {
      match e {
        case Produce(frame) =>
          if !closed {
            bus.Send(frame);
          }
        case SourceGone => closed := true;
        case Shutdown => running := false;
        case Poll(encoded, sinkOk) =>
          if running {
            PollOnce(encoded, sinkOk);
          }
      }
    }
  }

  method RunOpusPump(bus: PcmBus, script: seq<Event>) returns (packets: seq<Packet>)
    modifies bus
    ensures packets == Run(old(bus.log), script).packets
    ensures bus.log == Run(old(bus.log), script).log
  {
    var pump := new OpusPump(bus);
    for i := 0 to |script|
      invariant pump.Valid() && fresh(pump) && fresh(pump.timeline) && pump.bus == bus
      invariant pump.View() == Run(old(bus.log), script[..i])
    {
      assert script[..i + 1][..i] == script[..i];
      pump.Happen(script[i]);
    }
    assert script[..|script|] == script;
    packets := pump.packets;
  }

  // ---- Alignment --------------------------------------------------------------------------------

  /** Encode failures on items before index i. */
  function FailuresBefore(failedAt: seq<nat>, i: nat): nat {
    if failedAt == [] then 0
    else FailuresBefore(failedAt[..|failedAt| - 1], i) + if failedAt[|failedAt| - 1] < i then 1 else 0
  }

  lemma {:induction false} AllFailuresBefore(failedAt: seq<nat>, i: nat)
    requires forall k | 0 <= k < |failedAt| :: failedAt[k] < i
    ensures FailuresBefore(failedAt, i) == |failedAt|
  {
    if failedAt != [] {
      AllFailuresBefore(failedAt[..|failedAt| - 1], i);
    }
  }

  lemma LaterFailureDoesNotCount(failedAt: seq<nat>, f: nat, i: nat)
    requires i <= f
    ensures FailuresBefore(failedAt + [f], i) == FailuresBefore(failedAt, i)
  {
    assert (failedAt + [f])[..|failedAt|] == failedAt;
  }

  /** Packet k carries the frame numbered sentAt[k], stamped for its distance from the first subscribed item, less the
      encode failures before it. */
  ghost predicate Stamped(s: Pump, frames: seq<Frame>, start: nat, k: nat)
    requires k < |s.packets| == |s.sentAt|
  {
    var i := s.sentAt[k];
    var failures := FailuresBefore(s.failedAt, i);
    && start + failures <= i < |frames|
    && s.packets[k] == Packet(frames[i], TimestampAt(i - start - failures), SequenceAt(i - start - failures))
  }

  ghost predicate Inv(s: Pump, start: nat) {
    && |s.packets| == |s.sentAt|
    && start <= s.next <= |s.log|
    && s.next - start == |s.sentAt| + |s.failedAt| + s.skipped
    && (forall k | 0 <= k < |s.sentAt| :: s.sentAt[k] < s.next)
    && (forall k | 0 <= k < |s.failedAt| :: s.failedAt[k] < s.next)
    && (forall j, k | 0 <= j < k < |s.sentAt| :: s.sentAt[j] < s.sentAt[k])
    && (s.worstLag < U32_RANGE ==>
          && s.position + |s.failedAt| == s.next - start
          && forall k | 0 <= k < |s.packets| :: Stamped(s, s.log, start, k))
  }

  lemma ProduceKeepsInv(s: Pump, start: nat, frame: Frame)
    requires Inv(s, start)
    ensures Inv(s.(log := s.log + [frame]), start)
  {
    forall k | 0 <= k < |s.packets| && s.worstLag < U32_RANGE
      ensures Stamped(s.(log := s.log + [frame]), s.log + [frame], start, k)
    {
      assert Stamped(s, s.log, start, k);
    }
  }

  /** Moving on, past an encode failure or past missed items, leaves the packets sent as they were. */
  lemma MovingOnKeepsStamps(s: Pump, s': Pump, start: nat, k: nat)
    requires Inv(s, start) && s.worstLag < U32_RANGE && k < |s.packets|
    requires s'.packets == s.packets && s'.sentAt == s.sentAt
    requires s'.failedAt == s.failedAt || s'.failedAt == s.failedAt + [s.next]
    ensures Stamped(s', s.log, start, k)
  {
    assert Stamped(s, s.log, start, k);
    LaterFailureDoesNotCount(s.failedAt, s.next, s.sentAt[k]);
    hide FailuresBefore, TimestampAt, SequenceAt;
  }

  lemma SendKeepsInv(s: Pump, start: nat)
    requires Inv(s, start) && Receive(s.log, s.next).Item?
    ensures Inv(Polled(s, Opus, true), start)
  {
    var s' := Polled(s, Opus, true);
    AllFailuresBefore(s.failedAt, s.next);
    hide FailuresBefore, TimestampAt, SequenceAt;
    forall k | 0 <= k < |s'.packets| && s'.worstLag < U32_RANGE ensures Stamped(s', s'.log, start, k) {
      if k < |s.packets| {
        assert Stamped(s, s.log, start, k);
      }
    }
  }

  lemma PollKeepsInv(s: Pump, start: nat, encoded: Encoded, sinkOk: bool)
    requires Inv(s, start)
    ensures Inv(Polled(s, encoded, sinkOk), start)
  {
    hide FailuresBefore, TimestampAt, SequenceAt;
    var s' := Polled(s, encoded, sinkOk);
    var received := Receive(s.log, s.next);
    if received.Item? && encoded == Opus && sinkOk {
      SendKeepsInv(s, start);
    } else if received.Lagged? || (received.Item? && encoded == NoPacket) {
      forall k | 0 <= k < |s'.packets| && s'.worstLag < U32_RANGE ensures Stamped(s', s'.log, start, k) {
        MovingOnKeepsStamps(s, s', start, k);
      }
      hide Stamped;
    } else {
      RunningDoesNotMatter(s, start, s.closed, s'.running);
      hide Inv;
    }
  }

  lemma SubscribedKeepsInv(log: seq<Frame>)
    ensures Inv(Subscribed(log), |log|)
  {
  }

  lemma RunningDoesNotMatter(s: Pump, start: nat, closed: bool, running: bool)
    requires Inv(s, start)
    ensures Inv(s.(closed := closed, running := running), start)
  {
    var s' := s.(closed := closed, running := running);
    forall k | 0 <= k < |s.packets| && s.worstLag < U32_RANGE ensures Stamped(s', s'.log, start, k) {
      assert Stamped(s, s.log, start, k);
    }
  }

  lemma StepKeepsInv(s: Pump, start: nat, e: Event)
    requires Inv(s, start)
    ensures Inv(Step(s, e), start)
  {
    hide Inv, Polled;
    match e {
      case Produce(frame) => ProduceKeepsInv(s, start, frame);
      case Poll(encoded, sinkOk) => PollKeepsInv(s, start, encoded, sinkOk);
      case _ => RunningDoesNotMatter(s, start, Step(s, e).closed, Step(s, e).running);
    }
  }

  lemma {:induction false} RunKeepsInv(log: seq<Frame>, script: seq<Event>)
    ensures Inv(Run(log, script), |log|)
  {
    if script == [] {
      SubscribedKeepsInv(log);
    } else {
      hide Inv, Step;
      RunKeepsInv(log, script[..|script| - 1]);
      StepKeepsInv(Run(log, script[..|script| - 1]), |log|, script[|script| - 1]);
    }
  }

  /** Every packet sent carries one of the frames, in order and at most once, with the timestamp and sequence
      number of its distance from the first subscribed item, `start`, less the encode failures before it. Every
      item the receiver has moved past was sent, failed to encode or was reported as missed. */
  ghost predicate Carried(s: Pump, frames: seq<Frame>, start: nat) {
    && |s.packets| == |s.sentAt|
    && (forall k | 0 <= k < |s.packets| :: Stamped(s, frames, start, k))
    && (forall j, k | 0 <= j < k < |s.sentAt| :: s.sentAt[j] < s.sentAt[k])
    && s.next - start == |s.sentAt| + |s.failedAt| + s.skipped
  }

  /** In every interleaving of the producing side and a pump subscribed after `log`, whatever it misses. */
  lemma PacketsCarryFrames(frames: seq<Frame>, log: seq<Frame>, script: seq<Event>)
    requires Run(log, script).log <= frames
    requires Run(log, script).worstLag < U32_RANGE
    ensures Carried(Run(log, script), frames, |log|)
  {
    hide Run;
    RunKeepsInv(log, script);
    var s := Run(log, script);
    forall k | 0 <= k < |s.packets| ensures Stamped(s, frames, |log|, k) {
      assert Stamped(s, s.log, |log|, k);
    }
  }

  // ---- Event by event ---------------------------------------------------------------------------

  lemma RunOne(log: seq<Frame>, script: seq<Event>, e: Event)
    ensures Run(log, script + [e]) == Step(Run(log, script), e)
  {
    assert (script + [e])[..|script|] == script;
  }

  /** A pump starts at the end of what is on the bus, with nothing sent. */
  lemma StartsAtEnd(log: seq<Frame>)
    ensures var s := Run(log, []);
      s.log == log && s.running && !s.closed && s.next == |log| && s.position == 0 && s.packets == [] && s.skipped == 0
      && s.worstLag == 0
  {
  }

  /** What a turn of a running pump does. More than 256 items behind, it misses all but the last 256 and moves the
      timeline on by as many, cut to 32 bits. Otherwise it takes the next item: sent with the timeline's stamps,
      960 per slot in 32 bits and 1 per slot in 16; or dropped when there is no packet for it; and a panic of the
      encoder or a failing track ends it. With nothing to take it ends if the source is gone, and else waits. */
  lemma PollTaken(log: seq<Frame>, script: seq<Event>, encoded: Encoded, sinkOk: bool)
    requires Run(log, script).running
    ensures var s, s' := Run(log, script), Run(log, script + [Poll(encoded, sinkOk)]);
      && s'.log == s.log && s'.closed == s.closed
      && if s.next + 256 < |s.log| then
           var missed := |s.log| - 256 - s.next;
           && s'.next == |s.log| - 256 && s'.packets == s.packets && s'.running
           && s'.position == s.position + (if missed < 0x1_0000_0000 then missed else 0xFFFF_FFFF)
           && s'.skipped == s.skipped + missed && s'.worstLag >= missed && s'.worstLag >= s.worstLag
         else if s.next >= |s.log| then s' == s.(running := !s.closed)
         else if encoded == Opus && sinkOk then
           && s'.running && s'.next == s.next + 1 && s'.position == s.position + 1 && s'.worstLag == s.worstLag
           && s'.packets == s.packets + [Packet(s.log[s.next], 960 * s.position % 0x1_0000_0000, s.position % 0x1_0000)]
         else if encoded == NoPacket then
           s'.running && s'.next == s.next + 1 && s'.position == s.position && s'.packets == s.packets
           && s'.worstLag == s.worstLag
         else !s'.running && s'.packets == s.packets && s'.next == s.next
  {
    RunOne(log, script, Poll(encoded, sinkOk));
    hide Run;
  }

  /** What else happens: a frame comes in unless the source is gone, the source goes, or a shutdown ends the pump;
      and one that has ended sends nothing more. */
  lemma OtherTaken(log: seq<Frame>, script: seq<Event>, e: Event)
    requires e.Poll? ==> !Run(log, script).running
    ensures var s, s' := Run(log, script), Run(log, script + [e]);
      match e
      case Produce(frame) => s' == s.(log := if s.closed then s.log else s.log + [frame])
      case SourceGone => s' == s.(closed := true)
      case Shutdown => s' == s.(running := false)
      case Poll(_, _) => s' == s
  {
    RunOne(log, script, e);
    hide Run, Polled;
  }

  // ---- Capture bytes to packets -----------------------------------------------------------------

  /** Who goes next: the capture loop, or what happens to the pump. */
  datatype Turn = Capture | Drop | Take(encoded: Encoded, sinkOk: bool) | Stop

  /** What a turn comes to when `left` are the frames still to be captured. */
  function EventOf(turn: Turn, left: seq<Frame>, closed: bool): Option<Event> {
    match turn
    case Capture => if closed || left == [] then None else Some(Produce(left[0]))
    case Drop => Some(SourceGone)
    case Take(encoded, sinkOk) => Some(Poll(encoded, sinkOk))
    case Stop => Some(Shutdown)
  }

  function LeftAfter(e: Option<Event>, left: seq<Frame>): seq<Frame> {
    if e.Some? && e.value.Produce? && left != [] then left[1..] else left
  }

  function Scheduled(turns: seq<Turn>, left: seq<Frame>, closed: bool): seq<Event> {
    if turns == [] then []
    else
      var e := EventOf(turns[0], left, closed);
      var later := Scheduled(turns[1..], LeftAfter(e, left), closed || e == Some(SourceGone));
      if e.Some? then [e.value] + later else later
  }

  /** The turns come to: the next captured frame, unless there is none or the bus is closed; the end of the source; a
      poll; a shutdown. */
  lemma TurnsAre(turns: seq<Turn>, frame: Frame, left: seq<Frame>, encoded: Encoded, sinkOk: bool, closed: bool)
    ensures Scheduled([Capture] + turns, [frame] + left, false) == [Produce(frame)] + Scheduled(turns, left, false)
    ensures Scheduled([Capture] + turns, [], closed) == Scheduled(turns, [], closed)
    ensures Scheduled([Capture] + turns, left, true) == Scheduled(turns, left, true)
    ensures Scheduled([Drop] + turns, left, closed) == [SourceGone] + Scheduled(turns, left, true)
    ensures Scheduled([Take(encoded, sinkOk)] + turns, left, closed)
         == [Poll(encoded, sinkOk)] + Scheduled(turns, left, closed)
    ensures Scheduled([Stop] + turns, left, closed) == [Shutdown] + Scheduled(turns, left, closed)
    ensures Scheduled([], left, closed) == []
  {
    assert ([frame] + left)[1..] == left;
    assert ([Capture] + turns)[1..] == ([Drop] + turns)[1..] == ([Stop] + turns)[1..] == turns;
    assert ([Take(encoded, sinkOk)] + turns)[1..] == turns;
  }

  function MaybeStep(s: Pump, e: Option<Event>): Pump {
    match e case None => s case Some(event) => Step(s, event)
  }

  method PlayTurn(reader: ByteReader, buf: array<byte>, pump: OpusPump, turn: Turn)
    requires reader.Valid() && buf.Length == BYTES_PER_FRAME && pump.Valid()
    modifies reader, buf, pump, pump.timeline, pump.bus
    ensures reader.Valid() && pump.Valid()
    ensures var left := SplitFrames(old(Flatten(reader.chunks)));
      var e := EventOf(turn, left, old(pump.closed));
      && pump.View() == MaybeStep(old(pump.View()), e)
      && SplitFrames(Flatten(reader.chunks)) == LeftAfter(e, left)
  {
    hide SplitFrames, Flatten;
    match turn {
      case Capture =>
        if !pump.closed {
          var _ := PumpOne(reader, buf, pump.bus);
        }
      case Drop => pump.Happen(SourceGone);
      case Take(encoded, sinkOk) => pump.Happen(Poll(encoded, sinkOk));
      case Stop => pump.Happen(Shutdown);
    }
  }

  /** What the events so far and those of the turns from number i on come to. */
  ghost predicate OnSchedule(turns: seq<Turn>, i: nat, s: Pump, log: seq<Frame>, left: seq<Frame>, script: seq<Event>,
                             all: seq<Event>)
  {
    && i <= |turns|
    && s == Run(log, script)
    && script + Scheduled(turns[i..], left, s.closed) == all
  }

  lemma TurnKeepsSchedule(turns: seq<Turn>, i: nat, s: Pump, log: seq<Frame>, left: seq<Frame>, script: seq<Event>,
                          all: seq<Event>)
    requires OnSchedule(turns, i, s, log, left, script, all) && i < |turns|
    ensures var e := EventOf(turns[i], left, s.closed);
      && OnSchedule(turns, i + 1, MaybeStep(s, e), log, LeftAfter(e, left),
                    if e.Some? then script + [e.value] else script, all)
      && MaybeStep(s, e).log + LeftAfter(e, left) == s.log + left
  {
    assert turns[i..][1..] == turns[i + 1..];
    var e := EventOf(turns[i], left, s.closed);
    if e.Some? {
      assert (script + [e.value])[..|script|] == script;
      var later := Scheduled(turns[i + 1..], LeftAfter(e, left), s.closed || e == Some(SourceGone));
      Associative(script, [e.value], later);
    }
  }

  /** Capture bytes to packets: the capture loop on a stream chunked in any way, and a pump that subscribes
      after the loop's first turns, interleaved in any way. The frames are those on the bus before and then the
      full ones of the captured bytes. */
  method BytesToPackets(reader: ByteReader, bus: PcmBus, early: nat, turns: seq<Turn>)
    returns (packets: seq<Packet>)
    requires reader.Valid()
    modifies reader, bus
    ensures var captured := SplitFrames(old(Flatten(reader.chunks)));
      var frames, start := old(bus.log) + captured, |old(bus.log)| + Min(early, |captured|);
      var s := Run(frames[..start], Scheduled(turns, frames[start..], false));
      && packets == s.packets && bus.log == s.log <= frames
      && (s.worstLag < U32_RANGE ==> Carried(s, frames, start))
  {
    hide SplitFrames, Flatten, Carried, Step, Scheduled, OnSchedule;
    ghost var captured := SplitFrames(Flatten(reader.chunks));
    ghost var frames := bus.log + captured;
    var buf := new byte[BYTES_PER_FRAME];
    PumpSome(reader, buf, bus, early);
    ghost var log, left, script := bus.log, SplitFrames(Flatten(reader.chunks)), [];
    assert frames[..|log|] == log && frames[|log|..] == left && log + left == frames;
    ghost var all := Scheduled(turns, left, false);
    var pump := new OpusPump(bus);
    StartsOnSchedule(turns, log, left);
    for i := 0 to |turns|
      invariant reader.Valid() && pump.Valid() && fresh(pump) && fresh(pump.timeline) && pump.bus == bus
      invariant left == SplitFrames(Flatten(reader.chunks)) && bus.log + left == frames
      invariant OnSchedule(turns, i, pump.View(), log, left, script, all)
    {
      TurnKeepsSchedule(turns, i, pump.View(), log, left, script, all);
      ghost var e := EventOf(turns[i], left, pump.closed);
      PlayTurn(reader, buf, pump, turns[i]);
      left, script := LeftAfter(e, left), if e.Some? then script + [e.value] else script;
    }
    packets := pump.packets;
    EndsOnSchedule(turns, pump.View(), log, left, script, all);
    if Run(log, all).worstLag < U32_RANGE {
      PacketsCarryFrames(frames, log, all);
    }
  }

  lemma StartsOnSchedule(turns: seq<Turn>, log: seq<Frame>, left: seq<Frame>)
    ensures OnSchedule(turns, 0, Subscribed(log), log, left, [], Scheduled(turns, left, false))
  {
    assert turns[0..] == turns;
  }

  lemma EndsOnSchedule(turns: seq<Turn>, s: Pump, log: seq<Frame>, left: seq<Frame>, script: seq<Event>, all: seq<Event>)
    requires OnSchedule(turns, |turns|, s, log, left, script, all)
    ensures s == Run(log, all)
  {
    assert script + [] == script;
  }

  /** The pump never falls more than the bus's 256 items behind. */
  ghost predicate KeptUp(log: seq<Frame>, script: seq<Event>) {
    forall i | 0 <= i <= |script| ::
      var s := Run(log, script[..i]); |s.log| <= s.next + BROADCAST_CAPACITY
  }

  ghost predicate AllEncoded(script: seq<Event>) {
    forall i | 0 <= i < |script| && script[i].Poll? :: script[i] == Poll(Opus, true)
  }

  ghost predicate Gapless(s: Pump, start: nat) {
    && start <= s.next <= |s.log|
    && s.position == |s.packets| == s.next - start && s.skipped == 0
    && forall k | 0 <= k < |s.packets| :: s.packets[k] == Packet(s.log[start + k], TimestampAt(k), SequenceAt(k))
  }

  lemma StepStaysGapless(s: Pump, start: nat, e: Event)
    requires Gapless(s, start) && |s.log| <= s.next + BROADCAST_CAPACITY
    requires e.Poll? ==> e == Poll(Opus, true)
    ensures Gapless(Step(s, e), start)
  {
    hide TimestampAt, SequenceAt;
  }

  /** A pump that keeps up, with an encoder and a track that work, sends every frame it takes off the bus, in
      order, on a timeline without gaps. */
  lemma {:induction false} KeptUpIsGapless(log: seq<Frame>, script: seq<Event>)
    requires KeptUp(log, script) && AllEncoded(script)
    ensures Gapless(Run(log, script), |log|)
  {
    if script != [] {
      var before, last := script[..|script| - 1], script[|script| - 1];
      assert Run(log, script) == Step(Run(log, before), last);
      assert last.Poll? ==> last == Poll(Opus, true);
      hide Run, Step, Gapless;
      forall i | 0 <= i <= |before|
        ensures var s := Run(log, before[..i]); |s.log| <= s.next + BROADCAST_CAPACITY
      {
        assert before[..i] == script[..i];
      }
      assert AllEncoded(before);
      KeptUpIsGapless(log, before);
      assert script[..|before|] == before;
      StepStaysGapless(Run(log, before), |log|, last);
    }
  }
}
