/** A Chromecast that goes silent without an error, across two tasks: the session gives the link up after
    15 to 20 seconds of silence, and the output controller stops showing the device within 30. Handlers are
    taken to be instantaneous; times are in milliseconds. */
module SilentCast {
  import opened Wrappers
  import CastProto
  import CastReader
  import Outputs
  import S = CastSession
  import T = CastTrace
  import C = OutputController

  const HEARTBEAT_MS: nat := 5_000
  const REFRESH_MS: nat := 10_000

  // ---- The session's clock ----------------------------------------------------------------------

  /** When the next heartbeat tick is due. */
  function Due(start: int, script: seq<S.Timed>): int {
    start + HEARTBEAT_MS * (T.Ticks(script) + 1)
  }

  function LastTime(start: int, script: seq<S.Timed>): int {
    if script == [] then start else script[|script| - 1].time
  }

  /** Time does not run backwards, each tick fires when due, and nothing overtakes a tick that is due. */
  predicate WellTimed(start: int, script: seq<S.Timed>) {
    script == [] ||
    var init, last := script[..|script| - 1], script[|script| - 1];
    && WellTimed(start, init)
    && LastTime(start, init) <= last.time <= Due(start, init)
    && (last.event.Tick? ==> last.time == Due(start, init))
  }

  /** The ticks of such a script come every five seconds from the start on. */
  lemma TicksAreOnTime(start: int, script: seq<S.Timed>, e: S.Timed)
    requires WellTimed(start, script + [e]) && e.event.Tick?
    ensures e.time == start + 5_000 * (T.Ticks(script) + 1)
  {
    assert (script + [e])[..|script|] == script;
  }

  /** No stop, end of stream or read error; with no failing write either, silence is all that can happen. */
  predicate Benign(e: S.Timed) {
    e.event.Chunk? || e.event.Tick? || e.event.Nudge?
  }

  ghost predicate AllBenign(script: seq<S.Timed>) {
    forall i | 0 <= i < |script| :: Benign(script[i])
  }

  lemma {:induction false} PumpKeepsRunning(s: S.Session, classify: S.Classifier)
    requires s.end == S.Running
    ensures var s' := S.Pump(s, classify, None); s'.end == S.Running && s'.lastInbound == s.lastInbound
    decreases |s.readBuf|
  {
    match CastProto.DecodeFrame(s.readBuf) {
      case None =>
      case Some((m, n)) =>
        hide CastProto.DecodeFrame;
        var s' := S.Dispatch(s.(readBuf := s.readBuf[n..]), classify, None, m);
        S.DispatchKeepsBuffer(s.(readBuf := s.readBuf[n..]), classify, None, m);
        PumpKeepsRunning(s', classify);
    }
  }

  lemma BenignStep(s: S.Session, classify: S.Classifier, e: S.Timed)
    requires s.end == S.Running && Benign(e)
    ensures var s' := S.Step(s, classify, None, e);
      if e.event.Tick? && S.LinkSilent(s.lastInbound, e.time)
      then s'.end == S.LinkLost && s'.lastInbound == s.lastInbound
      else s'.end == S.Running && s'.lastInbound == if e.event.Chunk? then e.time else s.lastInbound
  {
    if e.event.Chunk? {
      var s' := s.(lastInbound := e.time, readBuf := s.readBuf + e.event.bytes);
      PumpKeepsRunning(s', classify);
      hide S.Pump;
    }
  }

  /** Never early: nothing but a tick that finds more than 15 seconds of silence ends a benign run. */
  lemma NeverGivenUpEarly(classify: S.Classifier, start: int, script: seq<S.Timed>, e: S.Timed)
    requires Benign(e) && S.Run(classify, None, start, script).end == S.Running
    ensures var s := S.Run(classify, None, start, script);
      S.Run(classify, None, start, script + [e]).end != S.Running
      <==> e.event.Tick? && e.time - s.lastInbound > 15_000
  {
    assert (script + [e])[..|script|] == script;
    BenignStep(S.Run(classify, None, start, script), classify, e);
    hide S.Step;
  }

  /** While the session runs, the next tick comes at most 20 seconds after the last inbound bytes. */
  lemma {:induction false} RunningIsNotSilent(classify: S.Classifier, start: int, script: seq<S.Timed>)
    requires WellTimed(start, script) && AllBenign(script)
    ensures var s := S.Run(classify, None, start, script);
      && start <= s.lastInbound <= LastTime(start, script)
      && (s.end == S.Running ==> Due(start, script) <= s.lastInbound + 20_000)
  {
    if script != [] {
      var init, e := script[..|script| - 1], script[|script| - 1];
      assert forall i | 0 <= i < |init| :: init[i] == script[i];
      RunningIsNotSilent(classify, start, init);
      var s := S.Run(classify, None, start, init);
      if s.end == S.Running {
        BenignStep(s, classify, e);
      }
      hide S.Step;
    }
  }

  /** Everything due by `now` has happened. */
  predicate UpTo(start: int, script: seq<S.Timed>, now: int) {
    LastTime(start, script) <= now < Due(start, script)
  }

  /** Always in time: 20 seconds after the last inbound bytes the session has ended. */
  lemma GivenUpInTime(classify: S.Classifier, start: int, script: seq<S.Timed>, now: int)
    requires WellTimed(start, script) && AllBenign(script) && UpTo(start, script, now)
    requires now >= S.Run(classify, None, start, script).lastInbound + 20_000
    ensures S.Run(classify, None, start, script).end == S.LinkLost
  {
    hide S.Step;
    RunningIsNotSilent(classify, start, script);
    BenignEnd(classify, start, script);
  }

  lemma {:induction false} BenignEnd(classify: S.Classifier, start: int, script: seq<S.Timed>)
    requires AllBenign(script)
    ensures S.Run(classify, None, start, script).end in {S.Running, S.LinkLost}
  {
    if script != [] {
      var init, e := script[..|script| - 1], script[|script| - 1];
      assert forall i | 0 <= i < |init| :: init[i] == script[i];
      BenignEnd(classify, start, init);
      if S.Run(classify, None, start, init).end == S.Running {
        BenignStep(S.Run(classify, None, start, init), classify, e);
        hide S.Step;
      }
    }
  }

  /** When the last bytes of a script arrived, the last ones before it having come at `since`. */
  function LastChunk(since: int, script: seq<S.Timed>): int {
    if script == [] then since
    else
      var last := script[|script| - 1];
      if last.event.Chunk? then last.time else LastChunk(since, script[..|script| - 1])
  }

  /** No tick finds more than 15 seconds of silence. */
  ghost predicate Chatters(since: int, script: seq<S.Timed>) {
    forall n | 0 <= n < |script| && script[n].event.Tick? ::
      script[n].time - LastChunk(since, script[..n]) <= 15_000
  }

  /** A peer that goes on sending is never given up. */
  lemma {:induction false} ChatteringPeerIsKept(classify: S.Classifier, start: int, script: seq<S.Timed>,
                                                more: seq<S.Timed>)
    requires AllBenign(more)
    requires var s := S.Run(classify, None, start, script); s.end == S.Running && Chatters(s.lastInbound, more)
    ensures var s, now := S.Run(classify, None, start, script), S.Run(classify, None, start, script + more);
      now.end == S.Running && now.lastInbound == LastChunk(s.lastInbound, more)
    decreases |more|
  {
    if more == [] {
      assert script + more == script;
    } else {
      hide S.Run, S.Step;
      var before, e := more[..|more| - 1], more[|more| - 1];
      var since := S.Run(classify, None, start, script).lastInbound;
      forall n | 0 <= n < |before| ensures before[n] == more[n] && before[..n] == more[..n] {
      }
      ChatteringPeerIsKept(classify, start, script, before);
      assert script + more == (script + before) + [e] && more[..|before|] == before;
      T.RunSnoc(classify, None, start, script + before, e);
      BenignStep(S.Run(classify, None, start, script + before), classify, e);
    }
  }

  /** So a peer that has sent an undecodable frame and goes on sending is neither answered again nor given up:
      the session stays, with everything dispatched that ever will be. */
  lemma StalledPeerIsNeitherAnsweredNorLost(classify: S.Classifier, start: int, script: seq<S.Timed>,
                                            more: seq<S.Timed>)
    requires AllBenign(more)
    requires var s := S.Run(classify, None, start, script);
      s.end == S.Running && CastReader.Stalled(s.readBuf) && Chatters(s.lastInbound, more)
    ensures var s, now := S.Run(classify, None, start, script), S.Run(classify, None, start, script + more);
      now.end == S.Running && T.DeafSince(s, now) && now.lastInbound == LastChunk(s.lastInbound, more)
  {
    ChatteringPeerIsKept(classify, start, script, more);
    T.StalledSessionIsDeaf(classify, None, start, script, more);
    hide S.Run, T.DeafSince;
  }

  // ---- The controller's clock -------------------------------------------------------------------

  /** What the session has done strictly before a point in time. */
  function Before(script: seq<S.Timed>, time: int): seq<S.Timed> {
    if script == [] || script[|script| - 1].time < time then script else Before(script[..|script| - 1], time)
  }

  lemma {:induction false} BeforeIsPrefix(classify: S.Classifier, start: int, script: seq<S.Timed>, time: int)
    requires WellTimed(start, script) && AllBenign(script)
    ensures var p := Before(script, time);
      && WellTimed(start, p) && AllBenign(p)
      && S.Run(classify, None, start, p).lastInbound <= S.Run(classify, None, start, script).lastInbound
      && (p == script || time <= Due(start, p))
  {
    if script != [] && script[|script| - 1].time >= time {
      var init, e := script[..|script| - 1], script[|script| - 1];
      assert forall i | 0 <= i < |init| :: init[i] == script[i];
      BeforeIsPrefix(classify, start, init, time);
      RunningIsNotSilent(classify, start, init);
      if S.Run(classify, None, start, init).end == S.Running {
        BenignStep(S.Run(classify, None, start, init), classify, e);
      }
      hide S.Step;
    }
  }

  /** A discovery refresh of the controller. */
  datatype RefreshAt = RefreshAt(time: int, probed: Option<Outputs.Available>, finished: bool)

  /** The controller after refreshes alone: no command and no shutdown in between. */
  function Refreshed(c: C.State, cfg: C.Config, refreshes: seq<RefreshAt>): C.State {
    if refreshes == [] then c
    else
      var r := refreshes[|refreshes| - 1];
      C.Step(Refreshed(c, cfg, refreshes[..|refreshes| - 1]), C.Refresh(r.probed, r.finished), cfg)
  }

  /** A session that has ended is seen to have finished. */
  predicate Truthful(classify: S.Classifier, start: int, script: seq<S.Timed>, r: RefreshAt) {
    S.Run(classify, None, start, Before(script, r.time)).end != S.Running ==> r.finished
  }

  predicate Dropped(c: C.State) {
    && c.running && c.cast == None
    && c.shown.active == None && c.shown.health == Some(C.Lost)
    && c.active == None && c.health == Some(C.Lost)
  }

  lemma {:induction false} StaysDropped(c: C.State, cfg: C.Config, refreshes: seq<RefreshAt>)
    requires c.running && c.cast.Some?
    ensures var c' := Refreshed(c, cfg, refreshes); Dropped(c') || (c'.running && c'.cast.Some?)
  {
    if refreshes != [] {
      StaysDropped(c, cfg, refreshes[..|refreshes| - 1]);
    }
  }

  /** The controller refreshes every ten seconds from `origin` on, and all refreshes due by `now` have
      happened. */
  predicate OnSchedule(origin: int, refreshes: seq<RefreshAt>, now: int) {
    && (forall k | 0 <= k < |refreshes| :: refreshes[k].time == origin + REFRESH_MS * (k + 1))
    && origin + REFRESH_MS * |refreshes| <= now < origin + REFRESH_MS * (|refreshes| + 1)
  }

  /** On that schedule the last refresh is less than ten seconds old. */
  lemma RefreshIsRecent(origin: int, refreshes: seq<RefreshAt>, now: int)
    requires OnSchedule(origin, refreshes, now)
    ensures if refreshes == [] then origin <= now < origin + 10_000
            else now - 10_000 < refreshes[|refreshes| - 1].time <= now
    ensures forall k | 0 <= k < |refreshes| :: refreshes[k].time == origin + 10_000 * (k + 1)
  {
  }

  /** Silent Chromecast bound: a device that was being cast to and has been silent for 30 seconds is no
      longer shown as active; the output reads as lost. `origin` is the controller's last refresh, or its
      start, before the session. */
  lemma SilentChromecastIsDropped(classify: S.Classifier, start: int, script: seq<S.Timed>, origin: int,
                                  c: C.State, cfg: C.Config, refreshes: seq<RefreshAt>, now: int)
    requires WellTimed(start, script) && AllBenign(script) && UpTo(start, script, now)
    requires origin <= start && OnSchedule(origin, refreshes, now)
    requires c.running && c.cast.Some?
    requires forall i | 0 <= i < |refreshes| :: Truthful(classify, start, script, refreshes[i])
    requires now >= S.Run(classify, None, start, script).lastInbound + 30_000
    ensures Dropped(Refreshed(c, cfg, refreshes))
  {
    hide S.Step;
    RunningIsNotSilent(classify, start, script);
    assert |refreshes| > 0;
    var r := refreshes[|refreshes| - 1];
    var p := Before(script, r.time);
    BeforeIsPrefix(classify, start, script, r.time);
    RunningIsNotSilent(classify, start, p);
    assert Truthful(classify, start, script, r) && r.finished;
    StaysDropped(c, cfg, refreshes[..|refreshes| - 1]);
  }
}
