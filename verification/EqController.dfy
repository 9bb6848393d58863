/** The EQ controller: the filter chain's lifetime, the desired route, and the band gains. */
module EqController {
  import opened Wrappers

  const NUM_BANDS: nat := 10

  /** A 32-bit float gain in dB, as far as comparing and clamping go. */
  datatype Gain = NaN | NegInf | PosInf | Db(value: real)

  const MIN_GAIN := Db(-12.0)
  const MAX_GAIN := Db(12.0)

  /** A float's clamp keeps NaN. */
  function ClampEqGain(g: Gain): (r: Gain)
    ensures InRange(r) <==> !g.NaN?
    ensures InRange(g) ==> r == g
    ensures g == NegInf || (g.Db? && g.value < -12.0) ==> r == Db(-12.0)
    ensures g == PosInf || (g.Db? && g.value > 12.0) ==> r == Db(12.0)
    ensures g == NaN ==> r == NaN
  {
    match g
    case NaN => NaN
    case NegInf => MIN_GAIN
    case PosInf => MAX_GAIN
    case Db(value) => if value < -12.0 then MIN_GAIN else if value > 12.0 then MAX_GAIN else g
  }

  predicate InRange(g: Gain) {
    g.Db? && -12.0 <= g.value <= 12.0
  }

  datatype FilterType = LowShelf | Peaking | HighShelf

  /** Frequency in Hz, quality in thousandths. */
  datatype Band = Band(freq: nat, gain: Gain, q: nat, filter: FilterType)

  function DefaultBands(): (bands: seq<Band>)
    ensures |bands| == NUM_BANDS && forall i | 0 <= i < NUM_BANDS :: bands[i].gain == Db(0.0)
  {
    [Band(60, Db(0.0), 707, LowShelf), Band(120, Db(0.0), 1414, Peaking), Band(250, Db(0.0), 1414, Peaking),
     Band(500, Db(0.0), 1414, Peaking), Band(1000, Db(0.0), 1414, Peaking), Band(2000, Db(0.0), 1414, Peaking),
     Band(4000, Db(0.0), 1414, Peaking), Band(8000, Db(0.0), 1820, Peaking), Band(12000, Db(0.0), 2870, Peaking),
     Band(16000, Db(0.0), 707, HighShelf)]
  }

  type Gains = gains: seq<Gain> | |gains| == NUM_BANDS witness seq(NUM_BANDS, _ => NaN)

  type Bands = bands: seq<Band> | |bands| == NUM_BANDS witness DefaultBands()

  /** The default bands with those gains. */
  function WithGains(gains: Gains): Bands {
    seq(NUM_BANDS, i requires 0 <= i < NUM_BANDS => DefaultBands()[i].(gain := gains[i]))
  }

  method GainsToBands(gains: array<Gain>) returns (bands: seq<Band>)
    requires gains.Length == NUM_BANDS
    ensures bands == WithGains(gains[..])
  {
    var copy := new Band[NUM_BANDS](i requires 0 <= i < NUM_BANDS => DefaultBands()[i]);
    for i := 0 to NUM_BANDS
      invariant forall k | 0 <= k < i :: copy[k] == DefaultBands()[k].(gain := gains[k])
      invariant forall k | i <= k < NUM_BANDS :: copy[k] == DefaultBands()[k]
    {
      copy[i] := copy[i].(gain := gains[i]);
    }
    bands := copy[..];
  }

  // ---- Specification ----------------------------------------------------------------------------

  datatype Sink = NullSink | EqSink

  /** What the rest of the system sees: how many filter chains are supervised and with which bands the last
      was started, the desired route, the gains last sent to the node, and the published EQ state. */
  datatype World = World(
    supervisors: int,
    route: Sink,
    applied: Option<(u32, Gains)>,
    enabled: bool,
    bands: Bands)

  datatype Action = Spawn | Abort | Route(sink: Sink) | Apply(id: u32, gains: Gains) | Publish(enabled: bool, bands: Bands)

  function Effect(w: World, a: Action): World {
    match a
    case Spawn => w.(supervisors := w.supervisors + 1)
    case Abort => w.(supervisors := w.supervisors - 1)
    case Route(sink) => w.(route := sink)
    case Apply(id, gains) => w.(applied := Some((id, gains)))
    case Publish(enabled, bands) => w.(enabled := enabled, bands := bands)
  }

  /** The commands, with how the waits and probes they cause turn out. */
  datatype Command =
    | Enable(found: Option<u32>, arrives: bool)
    | Disable
    | UpdateGains(gains: Gains, probed: Option<u32>, arrives: bool)

  /** `history` has every state the world was in, after each single action. */
  datatype State = State(gains: Gains, supervisor: bool, nodeId: Option<u32>, world: World, history: seq<World>)

  function Initial(): State {
    var gains := seq(NUM_BANDS, _ => Db(0.0));
    State(gains, false, None, World(0, NullSink, None, false, WithGains(gains)), [])
  }

  function Do(s: State, a: Action): State {
    s.(world := Effect(s.world, a), history := s.history + [Effect(s.world, a)])
  }

  /** Gains sent to a node arrive or do not; what the command for it returns is only logged. */
  function Send(s: State, id: u32, arrives: bool): State {
    if arrives then Do(s, Apply(id, s.gains)) else s
  }

  function PublishGains(s: State, enabled: bool): State {
    Do(s, Publish(enabled, WithGains(s.gains)))
  }

  function Clamped(gains: Gains): Gains {
    seq(NUM_BANDS, i requires 0 <= i < NUM_BANDS => ClampEqGain(gains[i]))
  }

  function OnEnable(s: State, found: Option<u32>, arrives: bool): State {
    if s.supervisor then s
    else
      var spawned := Do(s, Spawn).(supervisor := true);
      match found
      case None =>
        PublishGains(Do(Do(spawned, Abort).(supervisor := false, nodeId := None), Route(NullSink)), false)
      case Some(id) =>
        PublishGains(Send(Do(spawned.(nodeId := found), Route(EqSink)), id, arrives), true)
  }

  function OnDisable(s: State): State {
    var routed := Do(s, Route(NullSink));
    PublishGains((if s.supervisor then Do(routed, Abort) else routed).(supervisor := false, nodeId := None), false)
  }

  function OnUpdate(s: State, gains: Gains, probed: Option<u32>, arrives: bool): State {
    var stored := s.(gains := Clamped(gains));
    var sent :=
      if !s.supervisor then stored
      else
        match probed
        case None => stored.(nodeId := None)
        case Some(id) => Send(stored.(nodeId := probed), id, arrives);
    PublishGains(sent, s.supervisor)
  }

  function Handle(s: State, command: Command): State {
    match command
    case Enable(found, arrives) => OnEnable(s, found, arrives)
    case Disable => OnDisable(s)
    case UpdateGains(gains, probed, arrives) => OnUpdate(s, gains, probed, arrives)
  }

  function Run(commands: seq<Command>): State {
    if commands == [] then Initial() else Handle(Run(commands[..|commands| - 1]), commands[|commands| - 1])
  }

  // ---- The task ---------------------------------------------------------------------------------

  class EqTask {
    const gains: array<Gain>
    var supervisor: bool
    var nodeId: Option<u32>
    var world: World
    ghost var history: seq<World>

    ghost function Contents(): State
      reads this, gains
      requires gains.Length == NUM_BANDS
    {
      State(gains[..], supervisor, nodeId, world, history)
    }

    constructor ()
      ensures gains.Length == NUM_BANDS && fresh(gains) && Contents() == Initial()
    {
      var start := new Gain[NUM_BANDS](_ => Db(0.0));
      var levels := seq(NUM_BANDS, _ => Db(0.0));
      assert start[..] == levels;
      gains := start;
      supervisor, nodeId, world := false, None, World(0, NullSink, None, false, WithGains(levels));
      history := [];
    }

    method Perform(a: Action)
      requires gains.Length == NUM_BANDS
      modifies this
      ensures gains.Length == NUM_BANDS && Contents() == Do(old(Contents()), a)
    {
      world := Effect(world, a);
      history := history + [world];
    }

    method PublishBands(enabled: bool)
      requires gains.Length == NUM_BANDS
      modifies this
      ensures Contents() == PublishGains(old(Contents()), enabled)
    {
      var bands := GainsToBands(gains);
      Perform(Publish(enabled, bands));
    }

    method SetEqGains(id: u32, arrives: bool)
      requires gains.Length == NUM_BANDS
      modifies this
      ensures Contents() == Send(old(Contents()), id, arrives)
    {
      if arrives {
        Perform(Apply(id, gains[..]));
      }
    }

    method HandleEnable(found: Option<u32>, arrives: bool)
      requires gains.Length == NUM_BANDS
      modifies this
      ensures Contents() == OnEnable(old(Contents()), found, arrives)
    {
      if supervisor {
        return;
      }
      Perform(Spawn);
      supervisor := true;
      match found {
        case None =>
          Perform(Abort);
          supervisor, nodeId := false, None;
          Perform(Route(NullSink));
          PublishBands(false);
        case Some(id) =>
          nodeId := found;
          Perform(Route(EqSink));
          SetEqGains(id, arrives);
          PublishBands(true);
      }
    }

    /** Audio has somewhere to go before the filter chain disappears. */
    method HandleDisable()
      requires gains.Length == NUM_BANDS
      modifies this
      ensures Contents() == OnDisable(old(Contents()))
    {
      Perform(Route(NullSink));
      if supervisor {
        supervisor := false;
        Perform(Abort);
      }
      nodeId := None;
      PublishBands(false);
    }

    method HandleUpdateGains(levels: Gains, probed: Option<u32>, arrives: bool)
      requires gains.Length == NUM_BANDS
      modifies this, gains
      ensures Contents() == OnUpdate(old(Contents()), levels, probed, arrives)
    {
      for i := 0 to NUM_BANDS
        invariant gains.Length == NUM_BANDS
        invariant forall k | 0 <= k < i :: gains[k] == ClampEqGain(levels[k])
        invariant old(Contents()) == State(old(gains[..]), supervisor, nodeId, world, history)
      {
        gains[i] := ClampEqGain(levels[i]);
      }
      assert gains[..] == Clamped(levels);
      var running := supervisor;
      if running {
        nodeId := probed;
        match probed {
          case None =>
          case Some(id) => SetEqGains(id, arrives);
        }
      }
      PublishBands(running);
    }

    /** Until shutdown, or until the senders are gone. */
    method RunEqController(commands: seq<Command>)
      requires gains.Length == NUM_BANDS && Contents() == Initial()
      modifies this, gains
      ensures Contents() == Run(commands)
    {
      hide OnEnable, OnDisable, OnUpdate, Initial;
      for i := 0 to |commands|
        invariant gains.Length == NUM_BANDS && Contents() == Run(commands[..i])
      {
        assert commands[..i + 1][..i] == commands[..i];
        match commands[i] {
          case Enable(found, arrives) => HandleEnable(found, arrives);
          case Disable => HandleDisable();
          case UpdateGains(levels, probed, arrives) => HandleUpdateGains(levels, probed, arrives);
        }
      }
      assert commands[..|commands|] == commands;
    }
  }

  // ---- The promises -----------------------------------------------------------------------------

  /** Audio is only routed to the EQ sink while a filter chain is supervised, and there is never a second. */
  predicate Safe(w: World) {
    0 <= w.supervisors <= 1 && (w.route == EqSink ==> w.supervisors == 1)
  }

  ghost predicate AlwaysSafe(history: seq<World>) {
    forall k | 0 <= k < |history| :: Safe(history[k])
  }

  /** Between commands the route, the supervisor and the published state agree. */
  predicate Settled(s: State) {
    && s.world.supervisors == (if s.supervisor then 1 else 0)
    && (s.world.route == EqSink <==> s.supervisor)
    && (s.world.enabled <==> s.supervisor)
    && (s.nodeId.Some? ==> s.supervisor)
    && s.world.bands == WithGains(s.gains)
  }

  lemma DoKeepsSafe(s: State, a: Action)
    requires AlwaysSafe(s.history) && Safe(Effect(s.world, a))
    ensures AlwaysSafe(Do(s, a).history)
  {
  }

  lemma EnableKeeps(s: State, found: Option<u32>, arrives: bool)
    requires Settled(s) && AlwaysSafe(s.history)
    ensures Settled(OnEnable(s, found, arrives)) && AlwaysSafe(OnEnable(s, found, arrives).history)
  {
    hide WithGains, AlwaysSafe;
    if !s.supervisor {
      var spawned := Do(s, Spawn).(supervisor := true);
      DoKeepsSafe(s, Spawn);
      match found {
        case None =>
          var aborted := Do(spawned, Abort).(supervisor := false, nodeId := None);
          DoKeepsSafe(spawned, Abort);
          DoKeepsSafe(aborted, Route(NullSink));
          DoKeepsSafe(Do(aborted, Route(NullSink)), Publish(false, WithGains(s.gains)));
        case Some(id) =>
          var known := spawned.(nodeId := found);
          DoKeepsSafe(known, Route(EqSink));
          SendKeepsSafe(Do(known, Route(EqSink)), id, arrives);
          DoKeepsSafe(Send(Do(known, Route(EqSink)), id, arrives), Publish(true, WithGains(s.gains)));
      }
    }
  }

  lemma SendKeepsSafe(s: State, id: u32, arrives: bool)
    requires AlwaysSafe(s.history) && Safe(s.world)
    ensures AlwaysSafe(Send(s, id, arrives).history) && Safe(Send(s, id, arrives).world)
  {
  }

  lemma DisableKeeps(s: State)
    requires Settled(s) && AlwaysSafe(s.history)
    ensures Settled(OnDisable(s)) && AlwaysSafe(OnDisable(s).history)
  {
    hide WithGains, AlwaysSafe;
    DoKeepsSafe(s, Route(NullSink));
    var routed := Do(s, Route(NullSink));
    if s.supervisor {
      DoKeepsSafe(routed, Abort);
    }
    var stopped := (if s.supervisor then Do(routed, Abort) else routed).(supervisor := false, nodeId := None);
    DoKeepsSafe(stopped, Publish(false, WithGains(s.gains)));
  }

  lemma UpdateKeeps(s: State, gains: Gains, probed: Option<u32>, arrives: bool)
    requires Settled(s) && AlwaysSafe(s.history)
    ensures Settled(OnUpdate(s, gains, probed, arrives)) && AlwaysSafe(OnUpdate(s, gains, probed, arrives).history)
  {
    hide WithGains, AlwaysSafe, Clamped;
    var stored := s.(gains := Clamped(gains));
    if s.supervisor && probed.Some? {
      SendKeepsSafe(stored.(nodeId := probed), probed.value, arrives);
      DoKeepsSafe(Send(stored.(nodeId := probed), probed.value, arrives), Publish(true, WithGains(stored.gains)));
    } else {
      DoKeepsSafe(stored.(nodeId := if s.supervisor then None else s.nodeId),
                  Publish(s.supervisor, WithGains(stored.gains)));
    }
  }

  /** After every single action of every run, audio is routed to the EQ sink only while exactly one filter
      chain is supervised; between commands route, supervisor and published state agree, and the published
      bands are the default ones with the stored gains. */
  lemma {:induction false} RouteFollowsFilterChain(commands: seq<Command>)
    ensures AlwaysSafe(Run(commands).history) && Settled(Run(commands))
  {
    if commands != [] {
      hide AlwaysSafe, Settled, OnEnable, OnDisable, OnUpdate;
      var before := commands[..|commands| - 1];
      RouteFollowsFilterChain(before);
      match commands[|commands| - 1] {
        case Enable(found, arrives) => EnableKeeps(Run(before), found, arrives);
        case Disable => DisableKeeps(Run(before));
        case UpdateGains(gains, probed, arrives) => UpdateKeeps(Run(before), gains, probed, arrives);
      }
    }
  }

  /** The gains of the last update, or the default ones. */
  function LastGains(commands: seq<Command>): Gains {
    if commands == [] then seq(NUM_BANDS, _ => Db(0.0))
    else
      var last := commands[|commands| - 1];
      if last.UpdateGains? then last.gains else LastGains(commands[..|commands| - 1])
  }

  /** Enabling and disabling lose no gains: those stored are the last update's, clamped. So every stored and
      published gain is within 12 dB, unless that update had a NaN for it. */
  lemma {:induction false} GainsAreTheLastClamped(commands: seq<Command>)
    ensures var s := Run(commands);
      forall i | 0 <= i < NUM_BANDS ::
        && s.gains[i] == ClampEqGain(LastGains(commands)[i])
        && s.world.bands[i].gain == s.gains[i]
        && (InRange(s.gains[i]) <==> !LastGains(commands)[i].NaN?)
  {
    RouteFollowsFilterChain(commands);
    StoredGains(commands);
    hide AlwaysSafe;
  }

  lemma {:induction false} StoredGains(commands: seq<Command>)
    ensures Run(commands).gains == Clamped(LastGains(commands))
  {
    if commands != [] {
      hide WithGains;
      StoredGains(commands[..|commands| - 1]);
      hide Clamped;
    }
  }

  /** The ten bands, with the given gain each: from 60 Hz to 16 kHz, shelves at both ends. */
  lemma BandsAre(commands: seq<Command>, i: nat)
    requires i < 10
    ensures var s := Run(commands);
      && |s.world.bands| == 10
      && s.world.bands[i] == Band(
           [60, 120, 250, 500, 1000, 2000, 4000, 8000, 12000, 16000][i], s.gains[i],
           [707, 1414, 1414, 1414, 1414, 1414, 1414, 1820, 2870, 707][i],
           if i == 0 then LowShelf else if i == 9 then HighShelf else Peaking)
  {
    RouteFollowsFilterChain(commands);
    hide AlwaysSafe, Run;
  }

  /** The state after each action. */
  function Worlds(w: World, actions: seq<Action>): seq<World>
    decreases |actions|
  {
    if actions == [] then []
    else
      var first := Effect(w, actions[0]);
      [first] + Worlds(first, actions[1..])
  }

  /** What each command does, action by action, where the filter chain is supervised or not. */
  function Actions(s: State, command: Command, bands: Bands): seq<Action> {
    match command
    case Enable(found, arrives) =>
      if s.supervisor then []
      else if found == None then [Spawn, Abort, Route(NullSink), Publish(false, bands)]
      else if arrives then [Spawn, Route(EqSink), Apply(found.value, s.gains), Publish(true, bands)]
      else [Spawn, Route(EqSink), Publish(true, bands)]
    case Disable =>
      if s.supervisor then [Route(NullSink), Abort, Publish(false, bands)] else [Route(NullSink), Publish(false, bands)]
    case UpdateGains(gains, probed, arrives) =>
      if s.supervisor && probed.Some? && arrives then [Apply(probed.value, Clamped(gains)), Publish(true, bands)]
      else [Publish(s.supervisor, bands)]
  }

  /** In every run a command does exactly these actions, in this order, and the state after each is on record. */
  lemma CommandTaken(commands: seq<Command>, command: Command)
    ensures var s, s' := Run(commands), Run(commands + [command]);
      && s'.history == s.history + Worlds(s.world, Actions(s, command, WithGains(s'.gains)))
      && s'.gains == (if command.UpdateGains? then Clamped(command.gains) else s.gains)
      && s'.supervisor == (match command case Enable(found, _) => s.supervisor || found.Some? case Disable => false
                                         case _ => s.supervisor)
  {
    assert (commands + [command])[..|commands|] == commands;
    var s := Run(commands);
    assert Run(commands + [command]) == Handle(s, command);
    hide Run, Clamped, WithGains;
    CommandsActions(s, command);
  }

  lemma CommandsActions(s: State, command: Command)
    ensures var s' := Handle(s, command);
      && s'.history == s.history + Worlds(s.world, Actions(s, command, WithGains(s'.gains)))
  {
    hide Clamped, WithGains;
    var s' := Handle(s, command);
    var actions := Actions(s, command, WithGains(s'.gains));
    assert s.history + [] == s.history;
    hide Worlds;
    if |actions| > 0 {
      NoWorlds();
      WorldsOne(s.world, actions);
      var w1 := Effect(s.world, actions[0]);
      if |actions| > 1 {
        WorldsOne(w1, actions[1..]);
        var w2 := Effect(w1, actions[1]);
        if |actions| > 2 {
          WorldsOne(w2, actions[1..][1..]);
          var w3 := Effect(w2, actions[2]);
          if |actions| > 3 {
            WorldsOne(w3, actions[1..][1..][1..]);
          }
        }
      }
    }
  }

  lemma NoWorlds()
    ensures forall w :: Worlds(w, []) == []
  {
  }

  lemma WorldsOne(w: World, actions: seq<Action>)
    requires actions != []
    ensures Worlds(w, actions) == [Effect(w, actions[0])] + Worlds(Effect(w, actions[0]), actions[1..])
  {
  }

  /** Whether a filter chain is to be running after these commands: enabled with a node that showed up, and not
      disabled since. */
  predicate Supervised(commands: seq<Command>) {
    commands != [] &&
    var before := Supervised(commands[..|commands| - 1]);
    match commands[|commands| - 1]
    case Enable(found, _) => before || found.Some?
    case Disable => false
    case UpdateGains(_, _, _) => before
  }

  /** The node to which this command sends gains that arrive. */
  function SendsTo(before: seq<Command>, command: Command): Option<u32> {
    match command
    case Enable(found, arrives) => if !Supervised(before) && arrives then found else None
    case Disable => None
    case UpdateGains(_, probed, arrives) => if Supervised(before) && arrives then probed else None
  }

  /** The last gains that arrived at a node: those of the last update up to then. */
  function LastSent(commands: seq<Command>): Option<(u32, Gains)> {
    if commands == [] then None
    else
      var before := commands[..|commands| - 1];
      match SendsTo(before, commands[|commands| - 1])
      case None => LastSent(before)
      case Some(id) => Some((id, Clamped(LastGains(commands))))
  }

  /** No update has been missed by the node: since the last gains arrived there was only enabling while enabled
      already. */
  predicate UpToDate(commands: seq<Command>) {
    commands != [] &&
    var before, last := commands[..|commands| - 1], commands[|commands| - 1];
    SendsTo(before, last).Some? || (last.Enable? && Supervised(before) && UpToDate(before))
  }

  /** In every run: a filter chain is supervised exactly if the commands say so; what arrived
      at a node last are the clamped gains of the last update up to that send; and while no update was missed,
      the node in use has been given the stored gains. */
  lemma {:induction false} AppliedGainsAreTheLastSent(commands: seq<Command>)
    ensures var s := Run(commands);
      && s.supervisor == Supervised(commands)
      && s.world.applied == LastSent(commands)
      && (UpToDate(commands) ==>
            s.supervisor && s.nodeId.Some? && s.world.applied == Some((s.nodeId.value, s.gains)))
  {
    StoredGains(commands);
    if commands != [] {
      hide WithGains, Clamped;
      AppliedGainsAreTheLastSent(commands[..|commands| - 1]);
    }
  }

  /** A node that does not show up leaves things as they were: no filter chain, the null sink, disabled. */
  lemma FailedEnableRollsBack(commands: seq<Command>, arrives: bool)
    requires !Run(commands).supervisor
    ensures var s, s' := Run(commands), Handle(Run(commands), Enable(None, arrives));
      s'.world == s.world && s'.gains == s.gains && !s'.supervisor && s'.nodeId == s.nodeId
  {
    RouteFollowsFilterChain(commands);
    hide AlwaysSafe, Run;
  }
}
