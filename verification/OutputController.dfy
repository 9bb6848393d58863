/** The output controller against a PulseAudio module server: every load and unload may fail, with or
    without having taken effect, and a successful load may answer with an unreadable id. */
module OutputController {
  import opened Wrappers
  import opened Outputs
  import Discovery
  import ModuleTables
  import Text

  const CAPTURE_MONITOR := "soundsync-capture.monitor"
  const DEFAULT_CAST_PORT: u16 := 8009
  const RAOP_DISCOVER := "module-raop-discover"

  // ---- The module server ------------------------------------------------------------------------

  datatype Module = Loopback(source: string, sink: string) | RaopDiscover | Other(name: string)

  /** How the server treats a load: the id it gives the module, when it loads it, and what it answers.
      A failure with `spawned` is a non-zero exit; without, the command could not be run or timed out. */
  datatype LoadReply =
    | Answered(id: u32)
    | Garbled(id: u32)
    | FailedAfterLoading(id: u32, spawned: bool)
    | Failed(spawned: bool)

  datatype UnloadReply = Unloaded | FailedAfterUnloading | Kept

  /** What the caller of a load gets to see. */
  datatype LoadOutcome = ModuleId(id: u32) | NoId | Refused(spawned: bool)

  /** Live modules, with what went wrong so far: unloads that left the module live, loads that took effect
      without the caller learning the id; and the most loopbacks ever live at once. */
  datatype Server = Server(modules: map<u32, Module>, stranded: nat, untracked: nat, peak: nat)

  function LiveLoopbacks(modules: map<u32, Module>): set<u32> {
    set id | id in modules && modules[id].Loopback?
  }

  function Now(v: Server, modules: map<u32, Module>): Server {
    var live := |LiveLoopbacks(modules)|;
    v.(modules := modules, peak := if live > v.peak then live else v.peak)
  }

  /** A server never gives out the id of a live module. */
  function Load(v: Server, m: Module, reply: LoadReply): (Server, LoadOutcome) {
    if !reply.Failed? && reply.id in v.modules then (v, Refused(true))
    else
      match reply
      case Answered(id) => (Now(v, v.modules[id := m]), ModuleId(id))
      case Garbled(id) => (Stray(v, m, id), NoId)
      case FailedAfterLoading(id, spawned) => (Stray(v, m, id), Refused(spawned))
      case Failed(spawned) => (v, Refused(spawned))
  }

  /** A load that took effect, but whose caller does not learn the id. */
  function Stray(v: Server, m: Module, id: u32): Server {
    Now(v, v.modules[id := m]).(untracked := v.untracked + if m.Loopback? then 1 else 0)
  }

  function Unload(v: Server, id: u32, reply: UnloadReply): Server {
    if id !in v.modules then v
    else if reply == Kept then v.(stranded := v.stranded + if v.modules[id].Loopback? then 1 else 0)
    else Now(v, v.modules - {id})
  }

  /** The peak is never less than what is live, and no more than it has to be. */
  lemma PeakIsMaximum(v: Server, m: Module, load: LoadReply, id: u32, unload: UnloadReply)
    requires |LiveLoopbacks(v.modules)| <= v.peak
    ensures forall v' | v' == Load(v, m, load).0 || v' == Unload(v, id, unload) ::
      && |LiveLoopbacks(v'.modules)| <= v'.peak
      && (v'.peak == v.peak || v'.peak == |LiveLoopbacks(v'.modules)| > v.peak)
  {
    hide LiveLoopbacks;
  }

  class Pactl {
    var modules: map<u32, Module>
    ghost var stranded: nat
    ghost var untracked: nat
    ghost var peak: nat

    ghost function View(): Server
      reads this
    {
      Server(modules, stranded, untracked, peak)
    }

    method LoadModule(m: Module, reply: LoadReply) returns (outcome: LoadOutcome)
      modifies this
      ensures (View(), outcome) == Load(old(View()), m, reply)
    {
      if !reply.Failed? && reply.id in modules {
        return Refused(true);
      }
      match reply {
        case Answered(id) =>
          modules := modules[id := m];
          outcome := ModuleId(id);
        case Garbled(id) =>
          modules := modules[id := m];
          untracked := untracked + if m.Loopback? then 1 else 0;
          outcome := NoId;
        case FailedAfterLoading(id, spawned) =>
          modules := modules[id := m];
          untracked := untracked + if m.Loopback? then 1 else 0;
          outcome := Refused(spawned);
        case Failed(spawned) =>
          return Refused(spawned);
      }
      ghost var live := |LiveLoopbacks(modules)|;
      peak := if live > peak then live else peak;
    }

    method UnloadModule(id: u32, reply: UnloadReply)
      modifies this
      ensures View() == Unload(old(View()), id, reply)
    {
      if id in modules {
        if reply == Kept {
          stranded := stranded + if modules[id].Loopback? then 1 else 0;
        } else {
          modules := modules - {id};
          ghost var live := |LiveLoopbacks(modules)|;
          peak := if live > peak then live else peak;
        }
      }
    }
  }

  // ---- Specification of a run -------------------------------------------------------------------

  datatype Health = Connecting | Lost

  /** Where a cast session was told to connect, and what to play. */
  datatype Cast = Cast(addr: string, port: u16, url: string)

  datatype OutputState = OutputState(active: Option<Device>, available: Available, health: Option<Health>)

  datatype Config = Config(lanIp: string, bindPort: u16)

  datatype State = State(
    server: Server,
    active: Option<Device>,
    loopback: Option<u32>,
    cast: Option<Cast>,
    health: Option<Health>,
    available: Available,
    raop: Option<u32>,
    shown: OutputState,
    running: bool)

  datatype Command = Select(kind: Kind, id: string) | ClearOutput

  /** A completed select branch, with the server's answers to the commands it runs. A refresh carries the
      probe result, unless probing failed, and whether the cast session's task has finished. */
  datatype Event =
    | Do(command: Command, unload: UnloadReply, load: LoadReply)
    | Refresh(probed: Option<Available>, finished: bool)
    | Nudge
    | Exit(unload: UnloadReply, unloadRaop: UnloadReply)

  /** Answers during startup: to loading raop-discover and, if that is refused, the short listing of the
      modules, unless that fails. */
  datatype Startup = Startup(load: LoadReply, listed: Option<string>, available: Available)

  /** The raop-discover module that is there already, if the listing shows one. */
  function Adopted(listed: Option<string>): Option<u32> {
    match listed case None => None case Some(text) => Discovery.FirstNamedId(Text.Lines(text), RAOP_DISCOVER)
  }

  function StreamUrl(lanIp: string, port: u16): string {
    "http://" + lanIp + ":" + Text.Decimal(port) + "/api/stream/audio.aac"
  }

  function Shown(s: State): State {
    s.(shown := OutputState(s.active, s.available, s.health))
  }

  function Started(v: Server, up: Startup): State {
    var (v', outcome) := Load(v, RaopDiscover, up.load);
    var raop := match outcome
      case ModuleId(id) => Some(id)
      case NoId => None
      case Refused(spawned) => if spawned then Adopted(up.listed) else None;
    Shown(State(v', None, None, None, None, up.available, raop, OutputState(None, up.available, None), true))
  }

  function AfterTeardownLoopback(s: State, reply: UnloadReply): State {
    match s.loopback
    case None => s
    case Some(id) => s.(loopback := None, server := Unload(s.server, id, reply))
  }

  /** Stops the cast session and unloads the loopback: whatever is routed next is alone. */
  function AfterTeardown(s: State, reply: UnloadReply): State {
    AfterTeardownLoopback(s.(cast := None), reply)
  }

  function AfterRoute(s: State, kind: Kind, sink: string, reply: LoadReply): State {
    var (server, outcome) := Load(s.server, Loopback(CAPTURE_MONITOR, sink), reply);
    var s := s.(server := server);
    match outcome
    case ModuleId(id) =>
      var device := match FindDevice(s.available, kind, sink)
        case Some(d) => d
        case None => Device(kind, sink, sink, None, None);
      s.(loopback := Some(id), active := Some(device))
    case NoId => s.(loopback := None, active := None)
    case Refused(_) => s.(active := None)
  }

  function AfterStartCast(s: State, id: string, cfg: Config): State {
    match FindDevice(s.available, Chromecast, id)
    case None => s.(active := None)
    case Some(d) =>
      if d.addr.None? || cfg.lanIp == "" then s.(active := None)
      else
        var port := if d.port.Some? then d.port.value else DEFAULT_CAST_PORT;
        s.(cast := Some(Cast(d.addr.value, port, StreamUrl(cfg.lanIp, cfg.bindPort))),
           health := Some(Connecting), active := Some(d))
  }

  function Handle(s: State, command: Command, unload: UnloadReply, load: LoadReply, cfg: Config): State {
    var s := AfterTeardown(s, unload).(health := None);
    Shown(match command
          case ClearOutput => s.(active := None)
          case Select(Chromecast, id) => AfterStartCast(s, id, cfg)
          case Select(kind, id) => AfterRoute(s, kind, id, load))
  }

  function Refreshed(s: State, probed: Option<Available>, finished: bool): State {
    var s := if probed.Some? then s.(available := probed.value) else s;
    Shown(if s.cast.Some? && finished then s.(cast := None, active := None, health := Some(Lost)) else s)
  }

  function Exited(s: State, unload: UnloadReply, unloadRaop: UnloadReply): State {
    var s := AfterTeardown(s, unload).(running := false);
    match s.raop
    case None => s
    case Some(id) => s.(raop := None, server := Unload(s.server, id, unloadRaop))
  }

  function Step(s: State, e: Event, cfg: Config): State {
    if !s.running then s
    else
      match e
      case Do(command, unload, load) => Handle(s, command, unload, load, cfg)
      case Refresh(probed, finished) => Refreshed(s, probed, finished)
      case Nudge => s
      case Exit(unload, unloadRaop) => Exited(s, unload, unloadRaop)
  }

  function Run(v: Server, up: Startup, script: seq<Event>, cfg: Config): State {
    if script == [] then Started(v, up)
    else Step(Run(v, up, script[..|script| - 1], cfg), script[|script| - 1], cfg)
  }

  // ---- The task ---------------------------------------------------------------------------------

  class OutputTask {
    const server: Pactl
    const cfg: Config
    var active: Option<Device>
    var loopback: Option<u32>
    var cast: Option<Cast>
    var health: Option<Health>
    var available: Available
    var raop: Option<u32>
    var shown: OutputState
    var running: bool

    constructor (server: Pactl, cfg: Config)
      ensures this.server == server && this.cfg == cfg
    {
      this.server, this.cfg := server, cfg;
      available := Available([], [], []);
      shown := OutputState(None, Available([], [], []), None);
    }

    ghost function View(): State
      reads this, server
    {
      State(server.View(), active, loopback, cast, health, available, raop, shown, running)
    }

    method Publish()
      modifies this`shown
      ensures View() == Shown(old(View()))
    {
      shown := OutputState(active, available, health);
    }

    method Start(up: Startup)
      modifies this, server
      ensures View() == Started(old(server.View()), up)
    {
      var outcome := server.LoadModule(RaopDiscover, up.load);
      match outcome {
        case ModuleId(id) => raop := Some(id);
        case NoId => raop := None;
        case Refused(spawned) =>
          raop := None;
          if spawned && up.listed.Some? {
            raop := Discovery.ParseModuleIdByName(up.listed.value, RAOP_DISCOVER);
          }
      }
      available := up.available;
      active, loopback, cast, health, running := None, None, None, None, true;
      Publish();
    }

    method TeardownLoopback(reply: UnloadReply)
      modifies this`loopback, server
      ensures View() == AfterTeardownLoopback(old(View()), reply)
    {
      match loopback {
        case None =>
        case Some(id) =>
          loopback := None;
          server.UnloadModule(id, reply);
      }
    }

    method Teardown(reply: UnloadReply)
      modifies this`loopback, this`cast, server
      ensures View() == AfterTeardown(old(View()), reply)
    {
      cast := None;
      TeardownLoopback(reply);
    }

    /** Tears down whatever loopback is still tracked, then loads the new one. */
    method RouteToSink(kind: Kind, sink: string, unload: UnloadReply, reply: LoadReply)
      modifies this, server
      ensures View() == AfterRoute(AfterTeardownLoopback(old(View()), unload), kind, sink, reply)
    {
      TeardownLoopback(unload);
      var outcome := server.LoadModule(Loopback(CAPTURE_MONITOR, sink), reply);
      match outcome {
        case ModuleId(id) =>
          loopback := Some(id);
          match FindDevice(available, kind, sink) {
            case Some(d) => active := Some(d);
            case None => active := Some(Device(kind, sink, sink, None, None));
          }
        case NoId =>
          loopback, active := None, None;
        case Refused(_) =>
          active := None;
      }
    }

    method StartCast(id: string)
      modifies this
      ensures View() == AfterStartCast(old(View()), id, cfg)
    {
      match FindDevice(available, Chromecast, id) {
        case None => active := None;
        case Some(d) =>
          if d.addr.None? || cfg.lanIp == "" {
            active := None;
          } else {
            var port := if d.port.Some? then d.port.value else DEFAULT_CAST_PORT;
            cast := Some(Cast(d.addr.value, port, StreamUrl(cfg.lanIp, cfg.bindPort)));
            health := Some(Connecting);
            active := Some(d);
          }
      }
    }

    method HandleCommand(command: Command, unload: UnloadReply, load: LoadReply)
      modifies this, server
      ensures View() == Handle(old(View()), command, unload, load, cfg)
    {
      Teardown(unload);
      health := None;
      match command {
        case ClearOutput => active := None;
        case Select(Chromecast, id) => StartCast(id);
        case Select(kind, id) => RouteToSink(kind, id, unload, load);
      }
      Publish();
    }

    method HandleRefresh(probed: Option<Available>, finished: bool)
      modifies this
      ensures View() == Refreshed(old(View()), probed, finished)
    {
      if probed.Some? {
        available := probed.value;
      }
      if cast.Some? && finished {
        cast, active, health := None, None, Some(Lost);
      }
      Publish();
    }

    method ShutDown(unload: UnloadReply, unloadRaop: UnloadReply)
      modifies this, server
      ensures View() == Exited(old(View()), unload, unloadRaop)
    {
      running := false;
      Teardown(unload);
      match raop {
        case None =>
        case Some(id) =>
          raop := None;
          server.UnloadModule(id, unloadRaop);
      }
    }

    method RunController(up: Startup, script: seq<Event>)
      modifies this, server
      ensures View() == Run(old(server.View()), up, script, cfg)
    {
      Start(up);
      for i := 0 to |script|
        invariant View() == Run(old(server.View()), up, script[..i], cfg)
      {
        hide Handle, Refreshed, Exited, Started;
        assert script[..i + 1][..i] == script[..i];
        if running {
          match script[i] {
            case Do(command, unload, load) => HandleCommand(command, unload, load);
            case Refresh(probed, finished) => HandleRefresh(probed, finished);
            case Nudge =>
            case Exit(unload, unloadRaop) => ShutDown(unload, unloadRaop);
          }
        }
      }
      assert script[..|script|] == script;
    }
  }

  // ---- Single-active routing --------------------------------------------------------------------

  /** What is shown as active is what is held: nothing, one loopback that copies the capture to the active
      device's sink, or one cast session on the active device. Health is Connecting exactly while a session
      is held, and Lost only when nothing is. */
  ghost predicate SingleActive(s: State, cfg: Config) {
    && s.shown == OutputState(s.active, s.available, s.health)
    && (s.active.Some? <==> s.loopback.Some? != s.cast.Some?)
    && !(s.loopback.Some? && s.cast.Some?)
    && (s.loopback.Some? ==>
          && s.active.value.kind != Chromecast
          && s.loopback.value in s.server.modules
          && s.server.modules[s.loopback.value] == Loopback(CAPTURE_MONITOR, s.active.value.id))
    && (s.cast.Some? ==>
          && s.active.value.kind == Chromecast
          && s.active.value.addr == Some(s.cast.value.addr)
          && s.cast.value.url == StreamUrl(cfg.lanIp, cfg.bindPort) && cfg.lanIp != "")
    && (s.health == Some(Connecting) <==> s.cast.Some?)
    && (s.health == Some(Lost) ==> s.active.None?)
  }

  ghost predicate WellKindedScript(up: Startup, script: seq<Event>) {
    && WellKinded(up.available)
    && forall i | 0 <= i < |script| && script[i].Refresh? && script[i].probed.Some? ::
         WellKinded(script[i].probed.value)
  }

  /** Torn down, with nothing held and no health to report. */
  predicate Idle(s: State) {
    s.loopback == None && s.cast == None && s.health == None
  }

  lemma RouteRoutesOne(s: State, kind: Kind, sink: string, load: LoadReply, cfg: Config)
    requires Idle(s) && WellKinded(s.available) && kind != Chromecast
    ensures SingleActive(Shown(AfterRoute(s, kind, sink, load)), cfg)
  {
    FoundDevice(s.available, kind, sink);
    hide FindDevice, WellKinded;
  }

  lemma CastRoutesOne(s: State, id: string, cfg: Config)
    requires Idle(s) && WellKinded(s.available)
    ensures SingleActive(Shown(AfterStartCast(s, id, cfg)), cfg)
  {
    FoundDevice(s.available, Chromecast, id);
    hide FindDevice, WellKinded, StreamUrl;
  }

  lemma HandleRoutesOne(s: State, command: Command, unload: UnloadReply, load: LoadReply, cfg: Config)
    requires WellKinded(s.available)
    ensures SingleActive(Handle(s, command, unload, load, cfg), cfg)
  {
    hide AfterRoute, AfterStartCast, WellKinded, Unload;
    var s' := AfterTeardown(s, unload).(health := None);
    match command {
      case ClearOutput =>
      case Select(Chromecast, id) => CastRoutesOne(s', id, cfg);
      case Select(kind, id) => RouteRoutesOne(s', kind, id, load, cfg);
    }
  }

  /** At every published state of every run, whatever the server answers. */
  lemma {:induction false} SingleActiveAlways(v: Server, up: Startup, script: seq<Event>, cfg: Config)
    requires WellKindedScript(up, script)
    requires Run(v, up, script, cfg).running
    ensures SingleActive(Run(v, up, script, cfg), cfg) && WellKinded(Run(v, up, script, cfg).available)
  {
    if script != [] {
      var init, e := script[..|script| - 1], script[|script| - 1];
      assert forall i | 0 <= i < |init| :: init[i] == script[i];
      SingleActiveAlways(v, up, init, cfg);
      var s := Run(v, up, init, cfg);
      if e.Do? {
        HandleRoutesOne(s, e.command, e.unload, e.load, cfg);
      }
    }
  }

  /** What a command leads to: nothing when it clears the output; a cast session on the first Chromecast listed
      with that id, at its address and port, or 8009, with this machine's stream, if both addresses are known; a
      loopback from the capture to the sink selected, shown as the device listed or else under its id, when that
      is loaded and answered with an id; and otherwise nothing, never the previous output. */
  lemma CommandTakesEffect(s: State, command: Command, unload: UnloadReply, load: LoadReply, cfg: Config)
    requires s.running
    ensures var s' := Step(s, Do(command, unload, load), cfg);
      var free := !load.Failed? && load.id !in AfterTeardown(s, unload).server.modules;
      && s'.shown == OutputState(s'.active, s.available, s'.health)
      && s'.running && s'.available == s.available && s'.raop == s.raop
      && match command
         case ClearOutput => s'.active == None && s'.cast == None && s'.loopback == None && s'.health == None
         case Select(Chromecast, id) =>
           && s'.loopback == None
           && (NotListed(s.available.chromecast, id) ==> s'.active == None && s'.cast == None && s'.health == None)
           && (forall k: nat | FirstListed(s.available.chromecast, id, k) ::
                 var d := s.available.chromecast[k];
                 if d.addr == None || cfg.lanIp == "" then s'.active == None && s'.cast == None && s'.health == None
                 else
                   && s'.active == Some(d) && s'.health == Some(Connecting)
                   && s'.cast == Some(Cast(d.addr.value, if d.port.Some? then d.port.value else 8009,
                        "http://" + cfg.lanIp + ":" + Text.Decimal(cfg.bindPort) + "/api/stream/audio.aac")))
         case Select(kind, id) =>
           var devices := if kind == Soundcard then s.available.soundcard else s.available.airplay;
           && s'.cast == None && s'.health == None
           && if load.Answered? && free then
                && s'.loopback == Some(load.id)
                && s'.server.modules
                   == AfterTeardown(s, unload).server.modules[load.id := Loopback("soundsync-capture.monitor", id)]
                && (NotListed(devices, id) ==> s'.active == Some(Device(kind, id, id, None, None)))
                && (forall k: nat | FirstListed(devices, id, k) :: s'.active == Some(devices[k]))
              else s'.loopback == None && s'.active == None
  {
    hide FindDevice, Unload, NotListed, FirstListed;
    if command.Select? {
      FindDeviceIsFirst(s.available, command.kind, command.id);
    }
  }

  /** What startup shows: the devices found, and no output. */
  lemma FirstPublication(v: Server, up: Startup, cfg: Config)
    ensures var s := Run(v, up, [], cfg);
      && s.running && s.shown == OutputState(None, up.available, None) && s.available == up.available
      && s.active == None && s.loopback == None && s.cast == None && s.health == None
  {
    hide Load, Adopted;
  }

  /** A refresh ends an output only if that is a session that has finished, and then reports it lost; a
      device that is no longer listed stays active. */
  lemma RefreshReapsOnlyDeadSessions(s: State, probed: Option<Available>, finished: bool, cfg: Config)
    requires s.running && SingleActive(s, cfg)
    ensures var s' := Step(s, Refresh(probed, finished), cfg);
      && (s'.active == s.active <==> !(s.cast.Some? && finished))
      && (s'.active != s.active ==> s'.active == None && s'.shown.health == Some(Lost))
      && s'.loopback == s.loopback && s'.server == s.server
      && s'.shown.available == (if probed.Some? then probed.value else s.available)
  {
  }

  /** The lists of devices come from probes. */
  ghost predicate ProbedScript(up: Startup, script: seq<Event>) {
    && IsProbe(up.available)
    && forall i | 0 <= i < |script| && script[i].Refresh? && script[i].probed.Some? :: IsProbe(script[i].probed.value)
  }

  ghost predicate IsProbe(available: Available) {
    exists avahi, sinks :: available == Discovery.Probed(avahi, sinks)
  }

  lemma ProbeIsWellKinded(available: Available)
    requires IsProbe(available)
    ensures WellKinded(available)
  {
    hide Discovery.Probed, WellKinded;
    var avahi, sinks :| available == Discovery.Probed(avahi, sinks);
    Discovery.ProbedIsWellKinded(avahi, sinks);
  }

  /** Single-active routing with real probes: whatever avahi and pactl print, at every published state. */
  lemma SingleActiveOnProbes(v: Server, up: Startup, script: seq<Event>, cfg: Config)
    requires ProbedScript(up, script)
    requires Run(v, up, script, cfg).running
    ensures SingleActive(Run(v, up, script, cfg), cfg)
  {
    hide Run, SingleActive, WellKinded, IsProbe;
    ProbeIsWellKinded(up.available);
    forall i | 0 <= i < |script| && script[i].Refresh? && script[i].probed.Some?
      ensures WellKinded(script[i].probed.value)
    {
      ProbeIsWellKinded(script[i].probed.value);
    }
    SingleActiveAlways(v, up, script, cfg);
  }

  // ---- Conservation of modules ------------------------------------------------------------------

  function Tracked(id: Option<u32>): set<u32> {
    match id case None => {} case Some(i) => {i}
  }

  /** Live loopbacks the controller does not know of. */
  function Orphans(modules: map<u32, Module>, loopback: Option<u32>): set<u32> {
    LiveLoopbacks(modules) - Tracked(loopback)
  }

  /** Loopbacks live before the controller, plus one per unload that left its module live and per load that
      took effect unknown to it. */
  function Accounted(v: Server, now: Server): int {
    |LiveLoopbacks(v.modules)| + (now.stranded - v.stranded) + (now.untracked - v.untracked)
  }

  ghost predicate OthersKept(before: map<u32, Module>, now: map<u32, Module>) {
    forall id | id in before && before[id].Other? :: id in now && now[id] == before[id]
  }

  /** The books on the server balance with what the controller tracks. */
  ghost predicate Balanced(v: Server, now: Server, loopback: Option<u32>, raop: Option<u32>) {
    && Tracked(loopback) <= LiveLoopbacks(now.modules)
    && |Orphans(now.modules, loopback)| == Accounted(v, now)
    && now.stranded >= v.stranded && now.untracked >= v.untracked
    && (now.peak <= v.peak || now.peak <= Accounted(v, now) + 1)
    && (raop.Some? ==> raop.value in now.modules && now.modules[raop.value] == RaopDiscover)
    && OthersKept(v.modules, now.modules)
  }

  ghost predicate Conserved(v: Server, s: State) {
    Balanced(v, s.server, s.loopback, s.raop)
  }

  lemma LoadedModules(modules: map<u32, Module>, id: u32, m: Module)
    requires id !in modules
    ensures LiveLoopbacks(modules[id := m]) == LiveLoopbacks(modules) + if m.Loopback? then {id} else {}
    ensures id !in LiveLoopbacks(modules)
  {
  }

  lemma UnloadedModules(modules: map<u32, Module>, id: u32)
    ensures LiveLoopbacks(modules - {id}) == LiveLoopbacks(modules) - {id}
  {
  }

  lemma LoadKeepsOthers(before: map<u32, Module>, modules: map<u32, Module>, id: u32, m: Module)
    requires OthersKept(before, modules) && id !in modules
    ensures OthersKept(before, modules[id := m])
  {
  }

  lemma UnloadKeepsOthers(before: map<u32, Module>, modules: map<u32, Module>, id: u32)
    requires OthersKept(before, modules) && id in modules && !modules[id].Other?
    ensures OthersKept(before, modules - {id})
  {
  }

  lemma GoneBalances(v: Server, now: Server, id: u32, raop: Option<u32>)
    requires Balanced(v, now, Some(id), raop)
    ensures Balanced(v, Now(now, now.modules - {id}), None, raop)
  {
    var live := LiveLoopbacks(now.modules);
    assert id in live;
    UnloadedModules(now.modules, id);
    UnloadKeepsOthers(v.modules, now.modules, id);
    hide LiveLoopbacks, OthersKept;
    var left := LiveLoopbacks(now.modules - {id});
    assert left == live - Tracked(Some(id)) && left - Tracked(None) == left;
  }

  lemma KeptBalances(v: Server, now: Server, id: u32, raop: Option<u32>)
    requires Balanced(v, now, Some(id), raop)
    ensures Balanced(v, now.(stranded := now.stranded + 1), None, raop)
  {
    hide LiveLoopbacks, OthersKept;
    var live := LiveLoopbacks(now.modules);
    assert live - Tracked(None) == (live - Tracked(Some(id))) + {id};
  }

  lemma UnloadBalances(v: Server, now: Server, id: u32, raop: Option<u32>, reply: UnloadReply)
    requires Balanced(v, now, Some(id), raop)
    ensures Balanced(v, Unload(now, id, reply), None, raop)
  {
    assert id in LiveLoopbacks(now.modules);
    GoneBalances(v, now, id, raop);
    KeptBalances(v, now, id, raop);
    hide Balanced;
  }

  lemma UnloadRaopBalances(v: Server, now: Server, id: u32, reply: UnloadReply)
    requires Balanced(v, now, None, Some(id))
    ensures Balanced(v, Unload(now, id, reply), None, None)
  {
    var live := LiveLoopbacks(now.modules);
    if reply != Kept {
      UnloadedModules(now.modules, id);
      UnloadKeepsOthers(v.modules, now.modules, id);
      assert live - {id} == live;
    }
    hide LiveLoopbacks, OthersKept;
    assert live - Tracked(None) == live;
  }

  lemma AnsweredLoadBalances(v: Server, now: Server, raop: Option<u32>, m: Module, id: u32)
    requires Balanced(v, now, None, raop) && m.Loopback? && id !in now.modules
    ensures Balanced(v, Load(now, m, Answered(id)).0, Some(id), raop)
  {
    LoadedModules(now.modules, id, m);
    LoadKeepsOthers(v.modules, now.modules, id, m);
    hide LiveLoopbacks, OthersKept;
    var live := LiveLoopbacks(now.modules);
    assert live - Tracked(None) == live;
    assert live + {id} - Tracked(Some(id)) == live;
  }

  lemma StrayLoadBalances(v: Server, now: Server, raop: Option<u32>, m: Module, id: u32)
    requires Balanced(v, now, None, raop) && m.Loopback? && id !in now.modules
    ensures Balanced(v, Stray(now, m, id), None, raop)
  {
    LoadedModules(now.modules, id, m);
    LoadKeepsOthers(v.modules, now.modules, id, m);
    hide LiveLoopbacks, OthersKept;
    var live := LiveLoopbacks(now.modules);
    assert live - Tracked(None) == live;
    assert live + {id} - Tracked(None) == live + {id};
  }

  lemma LoadBalances(v: Server, now: Server, raop: Option<u32>, m: Module, reply: LoadReply)
    requires Balanced(v, now, None, raop) && m.Loopback?
    ensures var (now', outcome) := Load(now, m, reply);
      Balanced(v, now', match outcome case ModuleId(id) => Some(id) case _ => None, raop)
  {
    if !reply.Failed? && reply.id !in now.modules {
      if reply.Answered? {
        AnsweredLoadBalances(v, now, raop, m, reply.id);
      } else {
        StrayLoadBalances(v, now, raop, m, reply.id);
      }
    }
    hide Balanced;
  }

  lemma TeardownConserves(v: Server, s: State, unload: UnloadReply)
    requires Conserved(v, s)
    ensures Conserved(v, AfterTeardown(s, unload)) && AfterTeardown(s, unload).loopback == None
  {
    hide Balanced, Unload;
    if s.loopback.Some? {
      UnloadBalances(v, s.server, s.loopback.value, s.raop, unload);
    }
  }

  lemma StepConserves(v: Server, s: State, e: Event, cfg: Config)
    requires Conserved(v, s)
    ensures Conserved(v, Step(s, e, cfg))
  {
    hide Balanced, Load, Unload;
    match e {
      case Do(command, unload, load) =>
        TeardownConserves(v, s, unload);
        if command.Select? && command.kind != Chromecast {
          var s' := AfterTeardown(s, unload);
          LoadBalances(v, s'.server, s'.raop, Loopback(CAPTURE_MONITOR, command.id), load);
        }
      case Exit(unload, unloadRaop) =>
        TeardownConserves(v, s, unload);
        if s.raop.Some? {
          UnloadRaopBalances(v, AfterTeardown(s, unload).server, s.raop.value, unloadRaop);
        }
      case _ =>
    }
  }

  /** A table of the modules on the server. Names have no blanks around them, and that of raop-discover is
      its own. */
  ghost predicate TruthfulTable(rows: seq<ModuleTables.Row>, modules: map<u32, Module>) {
    && ModuleTables.Renderable(rows)
    && (forall i | 0 <= i < |rows| ::
          && Text.Tight(rows[i].name) && rows[i].id in modules
          && (rows[i].name == "module-raop-discover" <==> modules[rows[i].id] == RaopDiscover))
    && (forall id | id in modules && modules[id] == RaopDiscover :: exists i :: 0 <= i < |rows| && rows[i].id == id)
  }

  /** What is listed, if anything, is the short form of such a table. */
  ghost predicate HonestListing(v: Server, up: Startup) {
    var modules := Load(v, RaopDiscover, up.load).0.modules;
    up.listed.Some? ==>
      exists rows :: TruthfulTable(rows, modules) && up.listed.value == ModuleTables.RenderShort(rows)
  }

  lemma {:induction false} FirstNamedIsNamed(rows: seq<ModuleTables.Row>, name: string)
    ensures match Discovery.FirstNamed(rows, name)
      case Some(id) => exists i :: 0 <= i < |rows| && rows[i].id == id && rows[i].name == name
      case None => forall i | 0 <= i < |rows| :: rows[i].name != name
  {
    if rows != [] && rows[0].name != name {
      FirstNamedIsNamed(rows[1..], name);
      match Discovery.FirstNamed(rows[1..], name) {
        case Some(id) =>
          var i :| 0 <= i < |rows[1..]| && rows[1..][i].id == id && rows[1..][i].name == name;
          assert rows[i + 1] == rows[1..][i];
        case None =>
          forall i | 0 <= i < |rows| ensures rows[i].name != name {
            assert i > 0 ==> rows[i] == rows[1..][i - 1];
          }
      }
    }
  }

  /** The module adopted is raop-discover, and it is found if it is there. */
  lemma AdoptsRaopDiscover(v: Server, up: Startup)
    requires HonestListing(v, up)
    ensures var modules, adopted := Load(v, RaopDiscover, up.load).0.modules, Adopted(up.listed);
      && (adopted.Some? ==> adopted.value in modules && modules[adopted.value] == RaopDiscover)
      && (up.listed.Some? && adopted.None? ==> forall id | id in modules :: modules[id] != RaopDiscover)
  {
    if up.listed.Some? {
      hide Load, Discovery.FirstNamedId, Text.Lines, ModuleTables.RenderShort, Text.Tight, ModuleTables.Renderable;
      var modules := Load(v, RaopDiscover, up.load).0.modules;
      var rows :| TruthfulTable(rows, modules) && up.listed.value == ModuleTables.RenderShort(rows);
      Discovery.ModuleIdIsFound(rows, RAOP_DISCOVER);
      FirstNamedIsNamed(rows, RAOP_DISCOVER);
    }
  }

  /** Loading raop-discover changes no loopbacks. */
  lemma RaopLoadBalances(v: Server, reply: LoadReply)
    ensures Balanced(v, Load(v, RaopDiscover, reply).0, None, None)
  {
    var live := LiveLoopbacks(v.modules);
    assert live - Tracked(None) == live;
    if !reply.Failed? && reply.id !in v.modules {
      LoadedModules(v.modules, reply.id, RaopDiscover);
      hide LiveLoopbacks;
      assert live + {} == live;
    }
  }

  lemma StartConserves(v: Server, up: Startup)
    requires HonestListing(v, up)
    ensures Conserved(v, Started(v, up))
  {
    hide Adopted, HonestListing, LiveLoopbacks, OthersKept;
    AdoptsRaopDiscover(v, up);
    RaopLoadBalances(v, up.load);
  }

  /** In every run and whatever the server does: the loopbacks live on it are the tracked one and orphans,
      exactly as many as were there before, unloads that failed and loads whose id never arrived; at no
      moment were there more live than those and one; and modules of other kinds than the two were left alone. */
  lemma {:induction false} ModuleConservation(v: Server, up: Startup, script: seq<Event>, cfg: Config)
    requires HonestListing(v, up)
    ensures Conserved(v, Run(v, up, script, cfg))
  {
    if script == [] {
      StartConserves(v, up);
    } else {
      hide Conserved, Step;
      ModuleConservation(v, up, script[..|script| - 1], cfg);
      StepConserves(v, Run(v, up, script[..|script| - 1], cfg), script[|script| - 1], cfg);
    }
  }

  // ---- An honest server -------------------------------------------------------------------------

  /** The server says what it did: a load is refused or answered with its id, an unload takes effect. */
  predicate HonestEvent(e: Event) {
    match e
    case Do(_, unload, load) => unload == Unloaded && (load.Answered? || load.Failed?)
    case Exit(unload, unloadRaop) => unload == Unloaded && unloadRaop == Unloaded
    case _ => true
  }

  ghost predicate HonestScript(script: seq<Event>) {
    forall i | 0 <= i < |script| :: HonestEvent(script[i])
  }

  lemma HonestStepIsFaultless(s: State, e: Event, cfg: Config)
    requires HonestEvent(e)
    ensures Step(s, e, cfg).server.stranded == s.server.stranded
    ensures Step(s, e, cfg).server.untracked == s.server.untracked
  {
  }

  lemma {:induction false} HonestRunIsFaultless(v: Server, up: Startup, script: seq<Event>, cfg: Config)
    requires HonestScript(script)
    ensures var s := Run(v, up, script, cfg);
      s.server.stranded == v.stranded && s.server.untracked == v.untracked
  {
    if script != [] {
      var init := script[..|script| - 1];
      assert forall i | 0 <= i < |init| :: init[i] == script[i];
      HonestRunIsFaultless(v, up, init, cfg);
      HonestStepIsFaultless(Run(v, up, init, cfg), script[|script| - 1], cfg);
    }
  }

  /** With an honest server and no loopback to begin with: at most one loopback is ever live, even in the
      middle of a switch; the one that is, is tracked; and none is left once the controller has exited. */
  lemma HonestServerHoldsOne(v: Server, up: Startup, script: seq<Event>, cfg: Config)
    requires HonestListing(v, up) && HonestScript(script)
    requires LiveLoopbacks(v.modules) == {} && v.peak <= 1
    ensures var s := Run(v, up, script, cfg);
      && s.server.peak <= 1
      && LiveLoopbacks(s.server.modules) == Tracked(s.loopback)
      && (!s.running ==> LiveLoopbacks(s.server.modules) == {})
  {
    ModuleConservation(v, up, script, cfg);
    HonestRunIsFaultless(v, up, script, cfg);
    ExitedHoldsNothing(v, up, script, cfg);
    var s := Run(v, up, script, cfg);
    assert |Orphans(s.server.modules, s.loopback)| == 0;
    assert LiveLoopbacks(s.server.modules) == Orphans(s.server.modules, s.loopback) + Tracked(s.loopback);
  }

  lemma {:induction false} ExitedHoldsNothing(v: Server, up: Startup, script: seq<Event>, cfg: Config)
    ensures var s := Run(v, up, script, cfg);
      !s.running ==> s.loopback == None && s.cast == None && s.raop == None
  {
    if script != [] {
      ExitedHoldsNothing(v, up, script[..|script| - 1], cfg);
    }
  }

  /** raop-discover is loaded at most once: loading it is refused while it is there, and then the modules are
      listed. */
  ghost predicate HonestStartup(v: Server, up: Startup) {
    && HonestListing(v, up)
    && match up.load
       case Answered(id) => id !in v.modules && forall i | i in v.modules :: v.modules[i] != RaopDiscover
       case Failed(spawned) => spawned && up.listed.Some? && AtMostOneRaop(v.modules)
       case _ => false
  }

  ghost predicate AtMostOneRaop(modules: map<u32, Module>) {
    forall i, j | i in modules && j in modules && modules[i] == modules[j] == RaopDiscover :: i == j
  }

  lemma StartTracksRaop(v: Server, up: Startup)
    requires HonestStartup(v, up)
    ensures RaopTracked(Started(v, up))
  {
    hide Adopted, HonestListing, LiveLoopbacks;
    AdoptsRaopDiscover(v, up);
    var s := Started(v, up);
    if up.load.Answered? {
      assert s.server.modules == v.modules[up.load.id := RaopDiscover] && s.raop == Some(up.load.id);
    } else {
      assert s.server.modules == v.modules && s.raop == Adopted(up.listed);
    }
    hide Started;
  }

  /** The raop-discover module on the server is the tracked one. */
  ghost predicate RaopTracked(s: State) {
    forall i | i in s.server.modules && s.server.modules[i] == RaopDiscover :: s.raop == Some(i)
  }

  lemma TeardownKeepsRaopTracked(s: State, unload: UnloadReply)
    requires RaopTracked(s)
    ensures RaopTracked(AfterTeardown(s, unload))
  {
  }

  lemma StepKeepsRaopTracked(s: State, e: Event, cfg: Config)
    requires RaopTracked(s) && HonestEvent(e)
    ensures RaopTracked(Step(s, e, cfg))
  {
    hide FindDevice, StreamUrl, AfterTeardown;
    match e {
      case Do(_, unload, _) => TeardownKeepsRaopTracked(s, unload);
      case Exit(unload, _) => TeardownKeepsRaopTracked(s, unload);
      case _ =>
    }
  }

  /** Whether raop-discover was loaded at startup or found there and adopted, it is gone after exit. */
  lemma {:induction false} RaopIsRemoved(v: Server, up: Startup, script: seq<Event>, cfg: Config)
    requires HonestStartup(v, up) && HonestScript(script)
    ensures var s := Run(v, up, script, cfg);
      && RaopTracked(s)
      && (!s.running ==> forall i | i in s.server.modules :: s.server.modules[i] != RaopDiscover)
  {
    if script == [] {
      StartTracksRaop(v, up);
      hide Started, RaopTracked;
    } else {
      var init := script[..|script| - 1];
      assert forall i | 0 <= i < |init| :: init[i] == script[i];
      RaopIsRemoved(v, up, init, cfg);
      StepKeepsRaopTracked(Run(v, up, init, cfg), script[|script| - 1], cfg);
      ExitedHoldsNothing(v, up, script, cfg);
    }
  }

  // ---- What becomes of raop-discover ------------------------------------------------------------

  function LiveRaop(modules: map<u32, Module>): set<u32> {
    set id | id in modules && modules[id] == RaopDiscover
  }

  /** The raop-discover modules once startup has tried to load one: those there before, and that one if the
      load took effect. */
  function RaopAtStart(v: Server, up: Startup): set<u32> {
    LiveRaop(v.modules) + if !up.load.Failed? && up.load.id !in v.modules then {up.load.id} else {}
  }

  /** How unloading raop-discover goes at exit, once there is one. */
  function ExitReply(script: seq<Event>): Option<UnloadReply> {
    if script == [] then None
    else
      var before, last := ExitReply(script[..|script| - 1]), script[|script| - 1];
      if before.None? && last.Exit? then Some(last.unloadRaop) else before
  }

  /** What is unloaded at exit: the module tracked since startup, unless it is kept. */
  function RaopUnloaded(tracked: Option<u32>, reply: Option<UnloadReply>): set<u32> {
    if reply.None? || reply.value == Kept then {} else Tracked(tracked)
  }

  lemma LoopbackLoadKeepsRaop(v: Server, m: Module, reply: LoadReply)
    requires m.Loopback?
    ensures LiveRaop(Load(v, m, reply).0.modules) == LiveRaop(v.modules)
  {
  }

  lemma UnloadTakesRaop(v: Server, id: u32, reply: UnloadReply)
    ensures LiveRaop(Unload(v, id, reply).modules) == LiveRaop(v.modules) - if reply == Kept then {} else {id}
  {
  }

  lemma TeardownKeepsRaop(v: Server, s: State, unload: UnloadReply)
    requires Conserved(v, s)
    ensures LiveRaop(AfterTeardown(s, unload).server.modules) == LiveRaop(s.server.modules)
  {
    if s.loopback.Some? {
      var id := s.loopback.value;
      assert id in LiveLoopbacks(s.server.modules);
      assert id !in LiveRaop(s.server.modules);
      UnloadTakesRaop(s.server, id, unload);
      hide LiveRaop, Unload;
    }
  }

  lemma StepTakesRaop(v: Server, s: State, e: Event, cfg: Config)
    requires Conserved(v, s) && s.running
    ensures var s' := Step(s, e, cfg);
      && s'.running == !e.Exit? && (s'.running ==> s'.raop == s.raop)
      && LiveRaop(s'.server.modules)
         == LiveRaop(s.server.modules) - if e.Exit? then RaopUnloaded(s.raop, Some(e.unloadRaop)) else {}
  {
    hide Conserved, LiveRaop, Load, Unload, FindDevice, StreamUrl;
    match e {
      case Do(command, unload, load) =>
        TeardownKeepsRaop(v, s, unload);
        if command.Select? && command.kind != Chromecast {
          LoopbackLoadKeepsRaop(AfterTeardown(s, unload).server, Loopback(CAPTURE_MONITOR, command.id), load);
        }
      case Exit(unload, unloadRaop) =>
        TeardownKeepsRaop(v, s, unload);
        if s.raop.Some? {
          UnloadTakesRaop(AfterTeardown(s, unload).server, s.raop.value, unloadRaop);
        }
      case _ =>
    }
  }

  lemma LoadAddsRaop(v: Server, up: Startup)
    ensures var (v', outcome) := Load(v, RaopDiscover, up.load);
      && LiveRaop(v'.modules) == RaopAtStart(v, up)
      && (outcome.ModuleId? ==> outcome.id in v'.modules && v'.modules[outcome.id] == RaopDiscover)
  {
  }

  /** In every run: the raop-discover modules on the server are those there before and the one startup loaded,
      less the tracked one once it has been unloaded at exit. */
  lemma {:induction false} RaopAccounting(v: Server, up: Startup, script: seq<Event>, cfg: Config)
    requires HonestListing(v, up)
    ensures var s, tracked := Run(v, up, script, cfg), Started(v, up).raop;
      && (s.running <==> ExitReply(script).None?)
      && (s.running ==> s.raop == tracked)
      && LiveRaop(s.server.modules) == RaopAtStart(v, up) - RaopUnloaded(tracked, ExitReply(script))
  {
    hide HonestListing, LiveRaop, RaopAtStart, Load;
    if script == [] {
      LoadAddsRaop(v, up);
    } else {
      var before, last := script[..|script| - 1], script[|script| - 1];
      ModuleConservation(v, up, before, cfg);
      RaopAccounting(v, up, before, cfg);
      hide Conserved, Started;
      var s := Run(v, up, before, cfg);
      assert ExitReply(before).None? ==> RaopUnloaded(Started(v, up).raop, ExitReply(before)) == {};
      hide RaopUnloaded;
      if s.running {
        StepTakesRaop(v, s, last, cfg);
      }
      assert Run(v, up, script, cfg) == Step(s, last, cfg);
      hide Run;
      assert !s.running ==> Step(s, last, cfg) == s;
      hide Step;
    }
  }

  /** Startup does not learn the id of the raop-discover that is there: its load answered without one, or it was
      refused and the modules were not listed. */
  predicate LosesRaop(v: Server, up: Startup) {
    match Load(v, RaopDiscover, up.load).1
    case ModuleId(_) => false
    case NoId => true
    case Refused(spawned) => !spawned || up.listed.None?
  }

  lemma StartTracksRaopIff(v: Server, up: Startup)
    requires HonestListing(v, up) && AtMostOneRaop(Load(v, RaopDiscover, up.load).0.modules)
    ensures var tracked := Tracked(Started(v, up).raop);
      tracked == if LosesRaop(v, up) then {} else RaopAtStart(v, up)
  {
    assert Adopted(None) == None;
    hide Adopted, HonestListing, LiveRaop, RaopAtStart, AtMostOneRaop, Load;
    AdoptsRaopDiscover(v, up);
    LoadAddsRaop(v, up);
    OnlyRaop(Load(v, RaopDiscover, up.load).0.modules, Started(v, up).raop);
  }

  lemma OnlyRaop(modules: map<u32, Module>, tracked: Option<u32>)
    requires AtMostOneRaop(modules)
    ensures tracked.Some? && tracked.value in modules && modules[tracked.value] == RaopDiscover ==>
              LiveRaop(modules) == Tracked(tracked)
    ensures (forall id | id in modules :: modules[id] != RaopDiscover) ==> LiveRaop(modules) == {}
  {
  }

  /** With at most one raop-discover on the server: the daemon leaves it behind when it exits if and only if
      unloading it failed or startup never learned its id. */
  lemma RaopIsLeftBehindIff(v: Server, up: Startup, script: seq<Event>, cfg: Config)
    requires HonestListing(v, up) && AtMostOneRaop(Load(v, RaopDiscover, up.load).0.modules)
    ensures var s := Run(v, up, script, cfg);
      !s.running ==>
        (LiveRaop(s.server.modules) != {}
         <==> RaopAtStart(v, up) != {} && (ExitReply(script) == Some(Kept) || LosesRaop(v, up)))
  {
    hide HonestListing, AtMostOneRaop, Run, Started, LiveRaop, RaopAtStart, LosesRaop;
    RaopAccounting(v, up, script, cfg);
    StartTracksRaopIff(v, up);
  }
}
