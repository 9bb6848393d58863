/** The pairing window: opened for a bounded time, re-openable, and closed by itself. */
module PairingWindow {
  import opened Wrappers

  // ---- The web surface --------------------------------------------------------------------------

  const DEFAULT_PAIRING_SECS: nat := 300
  const MIN_PAIRING_SECS: nat := 30
  const MAX_PAIRING_SECS: nat := 3600

  /** The duration, in milliseconds, that a request for that many seconds opens the window for. */
  function OpenCommand(seconds: Option<nat>): nat {
    var secs := match seconds
      case None => DEFAULT_PAIRING_SECS
      case Some(s) => if s < MIN_PAIRING_SECS then MIN_PAIRING_SECS else Min(s, MAX_PAIRING_SECS);
    1000 * secs
  }

  /** The seconds asked for, but half a minute at least and an hour at most; five minutes if none are given. */
  lemma OpenCommandIs(seconds: Option<nat>)
    ensures match seconds
      case None => OpenCommand(seconds) == 300_000
      case Some(s) =>
        OpenCommand(seconds) == if s < 30 then 30_000 else if s > 3600 then 3_600_000 else 1000 * s
  {
  }

  // ---- The window -------------------------------------------------------------------------------

  /** What the selects come up with; Tick is time passing without anything to do. */
  datatype Outcome = Open(duration: nat) | Close | SenderGone | Expired | Shutdown | Tick

  /** How an adapter call goes. One that reports a failure may have taken effect: making the adapter
      discoverable is two writes, and the second may fail. */
  datatype Reply = Done | FailedAfterEffect | FailedWithoutEffect

  predicate TakesEffect(reply: Reply) {
    !reply.FailedWithoutEffect?
  }

  /** An outcome, and how the adapter calls made in response to it go. */
  datatype Timed = Timed(at: nat, what: Outcome, discoverable: Reply, pairable: Reply)

  datatype Phase = Closed | Opened(deadline: nat) | Returned

  /** An adapter flag, and whether the last call to set it took effect. */
  datatype Flag = Flag(on: bool, driven: bool)

  datatype State = State(phase: Phase, now: nat, gone: bool, discoverable: Flag, pairable: Flag, open: bool)

  function Drive(flag: Flag, on: bool, reply: Reply): Flag {
    Flag(if TakesEffect(reply) then on else flag.on, TakesEffect(reply))
  }

  /** The adapter is driven on or off, and the state is published. */
  function Enter(s: State, step: Timed, phase: Phase): State {
    var on := phase.Opened?;
    s.(phase := phase, now := step.at, open := on,
       discoverable := Drive(s.discoverable, on, step.discoverable),
       pairable := Drive(s.pairable, on, step.pairable))
  }

  /** `first` tells how the very first calls go; the adapter may be in any state before them. */
  function Initial(discoverable: bool, pairable: bool, first: Timed): State {
    Enter(State(Closed, 0, false, Flag(discoverable, false), Flag(pairable, false), false), first, Closed)
  }

  function Step(s: State, step: Timed): State {
    match s.phase
    case Returned => s
    case Closed => (
      match step.what
      case Open(duration) => Enter(s, step, Opened(step.at + duration))
      case SenderGone => s.(now := step.at, gone := true, phase := Returned)
      case Shutdown => s.(now := step.at, phase := Returned)
      case Expired => s
      case _ => s.(now := step.at))
    case Opened(deadline) =>
      match step.what
      case Open(duration) => Enter(s, step, Opened(step.at + duration))
      case Close | Expired => Enter(s, step, Closed)
      case SenderGone => Enter(s, step, Closed).(gone := true)
      case Shutdown => Enter(s, step, Returned)
      case Tick => s.(now := step.at)
  }

  function Run(initial: State, script: seq<Timed>): State {
    if script == [] then initial
    else Step(Run(initial, script[..|script| - 1]), script[|script| - 1])
  }

  /** What the selects can come up with. The deadline wins over the queue, and the window is woken at its
      deadline; after the sender is gone nothing but that is received. */
  predicate Admits(s: State, step: Timed) {
    && step.at >= s.now
    && (s.gone ==> step.what.SenderGone? || step.what.Shutdown?)
    && match s.phase
       case Opened(deadline) =>
         && step.at <= deadline
         && (step.what.Expired? ==> step.at == deadline)
         && (step.what.Open? || step.what.Close? || step.what.SenderGone? ==> step.at < deadline)
       case _ => s.phase.Closed?
  }

  ghost predicate Timely(initial: State, script: seq<Timed>) {
    forall i | 0 <= i < |script| :: Admits(Run(initial, script[..i]), script[i])
  }

  // ---- The task ---------------------------------------------------------------------------------

  class Adapter {
    var discoverable: bool
    var pairable: bool

    method SetDiscoverable(on: bool, reply: Reply) returns (ok: bool)
      modifies this`discoverable
      ensures discoverable == (if TakesEffect(reply) then on else old(discoverable)) && (ok <==> reply.Done?)
    {
      if TakesEffect(reply) {
        discoverable := on;
      }
      ok := reply.Done?;
    }

    method SetPairable(on: bool, reply: Reply) returns (ok: bool)
      modifies this`pairable
      ensures pairable == (if TakesEffect(reply) then on else old(pairable)) && (ok <==> reply.Done?)
    {
      if TakesEffect(reply) {
        pairable := on;
      }
      ok := reply.Done?;
    }
  }

  class PairingTask {
    const adapter: Adapter
    var openState: bool

    constructor (adapter: Adapter)
      ensures this.adapter == adapter && !openState
    {
      this.adapter := adapter;
      openState := false;
    }

    /** The adapter and the published state are as in s. */
    predicate Shows(s: State)
      reads this, adapter
    {
      openState == s.open && adapter.discoverable == s.discoverable.on && adapter.pairable == s.pairable.on
    }

    /** What the calls return is ignored. */
    method Drive(on: bool, step: Timed)
      modifies adapter
      ensures adapter.discoverable == if TakesEffect(step.discoverable) then on else old(adapter.discoverable)
      ensures adapter.pairable == if TakesEffect(step.pairable) then on else old(adapter.pairable)
    {
      var _ := adapter.SetDiscoverable(on, step.discoverable);
      var _ := adapter.SetPairable(on, step.pairable);
    }

    /** Drives the adapter and publishes. */
    method EnterPhase(ghost s: State, step: Timed, ghost phase: Phase, on: bool)
      requires Shows(s) && on == phase.Opened?
      modifies this, adapter
      ensures Shows(Enter(s, step, phase))
    {
      Drive(on, step);
      openState := on;
    }

    /** The open window, from outcome number `start` on. Gives the outcome that ended it, unless the outcomes
        are used up first. */
    method WhileOpen(ghost initial: State, script: seq<Timed>, start: nat, ghost s0: State)
      returns (i: nat, ghost s: State, end: Option<Timed>)
      requires start <= |script| && Run(initial, script[..start]) == s0
      requires s0.phase.Opened? && s0.open && Shows(s0)
      modifies adapter
      ensures start <= i <= |script| && Shows(s)
      ensures match end
        case Some(step) =>
          && start < i && step == script[i - 1] && s == Run(initial, script[..i - 1]) && s.phase.Opened?
          && s.open && (step.what.Close? || step.what.Expired? || step.what.SenderGone? || step.what.Shutdown?)
        case None => i == |script| && s == Run(initial, script)
    {
      i, s := start, s0;
      while i < |script|
        invariant start <= i <= |script| && Run(initial, script[..i]) == s
        invariant s.phase.Opened? && s.open && Shows(s)
      {
        var step := script[i];
        i := i + 1;
        assert script[..i][..i - 1] == script[..i - 1];
        match step.what {
          case Open(duration) => Drive(true, step);
          case Close | Expired | SenderGone | Shutdown => return i, s, Some(step);
          case Tick =>
        }
        s := Step(s, step);
      }
      assert script[..i] == script;
      end := None;
    }

    /** Waits for an Open, ignoring Close, from outcome number `start` on. Gives the outcome that ended the wait,
        unless the outcomes are used up first. */
    method WhileClosed(ghost initial: State, script: seq<Timed>, start: nat, ghost s0: State)
      returns (i: nat, ghost s: State, end: Option<Timed>)
      requires start <= |script| && Run(initial, script[..start]) == s0 && s0.phase.Closed? && Shows(s0)
      ensures start <= i <= |script| && Shows(s)
      ensures match end
        case Some(step) =>
          && start < i && step == script[i - 1] && s == Run(initial, script[..i - 1]) && s.phase.Closed?
          && (step.what.Open? || step.what.SenderGone? || step.what.Shutdown?)
        case None => i == |script| && s == Run(initial, script)
    {
      hide Shows;
      i, s := start, s0;
      while i < |script|
        invariant start <= i <= |script| && Run(initial, script[..i]) == s && s.phase.Closed? && Shows(s)
      {
        var step := script[i];
        i := i + 1;
        assert script[..i][..i - 1] == script[..i - 1];
        if step.what.Open? || step.what.SenderGone? || step.what.Shutdown? {
          return i, s, Some(step);
        }
        ShowsKept(s, Step(s, step));
        s := Step(s, step);
      }
      assert script[..i] == script;
      end := None;
    }

    /** Runs on the given outcomes until it returns or they are used up. */
    method RunPairingWindow(first: Timed, script: seq<Timed>)
      modifies this, adapter
      ensures Shows(Run(Initial(old(adapter.discoverable), old(adapter.pairable), first), script))
    {
      ghost var before := State(Closed, 0, false, Flag(adapter.discoverable, false), Flag(adapter.pairable, false), false);
      ghost var initial := Initial(adapter.discoverable, adapter.pairable, first);
      // Closed: the adapter is neither discoverable nor pairable.
      openState := false;
      EnterPhase(before, first, Closed, false);
      ghost var s := initial;
      var i, end := 0, None;
      hide Initial, Shows, Enter, Run, Step;
      while true
        invariant i <= |script| && Run(initial, script[..i]) == s && s.phase.Closed? && Shows(s)
        decreases |script| - i
      {
        i, s, end := WhileClosed(initial, script, i, s);
        if end.None? {
          return;
        }
        RunStep(initial, script, i);
        if !end.value.what.Open? {
          WaitEnds(s, end.value);
          ReturnedStays(initial, script, i);
          return;
        }
        EnterPhase(s, end.value, Opened(end.value.at + end.value.what.duration), true);
        OpeningOpens(s, end.value);
        i, s, end := WhileOpen(initial, script, i, Step(s, end.value));
        if end.None? {
          return;
        }
        RunStep(initial, script, i);
        EnterPhase(s, end.value, if end.value.what.Shutdown? then Returned else Closed, false);
        LeavingCloses(s, end.value);
        if end.value.what.Shutdown? {
          ReturnedStays(initial, script, i);
          return;
        }
        s := Step(s, end.value);
      }
    }

    lemma WaitEnds(s: State, step: Timed)
      requires s.phase.Closed? && Shows(s) && (step.what.SenderGone? || step.what.Shutdown?)
      ensures Shows(Step(s, step)) && Step(s, step).phase.Returned?
    {
    }

    lemma OpeningOpens(s: State, step: Timed)
      requires s.phase.Closed? && step.what.Open? && Shows(Enter(s, step, Opened(step.at + step.what.duration)))
      ensures Shows(Step(s, step)) && Step(s, step).phase.Opened? && Step(s, step).open
    {
    }

    lemma LeavingCloses(s: State, step: Timed)
      requires s.phase.Opened? && Shows(Enter(s, step, if step.what.Shutdown? then Returned else Closed))
      requires step.what.Close? || step.what.Expired? || step.what.SenderGone? || step.what.Shutdown?
      ensures Shows(Step(s, step))
      ensures Step(s, step).phase == if step.what.Shutdown? then Returned else Closed
    {
    }

    /** Only what is shown matters. */
    lemma ShowsKept(s: State, s': State)
      requires Shows(s) && s'.open == s.open && s'.discoverable == s.discoverable && s'.pairable == s.pairable
      ensures Shows(s')
    {
    }
  }

  lemma RunStep(initial: State, script: seq<Timed>, i: nat)
    requires 0 < i <= |script|
    ensures Run(initial, script[..i]) == Step(Run(initial, script[..i - 1]), script[i - 1])
  {
    assert script[..i][..i - 1] == script[..i - 1];
  }

  lemma {:induction false} ReturnedStays(initial: State, script: seq<Timed>, i: nat)
    requires i <= |script| && Run(initial, script[..i]).phase.Returned?
    ensures Run(initial, script) == Run(initial, script[..i])
    decreases |script|
  {
    if i == |script| {
      assert script[..i] == script;
    } else {
      var before := script[..|script| - 1];
      assert before[..i] == script[..i];
      ReturnedStays(initial, before, i);
    }
  }

  // ---- The promises -----------------------------------------------------------------------------

  /** The last command, if it is an Open: when it came, and for how long. */
  function LastOpen(script: seq<Timed>): Option<(nat, nat)> {
    if script == [] then None
    else
      var last := script[|script| - 1];
      match last.what
      case Open(duration) => Some((last.at, duration))
      case Close | SenderGone | Shutdown => None
      case Expired | Tick => LastOpen(script[..|script| - 1])
  }

  /** The published state is that of the window; a flag whose last call took effect agrees with it. */
  predicate Inv(s: State) {
    && (s.open <==> s.phase.Opened?)
    && (s.discoverable.driven ==> s.discoverable.on == s.open)
    && (s.pairable.driven ==> s.pairable.on == s.open)
  }

  predicate OnTime(s: State, command: Option<(nat, nat)>) {
    match command
    case None => !s.open
    case Some((at, duration)) =>
      if s.open then s.phase == Opened(at + duration) && at <= s.now <= at + duration
      else s.now >= at + duration
  }

  lemma TimelyPrefix(initial: State, script: seq<Timed>)
    requires Timely(initial, script) && script != []
    ensures Timely(initial, script[..|script| - 1])
    ensures Admits(Run(initial, script[..|script| - 1]), script[|script| - 1])
  {
    var before := script[..|script| - 1];
    forall i | 0 <= i < |before| ensures Admits(Run(initial, before[..i]), before[i]) {
      assert before[..i] == script[..i];
    }
  }

  lemma StepKeepsInv(s: State, step: Timed)
    requires Inv(s)
    ensures Inv(Step(s, step))
    ensures s.discoverable.driven && TakesEffect(step.discoverable) ==> Step(s, step).discoverable.driven
    ensures s.pairable.driven && TakesEffect(step.pairable) ==> Step(s, step).pairable.driven
  {
  }

  lemma {:induction false} RunKeepsInv(discoverable: bool, pairable: bool, first: Timed, script: seq<Timed>)
    ensures Inv(Run(Initial(discoverable, pairable, first), script))
  {
    if script != [] {
      RunKeepsInv(discoverable, pairable, first, script[..|script| - 1]);
      StepKeepsInv(Run(Initial(discoverable, pairable, first), script[..|script| - 1]), script[|script| - 1]);
      hide Inv, Step, Initial;
    }
  }

  lemma {:induction false} RunIsOnTime(discoverable: bool, pairable: bool, first: Timed, script: seq<Timed>)
    requires Timely(Initial(discoverable, pairable, first), script)
    ensures OnTime(Run(Initial(discoverable, pairable, first), script), LastOpen(script))
  {
    var initial := Initial(discoverable, pairable, first);
    RunKeepsInv(discoverable, pairable, first, script);
    if script != [] {
      var before := script[..|script| - 1];
      TimelyPrefix(initial, script);
      RunIsOnTime(discoverable, pairable, first, before);
      RunKeepsInv(discoverable, pairable, first, before);
      hide Timely;
    }
  }

  /** At any time the window is open if and only if the last command is an Open whose time is not up (at the
      very instant of the deadline it may be either). */
  lemma OpenIffNotUp(discoverable: bool, pairable: bool, first: Timed, script: seq<Timed>)
    requires Timely(Initial(discoverable, pairable, first), script)
    ensures var s, command := Run(Initial(discoverable, pairable, first), script), LastOpen(script);
      && (command.Some? && s.now < command.value.0 + command.value.1 ==> s.open)
      && (s.open ==> command.Some? && s.now <= command.value.0 + command.value.1)
  {
    RunIsOnTime(discoverable, pairable, first, script);
  }

  /** Whatever is requested, from the web the window opens for half a minute to an hour. */
  ghost predicate FromTheWeb(script: seq<Timed>) {
    forall i | 0 <= i < |script| && script[i].what.Open? ::
      exists seconds :: script[i].what.duration == OpenCommand(seconds)
  }

  lemma {:induction false} LastOpenIsOpen(script: seq<Timed>) returns (i: nat)
    requires LastOpen(script).Some?
    ensures i < |script| && script[i].what.Open? && LastOpen(script).value == (script[i].at, script[i].what.duration)
  {
    if script[|script| - 1].what.Open? {
      i := |script| - 1;
    } else {
      i := LastOpenIsOpen(script[..|script| - 1]);
    }
  }

  /** Opened from the web, the window is open for at least half a minute after an Open that no other command
      follows, and never for more than an hour. */
  lemma OpenForAnHourAtMost(discoverable: bool, pairable: bool, first: Timed, script: seq<Timed>)
    requires Timely(Initial(discoverable, pairable, first), script) && FromTheWeb(script)
    ensures var s, command := Run(Initial(discoverable, pairable, first), script), LastOpen(script);
      && (s.open ==> command.Some? && s.now <= command.value.0 + 3_600_000)
      && (command.Some? && s.now < command.value.0 + 30_000 ==> s.open)
  {
    OpenIffNotUp(discoverable, pairable, first, script);
    if LastOpen(script).Some? {
      var i := LastOpenIsOpen(script);
      var seconds :| script[i].what.duration == OpenCommand(seconds);
    }
  }

  // ---- The adapter ------------------------------------------------------------------------------

  /** A pair of adapter calls, and how they go. */
  datatype Call = Call(on: bool, discoverable: Reply, pairable: Reply)

  predicate DrivesAdapter(s: State, step: Timed) {
    (s.phase.Closed? && step.what.Open?) || (s.phase.Opened? && !step.what.Tick?)
  }

  /** The calls made in a run: off at the start, on at every Open, off at every close. */
  function Calls(initial: State, first: Timed, script: seq<Timed>): (calls: seq<Call>)
    ensures calls != []
  {
    if script == [] then [Call(false, first.discoverable, first.pairable)]
    else
      var before, last := script[..|script| - 1], script[|script| - 1];
      Calls(initial, first, before) +
      if DrivesAdapter(Run(initial, before), last)
      then [Call(last.what.Open?, last.discoverable, last.pairable)] else []
  }

  function DiscoverableReply(c: Call): Reply {
    c.discoverable
  }

  function PairableReply(c: Call): Reply {
    c.pairable
  }

  /** What the last of the first n calls that took effect set the flag to; its value at the start if none did. */
  function LastSet(calls: seq<Call>, n: nat, reply: Call -> Reply, start: bool): bool
    requires n <= |calls|
  {
    if n == 0 then start
    else if TakesEffect(reply(calls[n - 1])) then calls[n - 1].on else LastSet(calls, n - 1, reply, start)
  }

  lemma {:induction false} LastSetOfPrefix(calls: seq<Call>, c: Call, n: nat, reply: Call -> Reply, start: bool)
    requires n <= |calls|
    ensures LastSet(calls + [c], n, reply, start) == LastSet(calls, n, reply, start)
  {
    if n > 0 {
      LastSetOfPrefix(calls, c, n - 1, reply, start);
    }
  }

  lemma LastSetSnoc(calls: seq<Call>, c: Call, reply: Call -> Reply, start: bool)
    ensures LastSet(calls + [c], |calls| + 1, reply, start)
         == if TakesEffect(reply(c)) then c.on else LastSet(calls, |calls|, reply, start)
  {
    LastSetOfPrefix(calls, c, |calls|, reply, start);
  }

  lemma StepDrives(s: State, step: Timed)
    requires Inv(s)
    ensures var s' := Step(s, step);
      if DrivesAdapter(s, step) then
        && s'.open == step.what.Open?
        && s'.discoverable == Drive(s.discoverable, step.what.Open?, step.discoverable)
        && s'.pairable == Drive(s.pairable, step.what.Open?, step.pairable)
      else s'.open == s.open && s'.discoverable == s.discoverable && s'.pairable == s.pairable
  {
  }

  /** Adapter calls may fail, with or without effect, and what they return is ignored. In every run, at every
      wait and after every return: the published state is what the last calls asked for, off after a return;
      and each flag agrees with it if and only if the last call for that flag that took effect (or the start,
      if none has) set it so. */
  lemma {:induction false} AdapterFollows(discoverable: bool, pairable: bool, first: Timed, script: seq<Timed>)
    ensures var initial := Initial(discoverable, pairable, first);
      var s, calls := Run(initial, script), Calls(initial, first, script);
      && s.open == calls[|calls| - 1].on
      && (s.phase.Returned? ==> !s.open)
      && (s.discoverable.on == s.open <==> LastSet(calls, |calls|, DiscoverableReply, discoverable) == s.open)
      && (s.pairable.on == s.open <==> LastSet(calls, |calls|, PairableReply, pairable) == s.open)
  {
    var initial := Initial(discoverable, pairable, first);
    RunKeepsInv(discoverable, pairable, first, script);
    if script != [] {
      var before, last := script[..|script| - 1], script[|script| - 1];
      var s, calls := Run(initial, before), Calls(initial, first, before);
      AdapterFollows(discoverable, pairable, first, before);
      RunKeepsInv(discoverable, pairable, first, before);
      StepDrives(s, last);
      var call := Call(last.what.Open?, last.discoverable, last.pairable);
      LastSetSnoc(calls, call, DiscoverableReply, discoverable);
      LastSetSnoc(calls, call, PairableReply, pairable);
      assert Calls(initial, first, script) == if DrivesAdapter(s, last) then calls + [call] else calls;
      hide Initial, Step, Inv, DrivesAdapter, LastSet, Calls;
    }
  }

  /** A close turns a flag off if and only if its call takes effect or it was off already. */
  lemma CloseTurnsOffIff(s: State, step: Timed)
    requires s.phase.Opened?
    requires step.what.Close? || step.what.Expired? || step.what.SenderGone? || step.what.Shutdown?
    ensures var s' := Step(s, step);
      && !s'.open
      && (!s'.discoverable.on <==> TakesEffect(step.discoverable) || !s.discoverable.on)
      && (!s'.pairable.on <==> TakesEffect(step.pairable) || !s.pairable.on)
  {
  }

  /** With calls that all succeed, discoverable = pairable = open at every wait, and off after every return. */
  lemma WorkingAdapterFollows(discoverable: bool, pairable: bool, first: Timed, script: seq<Timed>)
    requires first.discoverable.Done? && first.pairable.Done?
    requires forall i | 0 <= i < |script| :: script[i].discoverable.Done? && script[i].pairable.Done?
    ensures var s := Run(Initial(discoverable, pairable, first), script);
      s.discoverable.on == s.pairable.on == s.open && (s.phase.Returned? ==> !s.open)
  {
    RunKeepsInv(discoverable, pairable, first, script);
    AllDriven(discoverable, pairable, first, script);
  }

  lemma {:induction false} AllDriven(discoverable: bool, pairable: bool, first: Timed, script: seq<Timed>)
    requires first.discoverable.Done? && first.pairable.Done?
    requires forall i | 0 <= i < |script| :: script[i].discoverable.Done? && script[i].pairable.Done?
    ensures var s := Run(Initial(discoverable, pairable, first), script); s.discoverable.driven && s.pairable.driven
  {
    if script != [] {
      var before, last := script[..|script| - 1], script[|script| - 1];
      AllDriven(discoverable, pairable, first, before);
      RunKeepsInv(discoverable, pairable, first, before);
      StepKeepsInv(Run(Initial(discoverable, pairable, first), before), last);
      hide Inv, Step, Initial;
    }
  }

  // ---- Outcome by outcome -----------------------------------------------------------------------

  /** An adapter flag after a call, which leaves it alone only if it fails without effect. */
  predicate Becomes(flag': Flag, flag: Flag, on: bool, reply: Reply) {
    flag'.on == if reply == FailedWithoutEffect then flag.on else on
  }

  /** Both flags driven to the published state. */
  predicate Driven(s: State, s': State, step: Timed, open: bool) {
    s'.open == open && Becomes(s'.discoverable, s.discoverable, open, step.discoverable)
    && Becomes(s'.pairable, s.pairable, open, step.pairable)
  }

  predicate Undriven(s: State, s': State) {
    s'.open == s.open && s'.discoverable == s.discoverable && s'.pairable == s.pairable
  }

  /** The task begins closed, driving the adapter off. Closed, only an Open does anything, and a shutdown or the
      loss of the senders ends the task; open, another Open re-asserts and re-arms, a Close, the deadline and the
      loss of the senders close, and a shutdown closes and ends. */
  lemma OutcomeTaken(discoverable: bool, pairable: bool, first: Timed, script: seq<Timed>, step: Timed)
    ensures var initial := Initial(discoverable, pairable, first);
      && initial.phase == Closed && !initial.open
      && Becomes(initial.discoverable, Flag(discoverable, false), false, first.discoverable)
      && Becomes(initial.pairable, Flag(pairable, false), false, first.pairable)
      && var s, s' := Run(initial, script), Run(initial, script + [step]);
         match s.phase
         case Returned => s' == s
         case Closed => (
           match step.what
           case Open(duration) => s'.phase == Opened(step.at + duration) && Driven(s, s', step, true)
           case Shutdown => s'.phase == Returned && Undriven(s, s')
           case SenderGone => s'.phase == Returned && Undriven(s, s')
           case _ => s'.phase == Closed && Undriven(s, s'))
         case Opened(deadline) =>
           match step.what
           case Open(duration) => s'.phase == Opened(step.at + duration) && Driven(s, s', step, true)
           case Shutdown => s'.phase == Returned && Driven(s, s', step, false)
           case Tick => s'.phase == s.phase && Undriven(s, s')
           case _ => s'.phase == Closed && Driven(s, s', step, false)
  {
    var initial := Initial(discoverable, pairable, first);
    assert (script + [step])[..|script|] == script;
    assert Run(initial, script + [step]) == Step(Run(initial, script), step);
    hide Run;
  }

  // ---- What the replies alone tell --------------------------------------------------------------

  /** The same step, and calls that return the same; whether those that fail take effect is open. */
  predicate SameReturns(a: Timed, b: Timed) {
    && a.at == b.at && a.what == b.what
    && (a.discoverable.Done? <==> b.discoverable.Done?) && (a.pairable.Done? <==> b.pairable.Done?)
  }

  ghost predicate AllSameReturns(a: seq<Timed>, b: seq<Timed>) {
    |a| == |b| && forall i | 0 <= i < |a| :: SameReturns(a[i], b[i])
  }

  predicate SameCall(a: Call, b: Call) {
    a.on == b.on && (a.discoverable.Done? <==> b.discoverable.Done?) && (a.pairable.Done? <==> b.pairable.Done?)
  }

  ghost predicate SameCalls(a: seq<Call>, b: seq<Call>) {
    |a| == |b| && forall i | 0 <= i < |a| :: SameCall(a[i], b[i])
  }

  predicate SameWindow(s: State, s': State) {
    s.phase == s'.phase && s.now == s'.now && s.gone == s'.gone && s.open == s'.open
  }

  lemma StepIsNotSteered(s: State, s': State, step: Timed, step': Timed)
    requires SameWindow(s, s') && SameReturns(step, step')
    ensures SameWindow(Step(s, step), Step(s', step')) && DrivesAdapter(s, step) == DrivesAdapter(s', step')
  {
    hide Drive;
  }

  /** Replies do not steer the window, so the same calls are made. */
  lemma {:induction false} RepliesDoNotSteer(discoverable: bool, pairable: bool, first: Timed, script: seq<Timed>,
                                             first': Timed, script': seq<Timed>)
    requires SameReturns(first, first') && AllSameReturns(script, script')
    ensures var initial, initial' := Initial(discoverable, pairable, first), Initial(discoverable, pairable, first');
      && SameWindow(Run(initial, script), Run(initial', script'))
      && SameCalls(Calls(initial, first, script), Calls(initial', first', script'))
    decreases |script|
  {
    if script != [] {
      var n := |script| - 1;
      hide Initial, Step, DrivesAdapter, SameWindow;
      RepliesDoNotSteer(discoverable, pairable, first, script[..n], first', script'[..n]);
      assert SameReturns(script[n], script'[n]);
      var initial, initial' := Initial(discoverable, pairable, first), Initial(discoverable, pairable, first');
      StepIsNotSteered(Run(initial, script[..n]), Run(initial', script'[..n]), script[n], script'[n]);
    }
  }

  /** From call m on it is known that the flag is on as asked for, and every call since has asked for that. */
  predicate KnownSince(calls: seq<Call>, m: nat, n: nat, reply: Call -> Reply, start: bool, on: bool)
    requires m <= n <= |calls|
  {
    && (if m == 0 then start == on else reply(calls[m - 1]).Done? && calls[m - 1].on == on)
    && forall k | m <= k < n :: calls[k].on == on
  }

  /** What can be told from the returns alone: some call succeeded in setting the flag so (or it was so at the
      start), and every call since, failed ones included, has asked for the same. */
  ghost predicate Assured(calls: seq<Call>, n: nat, reply: Call -> Reply, start: bool, on: bool)
    requires n <= |calls|
  {
    exists m | 0 <= m <= n :: KnownSince(calls, m, n, reply, start, on)
  }

  lemma AssuredStep(calls: seq<Call>, n: nat, reply: Call -> Reply, start: bool, on: bool)
    requires 0 < n <= |calls|
    ensures Assured(calls, n, reply, start, on)
       <==> calls[n - 1].on == on && (reply(calls[n - 1]).Done? || Assured(calls, n - 1, reply, start, on))
  {
    if calls[n - 1].on == on && reply(calls[n - 1]).Done? {
      assert KnownSince(calls, n, n, reply, start, on);
    }
    if calls[n - 1].on == on && Assured(calls, n - 1, reply, start, on) {
      var m :| 0 <= m <= n - 1 && KnownSince(calls, m, n - 1, reply, start, on);
      assert KnownSince(calls, m, n, reply, start, on);
    }
    if Assured(calls, n, reply, start, on) {
      var m :| 0 <= m <= n && KnownSince(calls, m, n, reply, start, on);
      if m < n {
        assert KnownSince(calls, m, n - 1, reply, start, on);
      }
    }
  }

  /** The same returns, with the worst effects for a flag to be on as given. */
  function WorstReply(reply: Reply, asks: bool, on: bool): Reply {
    if reply.Done? then Done else if asks == on then FailedWithoutEffect else FailedAfterEffect
  }

  function Worst(step: Timed, asks: bool, on: bool): Timed {
    step.(discoverable := WorstReply(step.discoverable, asks, on), pairable := WorstReply(step.pairable, asks, on))
  }

  function WorstScript(script: seq<Timed>, on: bool): (worst: seq<Timed>)
    ensures |worst| == |script|
  {
    seq(|script|, i requires 0 <= i < |script| => Worst(script[i], script[i].what.Open?, on))
  }

  ghost predicate WorstCalls(calls: seq<Call>, on: bool) {
    forall i | 0 <= i < |calls| ::
      && (calls[i].discoverable.Done? || calls[i].discoverable == WorstReply(FailedAfterEffect, calls[i].on, on))
      && (calls[i].pairable.Done? || calls[i].pairable == WorstReply(FailedAfterEffect, calls[i].on, on))
  }

  lemma {:induction false} WorstScriptMakesWorstCalls(discoverable: bool, pairable: bool, first: Timed,
                                                      script: seq<Timed>, on: bool)
    ensures var first' := Worst(first, false, on);
      WorstCalls(Calls(Initial(discoverable, pairable, first'), first', WorstScript(script, on)), on)
    decreases |script|
  {
    if script != [] {
      hide Initial, Run, DrivesAdapter;
      var worst, n, first' := WorstScript(script, on), |script| - 1, Worst(first, false, on);
      assert worst[..n] == WorstScript(script[..n], on);
      WorstScriptMakesWorstCalls(discoverable, pairable, first, script[..n], on);
      var initial := Initial(discoverable, pairable, first');
      var calls, last := Calls(initial, first', worst[..n]), worst[n];
      assert Calls(initial, first', worst) == if DrivesAdapter(Run(initial, worst[..n]), last)
        then calls + [Call(last.what.Open?, last.discoverable, last.pairable)] else calls;
      hide Calls;
    }
  }

  /** Where it is assured the flag is on as given for all effects, and otherwise not for the worst ones. */
  lemma {:induction false} AssuredIsCertain(calls: seq<Call>, calls': seq<Call>, n: nat, reply: Call -> Reply,
                                            start: bool, on: bool)
    requires n <= |calls| && |calls| == |calls'|
    requires forall i | 0 <= i < n :: calls[i].on == calls'[i].on && (reply(calls[i]).Done? <==> reply(calls'[i]).Done?)
    ensures Assured(calls, n, reply, start, on) ==> LastSet(calls', n, reply, start) == on
    ensures (forall i | 0 <= i < n ::
               reply(calls'[i]).Done? || reply(calls'[i]) == WorstReply(FailedAfterEffect, calls'[i].on, on))
      ==> (LastSet(calls', n, reply, start) == on ==> Assured(calls, n, reply, start, on))
  {
    if n > 0 {
      AssuredStep(calls, n, reply, start, on);
      AssuredIsCertain(calls, calls', n - 1, reply, start, on);
      hide Assured;
    } else if start == on {
      assert KnownSince(calls, 0, 0, reply, start, on);
    }
  }

  /** From what the calls return alone: a flag agrees with the published state, however the calls that failed
      may have gone, if and only if some call has succeeded in setting it so (or it was so at the start) and
      every call since has asked for the same. */
  lemma AgreementIsAssuredIff(discoverable: bool, pairable: bool, first: Timed, script: seq<Timed>)
    ensures var initial := Initial(discoverable, pairable, first);
      var s, calls := Run(initial, script), Calls(initial, first, script);
      && ((forall first', script' | SameReturns(first, first') && AllSameReturns(script, script') ::
             Run(Initial(discoverable, pairable, first'), script').discoverable.on == s.open)
          <==> Assured(calls, |calls|, DiscoverableReply, discoverable, s.open))
      && ((forall first', script' | SameReturns(first, first') && AllSameReturns(script, script') ::
             Run(Initial(discoverable, pairable, first'), script').pairable.on == s.open)
          <==> Assured(calls, |calls|, PairableReply, pairable, s.open))
  {
    hide Initial, Run, Calls, LastSet, Assured;
    var initial := Initial(discoverable, pairable, first);
    var s, calls := Run(initial, script), Calls(initial, first, script);
    forall first', script' | SameReturns(first, first') && AllSameReturns(script, script')
      ensures var s' := Run(Initial(discoverable, pairable, first'), script');
        && (Assured(calls, |calls|, DiscoverableReply, discoverable, s.open) ==> s'.discoverable.on == s.open)
        && (Assured(calls, |calls|, PairableReply, pairable, s.open) ==> s'.pairable.on == s.open)
    {
      EffectsOf(discoverable, pairable, first, script, first', script');
    }
    var first', script' := Worst(first, false, s.open), WorstScript(script, s.open);
    assert SameReturns(first, first') && AllSameReturns(script, script');
    hide AllSameReturns, SameReturns;
    EffectsOf(discoverable, pairable, first, script, first', script');
    WorstScriptMakesWorstCalls(discoverable, pairable, first, script, s.open);
  }

  /** What one way for the failed calls to have gone tells. */
  lemma EffectsOf(discoverable: bool, pairable: bool, first: Timed, script: seq<Timed>,
                  first': Timed, script': seq<Timed>)
    requires SameReturns(first, first') && AllSameReturns(script, script')
    ensures var initial, initial' := Initial(discoverable, pairable, first), Initial(discoverable, pairable, first');
      var s, calls := Run(initial, script), Calls(initial, first, script);
      var s', calls' := Run(initial', script'), Calls(initial', first', script');
      && s'.open == s.open
      && (Assured(calls, |calls|, DiscoverableReply, discoverable, s.open) ==> s'.discoverable.on == s.open)
      && (Assured(calls, |calls|, PairableReply, pairable, s.open) ==> s'.pairable.on == s.open)
      && (WorstCalls(calls', s.open) && s'.discoverable.on == s.open ==>
            Assured(calls, |calls|, DiscoverableReply, discoverable, s.open))
      && (WorstCalls(calls', s.open) && s'.pairable.on == s.open ==>
            Assured(calls, |calls|, PairableReply, pairable, s.open))
  {
    hide Initial, Run, Calls, LastSet, Assured;
    var initial, initial' := Initial(discoverable, pairable, first), Initial(discoverable, pairable, first');
    var s, calls := Run(initial, script), Calls(initial, first, script);
    var calls' := Calls(initial', first', script');
    RepliesDoNotSteer(discoverable, pairable, first, script, first', script');
    AdapterFollows(discoverable, pairable, first', script');
    assert forall i | 0 <= i < |calls| :: SameCall(calls[i], calls'[i]);
    AssuredIsCertain(calls, calls', |calls|, DiscoverableReply, discoverable, s.open);
    AssuredIsCertain(calls, calls', |calls|, PairableReply, pairable, s.open);
  }

  // ---- How it stays on --------------------------------------------------------------------------

  /** A window opened from the web, whatever duration is asked for, that expires with failing calls. */
  function OpenedAndExpired(at: nat, seconds: Option<nat>, opening: Reply): seq<Timed> {
    var duration := OpenCommand(seconds);
    [Timed(at, Open(duration), opening, Done), Timed(at + duration, Expired, FailedWithoutEffect, FailedWithoutEffect)]
  }

  lemma OpenedAndExpiredRuns(first: Timed, at: nat, seconds: Option<nat>, opening: Reply)
    requires first.discoverable.Done? && first.pairable.Done? && first.at <= at
    ensures var initial, script := Initial(false, false, first), OpenedAndExpired(at, seconds, opening);
      var s := Run(initial, script);
      && Timely(initial, script) && FromTheWeb(script)
      && !s.open && s.phase.Closed? && s.discoverable.on == TakesEffect(opening) && s.pairable.on
  {
    var duration := OpenCommand(seconds);
    var initial, script := Initial(false, false, first), OpenedAndExpired(at, seconds, opening);
    var open, expire := script[0], script[1];
    assert script == [open, expire] && script[..1] == [open] && [open][..0] == [] && script[..0] == [];
    assert Run(initial, [open]) == Step(initial, open);
    assert Run(initial, script) == Step(Run(initial, [open]), expire);
    assert Admits(initial, open) && Admits(Run(initial, [open]), expire);
    hide OpenCommand, Run, Step, Admits;
  }

  /** A close can leave the adapter discoverable; and that even when no call to make it so has ever succeeded,
      as one may have failed after taking effect. */
  lemma FailedCloseLeavesItOn(first: Timed, at: nat, seconds: Option<nat>)
    requires first.discoverable.Done? && first.pairable.Done? && first.at <= at
    ensures forall opening: Reply | opening == Done || opening == FailedAfterEffect ::
      var initial, script := Initial(false, false, first), OpenedAndExpired(at, seconds, opening);
      var s := Run(initial, script);
      && Timely(initial, script) && FromTheWeb(script)
      && !s.open && s.phase.Closed? && s.discoverable.on && s.pairable.on
  {
    OpenedAndExpiredRuns(first, at, seconds, Done);
    OpenedAndExpiredRuns(first, at, seconds, FailedAfterEffect);
    hide Initial, Run, OpenedAndExpired, Timely, FromTheWeb;
  }
}
