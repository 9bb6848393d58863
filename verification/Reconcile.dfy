/** The reconcile loop: graph events are debounced into bring-ups of the desired state. */
module Reconcile {
  import opened Wrappers

  /** Milliseconds. */
  const DEBOUNCE: nat := 200

  /** What the loop's selects come up with, and the changes of the desired route in between. */
  datatype Outcome = GraphEvent | SourceGone | TimerFires | BringUpDone | Shutdown | RouteSet(route: string)

  datatype Timed = Timed(at: nat, what: Outcome)

  /** What the loop did: events taken from the queue, and bring-ups started. A bring-up is the last one when
      it was started because the event source was gone. */
  datatype Entry = Dequeued(at: nat) | Started(at: nat, route: string, last: bool)

  datatype Phase = Waiting | Window(deadline: nat) | BringingUp | Stopped(byShutdown: bool)

  datatype State = State(phase: Phase, now: nat, gone: bool, route: string, log: seq<Entry>)

  // ---- Specification ----------------------------------------------------------------------------

  function Initial(route: string): State {
    State(Waiting, 0, false, route, [])
  }

  function BringUp(s: State, at: nat, gone: bool): State {
    s.(phase := BringingUp, now := at, gone := gone, log := s.log + [Started(at, s.route, gone)])
  }

  function Step(s: State, step: Timed): State {
    if s.phase.Stopped? then s
    else
      match step.what
      case RouteSet(route) => s.(now := step.at, route := route)
      case Shutdown => s.(now := step.at, phase := Stopped(true))
      case GraphEvent =>
        if s.phase.BringingUp? then s
        else
          s.(now := step.at,
             phase := if s.phase.Waiting? then Window(step.at + DEBOUNCE) else s.phase,
             log := s.log + [Dequeued(step.at)])
      case SourceGone =>
        if s.phase.Waiting? then s.(now := step.at, gone := true, phase := Stopped(false))
        else if s.phase.Window? then BringUp(s, step.at, true)
        else s
      case TimerFires => if s.phase.Window? then BringUp(s, step.at, s.gone) else s
      case BringUpDone => if s.phase.BringingUp? then s.(now := step.at, phase := Waiting) else s
  }

  function Run(route: string, script: seq<Timed>): State {
    if script == [] then Initial(route)
    else Step(Run(route, script[..|script| - 1]), script[|script| - 1])
  }

  /** What the selects can come up with: the timer wins over the queue from its deadline on, and the loop is
      woken at the deadline; a source that is gone stays gone. */
  predicate Admits(s: State, step: Timed) {
    && step.at >= s.now
    && match s.phase
       case Waiting => step.what.GraphEvent? ==> !s.gone
       case Window(deadline) =>
         && step.at <= deadline
         && (step.what.TimerFires? ==> step.at == deadline)
         && (step.what.GraphEvent? || step.what.SourceGone? ==> step.at < deadline)
       case _ => true
  }

  ghost predicate Timely(route: string, script: seq<Timed>) {
    forall i | 0 <= i < |script| :: Admits(Run(route, script[..i]), script[i])
  }

  // ---- The loop ---------------------------------------------------------------------------------

  /** The open window: takes events off the queue up to its deadline, or to the end of the source. `start`
      outcomes have been used. */
  method DrainWindow(initial: string, script: seq<Timed>, start: nat, s0: State) returns (i: nat, s: State)
    requires start <= |script| && Run(initial, script[..start]) == s0 && s0.phase.Window?
    ensures start <= i <= |script| && Run(initial, script[..i]) == s
    ensures s.phase.BringingUp? || s.phase == Stopped(true) || (i == |script| && s.phase == s0.phase)
  {
    i, s := start, s0;
    while i < |script|
      invariant start <= i <= |script| && Run(initial, script[..i]) == s && s.phase == s0.phase
    {
      var at := script[i].at;
      i := i + 1;
      assert script[..i][..i - 1] == script[..i - 1];
      match script[i - 1].what {
        case Shutdown => return i, s.(now := at, phase := Stopped(true));
        case TimerFires => return i, BringUp(s, at, s.gone);
        case SourceGone => return i, BringUp(s, at, true);
        case GraphEvent => s := s.(now := at, log := s.log + [Dequeued(at)]);
        case RouteSet(route) => s := s.(now := at, route := route);
        case BringUpDone =>
      }
    }
  }

  /** The bring-up, raced against shutdown. */
  method AwaitBringUp(initial: string, script: seq<Timed>, start: nat, s0: State) returns (i: nat, s: State)
    requires start <= |script| && Run(initial, script[..start]) == s0 && s0.phase.BringingUp?
    ensures start <= i <= |script| && Run(initial, script[..i]) == s
    ensures s.phase.Waiting? || s.phase == Stopped(true) || (i == |script| && s.phase == s0.phase)
  {
    i, s := start, s0;
    while i < |script|
      invariant start <= i <= |script| && Run(initial, script[..i]) == s && s.phase == s0.phase
    {
      var at := script[i].at;
      i := i + 1;
      assert script[..i][..i - 1] == script[..i - 1];
      match script[i - 1].what {
        case Shutdown => return i, s.(now := at, phase := Stopped(true));
        case BringUpDone => return i, s.(now := at, phase := Waiting);
        case RouteSet(route) => s := s.(now := at, route := route);
        case _ =>
      }
    }
  }

  /** Runs on the given outcomes until it returns or they are used up. */
  method ReconcileLoop(initial: string, script: seq<Timed>) returns (s: State)
    ensures s == Run(initial, script)
  {
    var i := 0;
    s := Initial(initial);
    while i < |script|
      invariant i <= |script| && Run(initial, script[..i]) == s
      invariant s.phase.Waiting? || i == |script|
    {
      // Wait for the first event.
      var at := script[i].at;
      i := i + 1;
      assert script[..i][..i - 1] == script[..i - 1];
      match script[i - 1].what {
        case Shutdown => s := s.(now := at, phase := Stopped(true));
        case SourceGone => s := s.(now := at, gone := true, phase := Stopped(false));
        case RouteSet(route) => s := s.(now := at, route := route);
        case TimerFires | BringUpDone =>
        case GraphEvent =>
          s := s.(now := at, phase := Window(at + DEBOUNCE), log := s.log + [Dequeued(at)]);
          i, s := DrainWindow(initial, script, i, s);
          if s.phase.BringingUp? {
            i, s := AwaitBringUp(initial, script, i, s);
          }
      }
      if s.phase.Stopped? {
        StoppedStays(initial, script, i);
        return;
      }
    }
    assert script[..i] == script;
  }

  lemma {:induction false} StoppedStays(route: string, script: seq<Timed>, i: nat)
    requires i <= |script| && Run(route, script[..i]).phase.Stopped?
    ensures Run(route, script) == Run(route, script[..i])
    decreases |script|
  {
    if i == |script| {
      assert script[..i] == script;
    } else {
      var before := script[..|script| - 1];
      assert before[..i] == script[..i];
      StoppedStays(route, before, i);
    }
  }

  // ---- Outcome by outcome -----------------------------------------------------------------------

  lemma RunOne(route: string, script: seq<Timed>, step: Timed)
    ensures Run(route, script + [step]) == Step(Run(route, script), step)
  {
    assert (script + [step])[..|script|] == script;
  }

  /** What each outcome does to a loop that has not stopped: a change of the route is noted; a shutdown stops it at
      once; an event opens a window of 200 ms or falls into the open one, and waits in the queue during a
      bring-up; the end of the source stops a waiting loop and cuts a window short; the end of the window starts
      a bring-up with the current route; and after a bring-up the loop waits again. */
  lemma OutcomeTaken(route: string, script: seq<Timed>, step: Timed)
    ensures Run(route, []) == State(Waiting, 0, false, route, [])
    ensures var s, s', at := Run(route, script), Run(route, script + [step]), step.at;
      if s.phase.Stopped? then s' == s
      else
        match step.what
        case RouteSet(r) => s' == s.(now := at, route := r)
        case Shutdown => s' == s.(now := at, phase := Stopped(true))
        case GraphEvent =>
          if s.phase == BringingUp then s' == s
          else s' == s.(now := at, log := s.log + [Dequeued(at)],
                        phase := if s.phase == Waiting then Window(at + 200) else s.phase)
        case SourceGone =>
          if s.phase == Waiting then s' == s.(now := at, gone := true, phase := Stopped(false))
          else if s.phase == BringingUp then s' == s
          else s' == s.(now := at, gone := true, phase := BringingUp, log := s.log + [Started(at, s.route, true)])
        case TimerFires =>
          if s.phase == Waiting || s.phase == BringingUp then s' == s
          else s' == s.(now := at, phase := BringingUp, log := s.log + [Started(at, s.route, s.gone)])
        case BringUpDone => s' == if s.phase == BringingUp then s.(now := at, phase := Waiting) else s
  {
    RunOne(route, script, step);
    assert Run(route, []) == State(Waiting, 0, false, route, []);
    hide Run;
  }

  // ---- What every run keeps ---------------------------------------------------------------------

  /** When the window that is open after the first n entries was opened: by the first event since the last
      start. */
  function Opened(log: seq<Entry>, n: nat): (r: int)
    requires n <= |log|
    ensures r >= -1
  {
    if n == 0 || log[n - 1].Started? then -1
    else
      var before := Opened(log, n - 1);
      if before >= 0 then before else log[n - 1].at
  }

  /** Entry k in its place: a start closes an open window, exactly at its end unless the source is gone;
      an event falls into the open window or opens one; after the last start comes nothing. */
  predicate InPlace(log: seq<Entry>, k: nat)
    requires k < |log|
  {
    Follows(log[k], if k == 0 then None else Some(log[k - 1]), Opened(log, k))
  }

  /** An entry that comes after `previous`, when a window has been open since then, if one is. */
  predicate Follows(entry: Entry, previous: Option<Entry>, since: int) {
    && (previous.Some? ==> previous.value.at <= entry.at && !(previous.value.Started? && previous.value.last))
    && match entry
       case Dequeued(at) => since >= 0 ==> at < since + 200
       case Started(at, _, last) => since >= 0 && if last then at <= since + 200 else at == since + 200
  }

  ghost predicate Disciplined(log: seq<Entry>) {
    forall k | 0 <= k < |log| :: InPlace(log, k)
  }

  ghost predicate Inv(s: State) {
    && Disciplined(s.log)
    && (s.log != [] ==> s.log[|s.log| - 1].at <= s.now)
    && (s.log != [] && s.log[|s.log| - 1].Started? && s.log[|s.log| - 1].last ==> s.gone)
    && match s.phase
       case Window(deadline) =>
         !s.gone && Opened(s.log, |s.log|) >= 0 && deadline == Opened(s.log, |s.log|) + 200 && s.now <= deadline
       case Stopped(true) => true
       case _ => Opened(s.log, |s.log|) == -1
  }

  function Last(log: seq<Entry>): Option<Entry> {
    if log == [] then None else Some(log[|log| - 1])
  }

  lemma {:induction false} OpenedOfPrefix(log: seq<Entry>, entry: Entry, n: nat)
    requires n <= |log|
    ensures Opened(log + [entry], n) == Opened(log, n)
  {
    if n > 0 {
      OpenedOfPrefix(log, entry, n - 1);
    }
  }

  lemma LogExtends(log: seq<Entry>, entry: Entry)
    requires Disciplined(log) && Follows(entry, Last(log), Opened(log, |log|))
    ensures Disciplined(log + [entry])
    ensures Opened(log + [entry], |log| + 1) ==
      if entry.Started? then -1 else if Opened(log, |log|) >= 0 then Opened(log, |log|) else entry.at
  {
    var more := log + [entry];
    OpenedOfPrefix(log, entry, |log|);
    hide Follows;
    forall k | 0 <= k < |more| ensures InPlace(more, k) {
      if k < |log| {
        OpenedOfPrefix(log, entry, k);
        assert InPlace(log, k);
      }
    }
  }

  lemma StepKeepsInv(s: State, step: Timed)
    requires Inv(s) && Admits(s, step)
    ensures Inv(Step(s, step))
  {
    hide InPlace, Disciplined, Opened;
    var s' := Step(s, step);
    if s'.log != s.log {
      var entry := s'.log[|s.log|];
      assert s'.log == s.log + [entry];
      LogExtends(s.log, entry);
    }
  }

  lemma TimelySnoc(route: string, before: seq<Timed>, last: Timed)
    requires Timely(route, before + [last])
    ensures Timely(route, before) && Admits(Run(route, before), last)
  {
    var script := before + [last];
    assert script[..|before|] == before && script[|before|] == last;
    forall i | 0 <= i < |before| ensures Admits(Run(route, before[..i]), before[i]) {
      assert before[..i] == script[..i] && before[i] == script[i];
    }
  }

  lemma {:induction false} RunKeepsInv(route: string, script: seq<Timed>)
    requires Timely(route, script)
    ensures Inv(Run(route, script))
  {
    if script != [] {
      var before := script[..|script| - 1];
      assert script == before + [script[|before|]];
      TimelySnoc(route, before, script[|before|]);
      RunKeepsInv(route, before);
      hide Inv, Timely;
      StepKeepsInv(Run(route, before), script[|before|]);
    }
  }

  // ---- The promises -----------------------------------------------------------------------------

  /** When the first bring-up from entry k on started, if there was one. */
  function NextStart(log: seq<Entry>, k: nat): Option<nat>
    requires k <= |log|
    decreases |log| - k
  {
    if k == |log| then None
    else if log[k].Started? then Some(log[k].at)
    else NextStart(log, k + 1)
  }

  /** An open window was opened by an event no later than the last entry, and after every start. */
  lemma {:induction false} OpenedWithin(log: seq<Entry>, m: nat)
    requires Disciplined(log) && 0 < m <= |log| && Opened(log, m) >= 0
    ensures Opened(log, m) <= log[m - 1].at
    ensures forall j | 0 <= j < m && log[j].Started? :: log[j].at <= Opened(log, m)
  {
    assert InPlace(log, m - 1);
    if m > 1 && Opened(log, m - 1) >= 0 {
      OpenedWithin(log, m - 1);
    } else {
      AtsGrow(log, m);
    }
  }

  lemma {:induction false} AtsGrow(log: seq<Entry>, m: nat)
    requires Disciplined(log) && 0 < m <= |log|
    ensures forall j | 0 <= j < m :: log[j].at <= log[m - 1].at
  {
    if m > 1 {
      AtsGrow(log, m - 1);
      assert InPlace(log, m - 1);
    }
  }

  lemma {:induction false} WindowCovers(log: seq<Entry>, k: nat, m: nat)
    requires Disciplined(log) && k < m <= |log|
    requires forall j | k <= j < m :: log[j].Dequeued?
    ensures 0 <= Opened(log, m) <= log[k].at <= log[m - 1].at
    ensures log[k].at < Opened(log, m) + 200
    decreases m
  {
    AtsGrow(log, m);
    if k < m - 1 {
      WindowCovers(log, k, m - 1);
    } else {
      assert InPlace(log, k);
      OpenedWithin(log, m);
    }
  }

  lemma {:induction false} StartServes(log: seq<Entry>, k: nat, m: nat)
    requires Disciplined(log) && k < m <= |log|
    requires forall j | k <= j < m :: log[j].Dequeued?
    ensures match NextStart(log, m)
      case Some(at) => log[k].at <= at <= log[k].at + 200
      case None => 0 <= Opened(log, |log|) <= log[k].at
    decreases |log| - m
  {
    WindowCovers(log, k, m);
    if m < |log| {
      assert InPlace(log, m);
      if !log[m].Started? {
        StartServes(log, k, m + 1);
      }
    }
  }

  /** Entry k, an event, is followed by a bring-up within 200 ms. It can only be missing while those 200 ms
      are not over, or because of a shutdown. */
  ghost predicate Served(s: State, k: nat)
    requires k < |s.log|
  {
    match NextStart(s.log, k)
    case Some(at) => s.log[k].at <= at <= s.log[k].at + 200
    case None =>
      || s.phase == Stopped(true)
      || (s.phase.Window? && s.now <= s.phase.deadline <= s.log[k].at + 200)
  }

  lemma EventIsServed(s: State, k: nat)
    requires Inv(s) && k < |s.log| && s.log[k].Dequeued?
    ensures Served(s, k)
  {
    StartServes(s.log, k, k + 1);
    hide InPlace, Opened;
  }

  /** Every event taken from the queue leads to a bring-up in time, however many more follow. */
  lemma EveryEventIsServed(route: string, script: seq<Timed>)
    requires Timely(route, script)
    ensures var s := Run(route, script);
      forall k | 0 <= k < |s.log| && s.log[k].Dequeued? :: Served(s, k)
  {
    RunKeepsInv(route, script);
    var s := Run(route, script);
    hide Run, Inv, Served;
    forall k | 0 <= k < |s.log| && s.log[k].Dequeued? ensures Served(s, k) {
      EventIsServed(s, k);
    }
  }

  /** While the source lives, bring-ups are at least 200 ms apart. The one after the source is gone is the
      last thing the loop does. */
  lemma StartsAreApart(route: string, script: seq<Timed>, j: nat, k: nat)
    requires Timely(route, script)
    requires var log := Run(route, script).log; j < k < |log| && log[j].Started? && log[k].Started?
    ensures var log := Run(route, script).log;
      && !log[j].last
      && (log[k].last || log[k].at >= log[j].at + 200)
      && (log[k].last ==> k == |log| - 1)
  {
    RunKeepsInv(route, script);
    var log := Run(route, script).log;
    hide Run;
    assert InPlace(log, k) && InPlace(log, j + 1);
    assert k + 1 < |log| ==> InPlace(log, k + 1);
    OpenedWithin(log, k);
  }

  /** The route that was set last. */
  function LatestRoute(route: string, script: seq<Timed>): string {
    if script == [] then route
    else
      var last := script[|script| - 1];
      if last.what.RouteSet? then last.what.route else LatestRoute(route, script[..|script| - 1])
  }

  /** The route does change while a bring-up runs; the loop follows it until it stops. */
  lemma {:induction false} RouteIsCurrent(route: string, script: seq<Timed>)
    requires !Run(route, script).phase.Stopped?
    ensures Run(route, script).route == LatestRoute(route, script)
  {
    if script != [] {
      RouteIsCurrent(route, script[..|script| - 1]);
    }
  }

  /** Each bring-up is given the route that is current when it starts. */
  lemma BringUpUsesCurrentRoute(route: string, script: seq<Timed>, step: Timed)
    requires var s, s' := Run(route, script), Run(route, script + [step]);
      s'.log != s.log && s'.log[|s'.log| - 1].Started?
    ensures var s, s' := Run(route, script), Run(route, script + [step]);
      && s'.log[..|s'.log| - 1] == s.log
      && s'.log[|s.log|].at == step.at
      && s'.log[|s.log|].route == LatestRoute(route, script)
  {
    RunSnoc(route, script, step);
    hide LatestRoute, Run;
    assert !Run(route, script).phase.Stopped?;
    RouteIsCurrent(route, script);
  }

  lemma RunSnoc(route: string, script: seq<Timed>, step: Timed)
    ensures Run(route, script + [step]) == Step(Run(route, script), step)
  {
    assert (script + [step])[..|script|] == script;
  }

  /** What is left to do after the last bring-up has been started: finish it, then find the queue ended. */
  datatype Ending = Finishing | Asking | Over

  function EndingAfter(more: seq<Timed>): Ending {
    if more == [] then Finishing
    else
      var what := more[|more| - 1].what;
      match EndingAfter(more[..|more| - 1])
      case Finishing => if what.BringUpDone? then Asking else Finishing
      case Asking => if what.SourceGone? then Over else Asking
      case Over => Over
  }

  predicate IsEnding(s: State, log: seq<Entry>, ending: Ending) {
    && s.gone && s.log == log
    && s.phase == match ending case Finishing => BringingUp case Asking => Waiting case Over => Stopped(false)
  }

  lemma EndingStep(s: State, log: seq<Entry>, more: seq<Timed>, step: Timed)
    requires IsEnding(s, log, EndingAfter(more)) && Admits(s, step) && !step.what.Shutdown?
    ensures IsEnding(Step(s, step), log, EndingAfter(more + [step]))
  {
    assert (more + [step])[..|more|] == more;
  }

  /** A source that closes in mid-window causes one more bring-up, at once and with the current route, and
      that is the last: whatever else happens, short of a shutdown, no other is started, and the loop ends
      exactly when it has finished and the queue is asked again. */
  lemma {:induction false} ClosedSourceIsServed(route: string, script: seq<Timed>, at: nat, more: seq<Timed>)
    requires Run(route, script).phase.Window?
    requires Timely(route, script + [Timed(at, SourceGone)] + more)
    requires forall i | 0 <= i < |more| :: !more[i].what.Shutdown?
    ensures IsEnding(Run(route, script + [Timed(at, SourceGone)] + more),
                     Run(route, script).log + [Started(at, LatestRoute(route, script), true)], EndingAfter(more))
    decreases |more|
  {
    var closed := script + [Timed(at, SourceGone)];
    if more == [] {
      assert closed + more == closed;
      RouteIsCurrent(route, script);
      RunSnoc(route, script, Timed(at, SourceGone));
    } else {
      hide Step, IsEnding, EndingAfter, Run, Admits, Timely, LatestRoute;
      var before, last := more[..|more| - 1], more[|more| - 1];
      assert more == before + [last];
      LastOfConcat(closed, more);
      TimelySnoc(route, closed + before, last);
      ClosedSourceIsServed(route, script, at, before);
      RunSnoc(route, closed + before, last);
      var log := Run(route, script).log + [Started(at, LatestRoute(route, script), true)];
      EndingStep(Run(route, closed + before), log, before, last);
    }
  }
}
