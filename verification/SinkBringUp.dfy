/** Bringing up the capture sink step by step: the attempts, the pauses between them, and what is reported. */
module SinkBringUp {
  import opened Wrappers
  import opened Text
  import opened NodeToken
  import opened ModuleTables
  import opened NullSink

  // ---- Attempts ---------------------------------------------------------------------------------

  /** Attempt number k is answered "not ready", as all are once the answers are used up. */
  predicate NotReadyAt(loads: seq<LoadAnswer>, k: nat) {
    k == 0 || k > |loads| || loads[k - 1].NotReady?
  }

  lemma {:induction false} LastAttemptFrom(loads: seq<LoadAnswer>, attempt: nat)
    requires 1 <= attempt <= 10
    ensures var n := LastAttempt(loads, attempt);
      && attempt <= n <= 10
      && (forall k | attempt <= k < n :: NotReadyAt(loads, k))
      && (n < 10 ==> !NotReadyAt(loads, n))
    decreases 10 - attempt
  {
    if AnswerTo(loads, attempt).NotReady? && attempt < 10 {
      LastAttemptFrom(loads, attempt + 1);
    }
  }

  lemma {:induction false} PausesAre(n: nat)
    requires 1 <= n <= 10
    ensures WaitBefore(n) == if n <= 6 then n * (n - 1) / 2 else 15 + 5 * (n - 6)
  {
    if n > 1 {
      PausesAre(n - 1);
    }
    assert n in {1, 2, 3, 4, 5, 6, 7, 8, 9, 10};
  }

  /** The last attempt is the first that is answered otherwise than "not ready", or else the tenth; its answer
      counts; and before it the pauses were 1, 2, 3, 4, 5, 5, ... seconds. */
  lemma AttemptsAre(loads: seq<LoadAnswer>)
    ensures var n := LastAttempt(loads, 1);
      && 1 <= n <= 10
      && (forall k | 1 <= k < n :: NotReadyAt(loads, k))
      && (n < 10 ==> !NotReadyAt(loads, n))
      && Final(loads) == (if n <= |loads| then loads[n - 1] else NotReady(None))
      && WaitBefore(n) == if n <= 6 then n * (n - 1) / 2 else 15 + 5 * (n - 6)
  {
    LastAttemptFrom(loads, 1);
    PausesAre(LastAttempt(loads, 1));
    hide LastAttempt, WaitBefore;
  }

  /** The module that an attempt loads: also one that is not ready, or gets no answer, if it took effect. */
  function LoadedRow(sink: string, description: string, answer: LoadAnswer): seq<Row> {
    var argument := "sink_name=" + sink + " sink_properties=device.description=" + description;
    match answer
    case Loaded(id, _, more) => [Row(id, "module-null-sink", argument, more)]
    case NotReady(Some(t)) => [Row(t.id, "module-null-sink", argument, t.more)]
    case Dead(Some(t)) => [Row(t.id, "module-null-sink", argument, t.more)]
    case _ => []
  }

  function LoadedRows(sink: string, description: string, loads: seq<LoadAnswer>, n: nat): seq<Row> {
    if n == 0 then []
    else LoadedRows(sink, description, loads, n - 1)
         + (if n <= |loads| then LoadedRow(sink, description, loads[n - 1]) else [])
  }

  /** The attempts add these modules at the end of the table, in order, and change nothing else. */
  lemma {:induction false} AttemptsAppend(rows: seq<Row>, sink: string, description: string, loads: seq<LoadAnswer>,
                                          n: nat)
    ensures AfterAttempts(rows, sink, description, loads, n) == rows + LoadedRows(sink, description, loads, n)
  {
    if n > 0 {
      AttemptsAppend(rows, sink, description, loads, n - 1);
      OneLoad(AfterAttempts(rows, sink, description, loads, n - 1), sink, description, AnswerTo(loads, n));
      var before, last := LoadedRows(sink, description, loads, n - 1), LoadedRow(sink, description, AnswerTo(loads, n));
      hide AfterLoad, LoadedRow;
      Associative(rows, before, last);
    }
  }

  lemma OneLoad(rows: seq<Row>, sink: string, description: string, answer: LoadAnswer)
    ensures AfterLoad(rows, sink, description, answer) == rows + LoadedRow(sink, description, answer)
    ensures LoadedRow(sink, description, NotReady(None)) == []
  {
    var argument := "sink_name=" + sink + " sink_properties=device.description=" + description;
    assert NullSinkArgument(sink, description) == argument;
    assert rows + [] == rows;
  }

  // ---- What is reported -------------------------------------------------------------------------

  /** Creating the sink: a server that is dead or does not answer is reported; a sink that is not in the listing of
      the sinks is missing if its load worked and not created otherwise; one that is there is ready, under the id
      its load gave if that can be read, and else under the one of the module first mentioned in a new listing. */
  lemma CreateReportsWhatHappened(rows: seq<Row>, sink: string, description: string, a: Answers)
    ensures var n := LastAttempt(a.loads, 1);
      var (outcome, rows') := Create(rows, sink, description, a);
      var last := if n <= |a.loads| then a.loads[n - 1] else NotReady(None);
      && rows' == rows + LoadedRows(sink, description, a.loads, n)
      && outcome ==
         if last.Dead? || a.verify == NoAnswer then CouldNotRun
         else if a.verify == NonZero || !Contains(a.verify.stdout, sink) then
           if last.Loaded? then LoadedButMissing else NotCreated
         else if last.Loaded? then
           Ready(if last.readable then Some(last.id) else FindExisting(rows', sink, a.relisted), false)
         else Ready(FindExisting(rows', sink, a.relisted), true)
  {
    AttemptsAppend(rows, sink, description, a.loads, LastAttempt(a.loads, 1));
    hide LastAttempt, AfterAttempts, LoadedRows, Contains, FindExisting;
  }

  /** Bringing up the sink: the module the verbose listing mentions first, if one is given, is reused as it is,
      unless the sinks are listed without the name; then it is unloaded, and in that case, and when nothing is
      mentioned, the sink is created. */
  lemma EnsureReportsWhatHappened(rows: seq<Row>, sink: string, description: string, a: Answers)
    requires Table(rows)
    ensures Ensure(rows, sink, description, a) ==
      match (if a.listed == Told then FirstMention(rows, sink) else None)
      case None => Create(rows, sink, description, a)
      case Some(id) =>
        match a.sinks
        case Output(stdout) =>
          if Contains(stdout, sink) then (Ready(Some(id), true), rows)
          else Create(if a.unloads then RemoveId(rows, id) else rows, sink, description, a)
        case _ => (Ready(Some(id), true), rows)
  {
    VerboseParserIsRight(rows, sink);
    hide ParseVerbose, RenderVerbose, FirstMention, Create, Contains, RemoveId;
  }
}
