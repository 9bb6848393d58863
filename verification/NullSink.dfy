/** Bringing up the capture sink: reuse the module that is there or create one, then sweep duplicates. */
module NullSink {
  import opened Wrappers
  import opened Text
  import opened NodeToken
  import opened ModuleTables

  const MAX_ATTEMPTS: nat := 10

  // ---- The server -------------------------------------------------------------------------------

  /** How a query is answered: with output, with a non-zero exit, or not at all. */
  datatype Query = Output(stdout: string) | NonZero | NoAnswer

  /** A listing of the modules is truthful when it is given. */
  datatype Listing = Told | Refused | Unreachable

  /** A module that was loaded, with the further lines of its verbose entry. */
  datatype Taken = Taken(id: u32, more: seq<string>)

  /** How a load goes. One that is not ready, or gets no answer, may have taken effect all the same. */
  datatype LoadAnswer =
    | Loaded(id: u32, readable: bool, more: seq<string>)
    | NotReady(lost: Option<Taken>)
    | Dead(lost: Option<Taken>)

  /** What the server will answer to the commands of one bring-up, in the order they can come. Of the first
      unload only the effect matters. */
  datatype Answers = Answers(
    listed: Listing,
    sinks: Query,
    unloads: bool,
    loads: seq<LoadAnswer>,
    verify: Query,
    relisted: Listing)

  /** How the sweep goes: whether the short listing is given, which modules do not unload, and which do but
      with a failure reported. */
  datatype Sweeping = Sweeping(listed: bool, stuck: set<nat>, unconfirmed: set<nat>)

  function RemoveId(rows: seq<Row>, id: nat): seq<Row> {
    if rows == [] then []
    else (if rows[0].id == id then [] else [rows[0]]) + RemoveId(rows[1..], id)
  }

  function NullSinkArgument(sink: string, description: string): string {
    SinkArgument(sink) + " sink_properties=device.description=" + description
  }

  function NewRow(sink: string, description: string, t: Taken): Row {
    Row(t.id, NULL_SINK, NullSinkArgument(sink, description), t.more)
  }

  function Effect(answer: LoadAnswer): Option<Taken> {
    match answer
    case Loaded(id, _, more) => Some(Taken(id, more))
    case NotReady(lost) => lost
    case Dead(lost) => lost
  }

  function AfterLoad(rows: seq<Row>, sink: string, description: string, answer: LoadAnswer): seq<Row> {
    match Effect(answer) case None => rows case Some(t) => rows + [NewRow(sink, description, t)]
  }

  class PulseServer {
    var rows: seq<Row>

    method ListModules(how: Listing) returns (reply: Query)
      ensures reply == match how case Told => Output(RenderVerbose(rows)) case Refused => NonZero
                                 case Unreachable => NoAnswer
    {
      match how {
        case Told => reply := Output(RenderVerbose(rows));
        case Refused => reply := NonZero;
        case Unreachable => reply := NoAnswer;
      }
    }

    method LoadNullSink(sink: string, description: string, answer: LoadAnswer)
      modifies this
      ensures rows == AfterLoad(old(rows), sink, description, answer)
    {
      match Effect(answer) {
        case None =>
        case Some(t) => rows := rows + [NewRow(sink, description, t)];
      }
    }

    method UnloadModule(id: nat, takesEffect: bool)
      modifies this
      ensures rows == if takesEffect then RemoveId(old(rows), id) else old(rows)
    {
      if takesEffect {
        rows := RemoveId(rows, id);
      }
    }
  }

  // ---- Specification ----------------------------------------------------------------------------

  datatype Outcome =
    | Ready(moduleId: Option<nat>, reused: bool)
    | CouldNotRun
    | LoadedButMissing
    | NotCreated

  function FindExisting(rows: seq<Row>, sink: string, how: Listing): Option<nat> {
    if how == Told then ParseVerbose(RenderVerbose(rows), sink) else None
  }

  /** Sleep after failed attempt number n, in seconds: linear, capped at 5, none after the last. */
  function BackoffAfter(n: nat): nat {
    if n >= MAX_ATTEMPTS then 0 else Min(n, 5)
  }

  function AnswerTo(loads: seq<LoadAnswer>, attempt: nat): LoadAnswer
    requires attempt >= 1
  {
    if attempt <= |loads| then loads[attempt - 1] else NotReady(None)
  }

  /** The number of the last attempt, from number `attempt` on: the first with an answer other than "not
      ready", or the tenth. */
  function LastAttempt(loads: seq<LoadAnswer>, attempt: nat): (n: nat)
    requires 1 <= attempt <= MAX_ATTEMPTS
    ensures attempt <= n <= MAX_ATTEMPTS
    decreases MAX_ATTEMPTS - attempt
  {
    if !AnswerTo(loads, attempt).NotReady? || attempt == MAX_ATTEMPTS then attempt
    else LastAttempt(loads, attempt + 1)
  }

  function Final(loads: seq<LoadAnswer>): LoadAnswer {
    AnswerTo(loads, LastAttempt(loads, 1))
  }

  /** The table after the first n attempts. */
  function AfterAttempts(rows: seq<Row>, sink: string, description: string, loads: seq<LoadAnswer>, n: nat): seq<Row> {
    if n == 0 then rows
    else AfterLoad(AfterAttempts(rows, sink, description, loads, n - 1), sink, description, AnswerTo(loads, n))
  }

  /** The pauses before attempt number n. */
  function WaitBefore(n: nat): nat {
    if n <= 1 then 0 else WaitBefore(n - 1) + BackoffAfter(n - 1)
  }

  /** Create and verify. */
  function Create(rows: seq<Row>, sink: string, description: string, a: Answers): (Outcome, seq<Row>) {
    var last := Final(a.loads);
    var rows' := AfterAttempts(rows, sink, description, a.loads, LastAttempt(a.loads, 1));
    if last.Dead? || a.verify == NoAnswer then (CouldNotRun, rows')
    else if a.verify.Output? && Contains(a.verify.stdout, sink) then
      var id := if last.Loaded? && last.readable then Some(last.id as nat) else FindExisting(rows', sink, a.relisted);
      (Ready(id, !last.Loaded?), rows')
    else (if last.Loaded? then LoadedButMissing else NotCreated, rows')
  }

  /** A module record was found, and its node is verified to be missing. */
  predicate Stale(rows: seq<Row>, sink: string, a: Answers) {
    FindExisting(rows, sink, a.listed).Some? && a.sinks.Output? && !Contains(a.sinks.stdout, sink)
  }

  /** The table when the first load is attempted. */
  function AtLoad(rows: seq<Row>, sink: string, a: Answers): seq<Row> {
    if Stale(rows, sink, a) && a.unloads then RemoveId(rows, FindExisting(rows, sink, a.listed).value) else rows
  }

  function Ensure(rows: seq<Row>, sink: string, description: string, a: Answers): (Outcome, seq<Row>) {
    var existing := FindExisting(rows, sink, a.listed);
    if existing.None? || Stale(rows, sink, a) then Create(AtLoad(rows, sink, a), sink, description, a)
    else (Ready(existing, true), rows)
  }

  /** Unloads every id but the canonical one; counts the unloads that are confirmed. */
  function Sweep(rows: seq<Row>, ids: seq<nat>, canonical: nat, how: Sweeping): (seq<Row>, nat)
    decreases |ids|
  {
    if ids == [] then (rows, 0)
    else if ids[0] == canonical || ids[0] in how.stuck then Sweep(rows, ids[1..], canonical, how)
    else
      Swept(Sweep(RemoveId(rows, ids[0]), ids[1..], canonical, how), if ids[0] in how.unconfirmed then 0 else 1)
  }

  function Swept(result: (seq<Row>, nat), before: nat): (seq<Row>, nat) {
    (result.0, result.1 + before)
  }

  // ---- The operations ---------------------------------------------------------------------------

  method FindExistingModule(server: PulseServer, sink: string, how: Listing) returns (id: Option<nat>)
    ensures id == FindExisting(server.rows, sink, how)
  {
    hide ParseVerbose, RenderVerbose;
    var reply := server.ListModules(how);
    if !reply.Output? {
      return None;
    }
    id := ParseNullSinkModuleId(reply.stdout, sink);
  }

  /** The retry loop: at most ten attempts, with a growing pause between them. */
  method LoadWithRetry(server: PulseServer, sink: string, description: string, loads: seq<LoadAnswer>)
    returns (last: LoadAnswer, waited: nat)
    modifies server
    ensures last == Final(loads) && waited == WaitBefore(LastAttempt(loads, 1))
    ensures server.rows == AfterAttempts(old(server.rows), sink, description, loads, LastAttempt(loads, 1))
  {
    hide AfterLoad, AnswerTo;
    last, waited := NotReady(None), 0;
    var attempt: nat := 1;
    while attempt <= MAX_ATTEMPTS
      invariant 1 <= attempt <= MAX_ATTEMPTS + 1
      invariant server.rows == AfterAttempts(old(server.rows), sink, description, loads, attempt - 1)
      invariant if attempt <= MAX_ATTEMPTS then LastAttempt(loads, attempt) == LastAttempt(loads, 1)
                else LastAttempt(loads, 1) == MAX_ATTEMPTS && last == AnswerTo(loads, MAX_ATTEMPTS)
      invariant waited == WaitBefore(Min(attempt, MAX_ATTEMPTS))
    {
      last := AnswerTo(loads, attempt);
      server.LoadNullSink(sink, description, last);
      if !last.NotReady? {
        return;
      }
      if attempt < MAX_ATTEMPTS {
        waited := waited + BackoffAfter(attempt);
      }
      attempt := attempt + 1;
    }
  }

  method CreateNullSink(server: PulseServer, sink: string, description: string, a: Answers)
    returns (outcome: Outcome)
    modifies server
    ensures (outcome, server.rows) == Create(old(server.rows), sink, description, a)
  {
    hide AfterAttempts, Final, LastAttempt, FindExisting, Contains, WaitBefore;
    var last, _ := LoadWithRetry(server, sink, description, a.loads);
    if last.Dead? || a.verify == NoAnswer {
      return CouldNotRun;
    }
    if a.verify.Output? && Contains(a.verify.stdout, sink) {
      var id: Option<nat>;
      if last.Loaded? && last.readable {
        id := Some(last.id);
      } else {
        id := FindExistingModule(server, sink, a.relisted);
      }
      return Ready(id, !last.Loaded?);
    }
    outcome := if last.Loaded? then LoadedButMissing else NotCreated;
  }

  /** A module record alone does not prove that the sink's node is live: a record whose node is verified
      missing is unloaded first; one whose node cannot be checked is kept. */
  method EnsureNullSink(server: PulseServer, sink: string, description: string, a: Answers)
    returns (outcome: Outcome)
    modifies server
    ensures (outcome, server.rows) == Ensure(old(server.rows), sink, description, a)
  {
    hide FindExisting, Create, Contains;
    var existing := FindExistingModule(server, sink, a.listed);
    match existing {
      case None =>
      case Some(id) =>
        if a.sinks.Output? && !Contains(a.sinks.stdout, sink) {
          server.UnloadModule(id, a.unloads);
        } else {
          return Ready(Some(id), true);
        }
    }
    outcome := CreateNullSink(server, sink, description, a);
  }

  method SweepDuplicateNullSinks(isName: NameClass, server: PulseServer, sink: string, canonical: nat,
                                 how: Sweeping) returns (unloaded: nat)
    modifies server
    ensures (server.rows, unloaded) ==
      if how.listed then Sweep(old(server.rows), ParseShort(isName, RenderShort(old(server.rows)), sink), canonical, how)
      else (old(server.rows), 0)
  {
    unloaded := 0;
    if !how.listed {
      return;
    }
    var ids := ParseAllNullSinkModuleIds(isName, RenderShort(server.rows), sink);
    unloaded := UnloadOthers(server, ids, canonical, how);
  }

  method UnloadOthers(server: PulseServer, ids: seq<nat>, canonical: nat, how: Sweeping)
    returns (unloaded: nat)
    modifies server
    ensures (server.rows, unloaded) == Sweep(old(server.rows), ids, canonical, how)
  {
    hide RemoveId;
    unloaded := 0;
    for i := 0 to |ids|
      invariant Sweep(old(server.rows), ids, canonical, how)
        == Swept(Sweep(server.rows, ids[i..], canonical, how), unloaded)
    {
      assert ids[i..][1..] == ids[i + 1..];
      if ids[i] != canonical {
        server.UnloadModule(ids[i], ids[i] !in how.stuck);
        if ids[i] !in how.stuck && ids[i] !in how.unconfirmed {
          unloaded := unloaded + 1;
        }
      }
    }
  }

  lemma {:induction false} PausesAreBounded(n: nat)
    ensures n <= 6 ==> WaitBefore(n) <= 15
    ensures 6 <= n <= MAX_ATTEMPTS ==> WaitBefore(n) <= 15 + 5 * (n - 6)
  {
    if n > 1 {
      PausesAreBounded(n - 1);
    }
    assert WaitBefore(2) == 1 && WaitBefore(4) == 6 && WaitBefore(6) == 15;
  }

  /** At most ten attempts and 35 seconds of waiting. */
  lemma WaitsAtMost35Seconds(loads: seq<LoadAnswer>)
    ensures WaitBefore(LastAttempt(loads, 1)) <= 35
  {
    PausesAreBounded(LastAttempt(loads, 1));
  }

  // ---- Tables and what removing does ------------------------------------------------------------

  /** A table as the server keeps it. */
  ghost predicate Table(rows: seq<Row>) {
    Renderable(rows) && DistinctIds(rows)
  }

  /** The modules that are not sinks of that name. */
  ghost function Others(isName: NameClass, rows: seq<Row>, sink: string): seq<Row> {
    if rows == [] then []
    else (if IsSink(isName, rows[0], sink) then [] else [rows[0]]) + Others(isName, rows[1..], sink)
  }

  lemma {:induction false} ConcatOthers(isName: NameClass, a: seq<Row>, b: seq<Row>, sink: string)
    ensures Others(isName, a + b, sink) == Others(isName, a, sink) + Others(isName, b, sink)
  {
    hide IsSink;
    if a == [] {
      assert a + b == b;
    } else {
      assert (a + b)[1..] == a[1..] + b;
      var first := if IsSink(isName, a[0], sink) then [] else [a[0]];
      assert Others(isName, a + b, sink) == first + Others(isName, a[1..] + b, sink);
      assert Others(isName, a, sink) == first + Others(isName, a[1..], sink);
      hide Others;
      ConcatOthers(isName, a[1..], b, sink);
      Associative(first, Others(isName, a[1..], sink), Others(isName, b, sink));
    }
  }

  lemma {:induction false} ConcatSinkIds(isName: NameClass, a: seq<Row>, b: seq<Row>, sink: string)
    ensures SinkIds(isName, a + b, sink) == SinkIds(isName, a, sink) + SinkIds(isName, b, sink)
  {
    hide IsSink;
    if a == [] {
      assert a + b == b;
    } else {
      assert (a + b)[1..] == a[1..] + b;
      var first: seq<nat> := if IsSink(isName, a[0], sink) then [a[0].id] else [];
      assert SinkIds(isName, a + b, sink) == first + SinkIds(isName, a[1..] + b, sink);
      assert SinkIds(isName, a, sink) == first + SinkIds(isName, a[1..], sink);
      hide SinkIds;
      ConcatSinkIds(isName, a[1..], b, sink);
      Associative(first, SinkIds(isName, a[1..], sink), SinkIds(isName, b, sink));
    }
  }

  lemma Concat(isName: NameClass, a: seq<Row>, b: seq<Row>, sink: string)
    ensures Others(isName, a + b, sink) == Others(isName, a, sink) + Others(isName, b, sink)
    ensures SinkIds(isName, a + b, sink) == SinkIds(isName, a, sink) + SinkIds(isName, b, sink)
  {
    ConcatOthers(isName, a, b, sink);
    ConcatSinkIds(isName, a, b, sink);
  }

  lemma {:induction false} RemoveFresh(rows: seq<Row>, id: nat)
    requires Fresh(rows, id)
    ensures RemoveId(rows, id) == rows
  {
    if rows != [] {
      RemoveFresh(rows[1..], id);
    }
  }

  lemma {:induction false} RemoveAt(rows: seq<Row>, k: nat)
    requires k < |rows| && DistinctIds(rows)
    ensures RemoveId(rows, rows[k].id) == rows[..k] + rows[k + 1..]
  {
    if k == 0 {
      RemoveFresh(rows[1..], rows[0].id);
    } else {
      RemoveAt(rows[1..], k - 1);
      assert rows[..k] == [rows[0]] + rows[1..][..k - 1];
      assert rows[1..][k..] == rows[k + 1..];
    }
  }

  lemma {:induction false} SinkAt(isName: NameClass, rows: seq<Row>, sink: string, id: nat) returns (k: nat)
    ensures id in SinkIds(isName, rows, sink) ==> k < |rows| && rows[k].id == id && IsSink(isName, rows[k], sink)
  {
    hide IsSink;
    k := 0;
    if rows != [] && !(IsSink(isName, rows[0], sink) && rows[0].id == id) {
      k := SinkAt(isName, rows[1..], sink, id);
      k := k + 1;
    }
  }

  lemma AroundId(rows: seq<Row>, k: nat)
    requires DistinctIds(rows) && k < |rows|
    ensures var id, a, b := rows[k].id, rows[..k], rows[k + 1..];
      RemoveId(rows, id) == a + b && Fresh(a, id) && Fresh(b, id) && DistinctIds(a + b)
  {
    hide RemoveId;
    RemoveAt(rows, k);
    DistinctWithout(rows, k);
    hide DistinctIds;
    forall i | 0 <= i < k ensures rows[i].id != rows[k].id {
      DistinctAt(rows, i, k);
    }
    forall i | k < i < |rows| ensures rows[i].id != rows[k].id {
      DistinctAt(rows, k, i);
    }
  }

  lemma DistinctAt(rows: seq<Row>, i: nat, j: nat)
    requires DistinctIds(rows) && i < j < |rows|
    ensures rows[i].id != rows[j].id
  {
  }

  lemma DistinctWithout(rows: seq<Row>, k: nat)
    requires DistinctIds(rows) && k < |rows|
    ensures DistinctIds(rows[..k] + rows[k + 1..])
  {
    var rest := rows[..k] + rows[k + 1..];
    forall i, j | 0 <= i < j < |rest| ensures rest[i].id != rest[j].id {
      hide DistinctIds;
      var i', j' := if i < k then i else i + 1, if j < k then j else j + 1;
      DistinctAt(rows, i', j');
      assert rest[i] == rows[i'] && rest[j] == rows[j'];
    }
  }

  /** What the table is made of around one sink. */
  lemma AroundSink(isName: NameClass, rows: seq<Row>, sink: string, k: nat)
    requires k < |rows| && IsSink(isName, rows[k], sink)
    ensures var a, b := rows[..k], rows[k + 1..];
      && Others(isName, rows, sink) == Others(isName, a, sink) + Others(isName, b, sink)
      && SinkIds(isName, rows, sink) == SinkIds(isName, a, sink) + [rows[k].id] + SinkIds(isName, b, sink)
  {
    var a, b, one := rows[..k], rows[k + 1..], [rows[k]];
    OneSink(isName, rows[k], sink);
    hide IsSink, SinkIds, Others;
    AroundIndex(rows, k);
    Concat(isName, a, one, sink);
    Concat(isName, a + one, b, sink);
    var others: seq<Row> := Others(isName, a, sink);
    assert others + [] == others;
  }

  lemma OneSink(isName: NameClass, row: Row, sink: string)
    requires IsSink(isName, row, sink)
    ensures SinkIds(isName, [row], sink) == [row.id] && Others(isName, [row], sink) == []
  {
    hide IsSink;
  }

  /** Unloading one sink takes its id out of the sinks and leaves everything else as it was. */
  lemma RemoveSink(isName: NameClass, rows: seq<Row>, sink: string, id: nat)
    requires DistinctIds(rows)
    ensures var rows' := RemoveId(rows, id);
      id in SinkIds(isName, rows, sink) ==>
      && DistinctIds(rows')
      && Others(isName, rows', sink) == Others(isName, rows, sink)
      && |SinkIds(isName, rows', sink)| == |SinkIds(isName, rows, sink)| - 1
      && forall x :: x in SinkIds(isName, rows', sink) <==> x in SinkIds(isName, rows, sink) && x != id
  {
    hide IsSink, RemoveId, SinkIds, Others, DistinctIds;
    if id in SinkIds(isName, rows, sink) {
      var k := SinkAt(isName, rows, sink, id);
      AroundId(rows, k);
      AroundSink(isName, rows, sink, k);
      var a, b := rows[..k], rows[k + 1..];
      Concat(isName, a, b, sink);
      SinkIdsAreIds(isName, a, sink, id);
      SinkIdsAreIds(isName, b, sink, id);
      hide Fresh;
    }
  }

  lemma {:induction false} RemoveFirstSink(isName: NameClass, rows: seq<Row>, sink: string)
    requires DistinctIds(rows)
    ensures var ids := SinkIds(isName, rows, sink);
      ids != [] ==> SinkIds(isName, RemoveId(rows, ids[0]), sink) == ids[1..]
  {
    hide IsSink;
    if rows != [] {
      if IsSink(isName, rows[0], sink) {
        RemoveAt(rows, 0);
        assert rows[..0] + rows[1..] == rows[1..];
      } else if SinkIds(isName, rows[1..], sink) != [] {
        var id := SinkIds(isName, rows[1..], sink)[0];
        RemoveFirstSink(isName, rows[1..], sink);
        var k := SinkAt(isName, rows[1..], sink, id);
        var rest := RemoveId(rows[1..], id);
        assert ([rows[0]] + rest)[1..] == rest;
      }
    }
  }

  /** Unloading another module leaves the sinks as they were, and there is one module less besides them. */
  lemma RemoveOther(isName: NameClass, rows: seq<Row>, sink: string, k: nat)
    requires DistinctIds(rows) && k < |rows| && !IsSink(isName, rows[k], sink)
    ensures var rows' := RemoveId(rows, rows[k].id);
      SinkIds(isName, rows', sink) == SinkIds(isName, rows, sink)
      && |Others(isName, rows', sink)| == |Others(isName, rows, sink)| - 1
  {
    var a, b, one := rows[..k], rows[k + 1..], [rows[k]];
    OneOther(isName, rows[k], sink);
    hide IsSink, SinkIds, Others, RemoveId, DistinctIds;
    AroundId(rows, k);
    AroundIndex(rows, k);
    Concat(isName, a, b, sink);
    Concat(isName, a, one, sink);
    Concat(isName, a + one, b, sink);
    var ids: seq<nat> := SinkIds(isName, a, sink);
    assert ids + [] == ids;
  }

  lemma OneOther(isName: NameClass, row: Row, sink: string)
    requires !IsSink(isName, row, sink)
    ensures SinkIds(isName, [row], sink) == [] && Others(isName, [row], sink) == [row]
  {
    hide IsSink;
  }

  lemma TableWithout(rows: seq<Row>, k: nat)
    requires Table(rows) && k < |rows|
    ensures Table(RemoveId(rows, rows[k].id))
  {
    hide RenderableRow, DistinctIds, RemoveId;
    AroundId(rows, k);
    hide Fresh;
  }

  lemma TableWith(rows: seq<Row>, row: Row)
    requires Table(rows) && Fresh(rows, row.id) && RenderableRow(row)
    ensures Table(rows + [row])
  {
    hide RenderableRow;
  }

  ghost predicate NoRepeats(ids: seq<nat>) {
    forall i, j | 0 <= i < j < |ids| :: ids[i] != ids[j]
  }

  lemma {:induction false} SinkIdsNoRepeats(isName: NameClass, rows: seq<Row>, sink: string)
    requires DistinctIds(rows)
    ensures NoRepeats(SinkIds(isName, rows, sink))
  {
    hide IsSink;
    if rows != [] {
      SinkIdsNoRepeats(isName, rows[1..], sink);
      SinkIdsAreIds(isName, rows[1..], sink, rows[0].id);
    }
  }

  lemma OnlyOne(ids: seq<nat>, id: nat)
    requires NoRepeats(ids) && id in ids && forall x | x in ids :: x == id
    ensures ids == [id]
  {
    assert |ids| > 1 ==> ids[0] != ids[1];
    forall i | 0 <= i < |ids| ensures ids[i] == id {
      assert ids[i] in ids;
    }
  }

  // ---- The sweep --------------------------------------------------------------------------------

  /** How many of the ids are unloaded with a confirmation. */
  function Confirmed(ids: seq<nat>, canonical: nat, how: Sweeping): nat {
    if ids == [] then 0
    else
      (if ids[0] != canonical && ids[0] !in how.stuck && ids[0] !in how.unconfirmed then 1 else 0)
      + Confirmed(ids[1..], canonical, how)
  }

  /** The sweep takes out every listed id except the canonical one and the stuck ones, and nothing else, and
      counts those whose unload is confirmed. */
  lemma {:induction false} SweepIsExact(isName: NameClass, rows: seq<Row>, sink: string, ids: seq<nat>,
                                        canonical: nat, how: Sweeping)
    requires DistinctIds(rows) && NoRepeats(ids)
    requires forall i | 0 <= i < |ids| :: ids[i] in SinkIds(isName, rows, sink)
    ensures var (rows', n) := Sweep(rows, ids, canonical, how);
      && DistinctIds(rows')
      && Others(isName, rows', sink) == Others(isName, rows, sink)
      && n == Confirmed(ids, canonical, how)
      && forall x :: x in SinkIds(isName, rows', sink)
           <==> x in SinkIds(isName, rows, sink) && (x !in ids || x == canonical || x in how.stuck)
    decreases |ids|
  {
    hide IsSink, SinkIds, Others, RemoveId, DistinctIds;
    if ids != [] {
      var tail := ids[1..];
      if ids[0] == canonical || ids[0] in how.stuck {
        SweepIsExact(isName, rows, sink, tail, canonical, how);
      } else {
        RemoveSink(isName, rows, sink, ids[0]);
        SweepIsExact(isName, RemoveId(rows, ids[0]), sink, tail, canonical, how);
      }
    }
  }

  // ---- The module found ------------------------------------------------------------------------

  lemma {:induction false} MentionAt(isName: NameClass, rows: seq<Row>, sink: string) returns (k: nat)
    ensures FirstMention(rows, sink).Some? ==>
      && k < |rows| && FirstMention(rows, sink) == Some(rows[k].id)
      && (FirstMentionIsSink(isName, rows, sink) <==> IsSink(isName, rows[k], sink))
  {
    hide IsSink, Mentions;
    k := 0;
    if rows != [] && !Mentions(rows[0], sink) {
      k := MentionAt(isName, rows[1..], sink);
      k := k + 1;
    }
  }

  /** A sink that is added last changes nothing about the first mention. */
  lemma {:induction false} MentionSnoc(isName: NameClass, rows: seq<Row>, sink: string, row: Row)
    ensures IsSink(isName, row, sink) && Mentions(row, sink) ==>
      (FirstMentionIsSink(isName, rows + [row], sink) <==> FirstMentionIsSink(isName, rows, sink))
  {
    hide IsSink, Mentions;
    if rows != [] {
      assert (rows + [row])[1..] == rows[1..] + [row];
      MentionSnoc(isName, rows[1..], sink, row);
    } else {
      assert ([] + [row])[0] == row;
    }
  }

  /** What the verbose listing finds is a sink of the name exactly if the first mention is one. */
  lemma ExistingIsSink(isName: NameClass, rows: seq<Row>, sink: string, how: Listing)
    requires Table(rows) && Tight(sink)
    ensures var existing := FindExisting(rows, sink, how);
      existing.Some? ==>
        && existing == FirstMention(rows, sink)
        && (existing.value in SinkIds(isName, rows, sink) <==> FirstMentionIsSink(isName, rows, sink))
  {
    hide ParseVerbose, RenderVerbose, Renderable, Tight, SinkIds, DistinctIds;
    VerboseParserIsRight(rows, sink);
    FirstMentionIsFirstSink(isName, rows, sink);
    hide FirstMentionIsSink;
  }

  /** The module unloaded as stale is not a sink of the name. */
  ghost predicate StrayUnloaded(isName: NameClass, rows: seq<Row>, sink: string, a: Answers) {
    Stale(rows, sink, a) && a.unloads && !FirstMentionIsSink(isName, rows, sink)
  }

  /** What unloading a stale module leaves. */
  lemma AfterUnload(isName: NameClass, rows: seq<Row>, sink: string, a: Answers)
    requires Table(rows) && Tight(sink)
    ensures var loading := AtLoad(rows, sink, a);
      && Table(loading)
      && (if StrayUnloaded(isName, rows, sink, a)
          then SinkIds(isName, loading, sink) == SinkIds(isName, rows, sink)
               && |Others(isName, loading, sink)| == |Others(isName, rows, sink)| - 1
          else Others(isName, loading, sink) == Others(isName, rows, sink))
      && (Stale(rows, sink, a) && a.unloads && FirstMentionIsSink(isName, rows, sink) ==>
            SinkIds(isName, rows, sink) != [] && SinkIds(isName, loading, sink) == SinkIds(isName, rows, sink)[1..])
  {
    hide Tight, Contains, RemoveId, SinkIds, Others, IsSink, Renderable, DistinctIds, FindExisting;
    if Stale(rows, sink, a) && a.unloads {
      ExistingIsSink(isName, rows, sink, a.listed);
      var k := MentionAt(isName, rows, sink);
      TableWithout(rows, k);
      if IsSink(isName, rows[k], sink) {
        var ids := SinkIds(isName, rows, sink);
        FirstMentionIsFirstSink(isName, rows, sink);
        assert ids != [] && ids[0] == rows[k].id;
        RemoveSink(isName, rows, sink, rows[k].id);
        RemoveFirstSink(isName, rows, sink);
      } else {
        RemoveOther(isName, rows, sink, k);
      }
      hide FirstMentionIsSink, FirstMention;
    }
  }

  // ---- The loads --------------------------------------------------------------------------------

  /** What the server is trusted with: a module it loads gets an unused id and shows up as it was asked for. */
  ghost predicate HonestTaken(rows: seq<Row>, sink: string, description: string, t: Taken) {
    Fresh(rows, t.id) && RenderableRow(NewRow(sink, description, t))
  }

  ghost predicate HonestLoads(rows: seq<Row>, sink: string, description: string, loads: seq<LoadAnswer>, n: nat) {
    n == 0 ||
    (HonestLoads(rows, sink, description, loads, n - 1)
     && var effect := Effect(AnswerTo(loads, n));
        effect.Some? ==>
          HonestTaken(AfterAttempts(rows, sink, description, loads, n - 1), sink, description, effect.value))
  }

  /** The ids of the modules the first n attempts loaded. */
  function NewIds(loads: seq<LoadAnswer>, n: nat): seq<nat> {
    if n == 0 then []
    else NewIds(loads, n - 1) + match Effect(AnswerTo(loads, n)) case None => [] case Some(t) => [t.id]
  }

  lemma NewRowIsSink(isName: NameClass, sink: string, description: string, t: Taken)
    requires AsciiNames(isName)
    ensures NewRow(sink, description, t) == Row(t.id, "module-null-sink",
      "sink_name=" + sink + " sink_properties=device.description=" + description, t.more)
    ensures IsSink(isName, NewRow(sink, description, t), sink)
  {
    var argument, name := NullSinkArgument(sink, description), SinkArgument(sink);
    assert argument[..|name|] == name && argument[|name|] == ' ';
    assert TokenAt(isName, argument, name, 0);
    assert Trim(NULL_SINK) == NULL_SINK by { TrimOfTight(NULL_SINK); }
    hide Trim, TokenAt;
  }

  lemma LoadKeeps(isName: NameClass, rows: seq<Row>, sink: string, description: string, t: Taken)
    requires AsciiNames(isName) && Tight(sink) && Table(rows) && HonestTaken(rows, sink, description, t)
    ensures var rows' := rows + [NewRow(sink, description, t)];
      && Table(rows')
      && Others(isName, rows', sink) == Others(isName, rows, sink)
      && SinkIds(isName, rows', sink) == SinkIds(isName, rows, sink) + [t.id]
      && (FirstMentionIsSink(isName, rows', sink) <==> FirstMentionIsSink(isName, rows, sink))
  {
    hide AsciiNames, Tight, NewRow, SinkIds, Others, IsSink, RenderableRow, Fresh, Table, FirstMentionIsSink, Mentions;
    var row := NewRow(sink, description, t);
    NewRowIsSink(isName, sink, description, t);
    TableWith(rows, row);
    Concat(isName, rows, [row], sink);
    OneSink(isName, row, sink);
    SinkIsMentioned(isName, row, sink);
    MentionSnoc(isName, rows, sink, row);
    var others: seq<Row> := Others(isName, rows, sink);
    assert others + [] == others;
  }

  /** However many attempts take effect, they add sinks of the name at the end, and nothing else. */
  lemma {:induction false} LoadsKeep(isName: NameClass, rows: seq<Row>, sink: string, description: string,
                                     loads: seq<LoadAnswer>, n: nat)
    requires AsciiNames(isName) && Tight(sink) && Table(rows) && HonestLoads(rows, sink, description, loads, n)
    ensures var rows' := AfterAttempts(rows, sink, description, loads, n);
      && Table(rows')
      && Others(isName, rows', sink) == Others(isName, rows, sink)
      && SinkIds(isName, rows', sink) == SinkIds(isName, rows, sink) + NewIds(loads, n)
      && (FirstMentionIsSink(isName, rows', sink) <==> FirstMentionIsSink(isName, rows, sink))
  {
    hide AsciiNames, Tight, NewRow, SinkIds, Others, Table, FirstMentionIsSink, AnswerTo, HonestTaken;
    var ids: seq<nat> := SinkIds(isName, rows, sink);
    if n == 0 {
      assert ids + [] == ids;
    } else {
      LoadsKeep(isName, rows, sink, description, loads, n - 1);
      var before := AfterAttempts(rows, sink, description, loads, n - 1);
      match Effect(AnswerTo(loads, n)) {
        case None =>
          assert NewIds(loads, n - 1) + [] == NewIds(loads, n - 1);
        case Some(t) =>
          LoadKeeps(isName, before, sink, description, t);
          var new': seq<nat> := [t.id];
          Associative(ids, NewIds(loads, n - 1), new');
      }
    }
  }

  /** Every module the server loads in a bring-up is as trusted. */
  ghost predicate HonestServer(rows: seq<Row>, sink: string, description: string, a: Answers) {
    HonestLoads(AtLoad(rows, sink, a), sink, description, a.loads, LastAttempt(a.loads, 1))
  }

  lemma LoadedIsNew(loads: seq<LoadAnswer>)
    ensures Final(loads).Loaded? ==> Final(loads).id in NewIds(loads, LastAttempt(loads, 1))
  {
    hide LastAttempt;
  }

  // ---- The module reported ----------------------------------------------------------------------

  lemma CreateReports(isName: NameClass, rows: seq<Row>, sink: string, description: string, a: Answers)
    requires AsciiNames(isName) && Tight(sink) && Table(rows)
    requires HonestLoads(rows, sink, description, a.loads, LastAttempt(a.loads, 1))
    ensures var (outcome, rows') := Create(rows, sink, description, a);
      && Table(rows')
      && Others(isName, rows', sink) == Others(isName, rows, sink)
      && SinkIds(isName, rows', sink) == SinkIds(isName, rows, sink) + NewIds(a.loads, LastAttempt(a.loads, 1))
      && (outcome.Ready? && outcome.moduleId.Some? ==>
            (outcome.moduleId.value in SinkIds(isName, rows', sink)
             <==> (Final(a.loads).Loaded? && Final(a.loads).readable) || FirstMentionIsSink(isName, rows, sink)))
  {
    LoadedIsNew(a.loads);
    hide LastAttempt, Final, HonestLoads, AfterAttempts, Table, SinkIds, Others, FindExisting, Contains, Tight,
      AsciiNames, FirstMentionIsSink, NewIds;
    LoadsKeep(isName, rows, sink, description, a.loads, LastAttempt(a.loads, 1));
    ExistingIsSink(isName, AfterAttempts(rows, sink, description, a.loads, LastAttempt(a.loads, 1)), sink, a.relisted);
  }

  /** The module's id does not come from a verbose listing, or from one whose first mention is a sink. */
  ghost predicate LookupIsSound(isName: NameClass, rows: seq<Row>, sink: string, a: Answers) {
    if FindExisting(rows, sink, a.listed).Some? && !Stale(rows, sink, a) then FirstMentionIsSink(isName, rows, sink)
    else
      || (Final(a.loads).Loaded? && Final(a.loads).readable)
      || FirstMentionIsSink(isName, AtLoad(rows, sink, a), sink)
  }

  /** Whatever the server answers: the module that bringing up the sink reports is a sink of the name if and
      only if its lookup was sound, and the other modules are untouched if and only if no stray was unloaded. */
  lemma EnsureReports(isName: NameClass, rows: seq<Row>, sink: string, description: string, a: Answers)
    requires AsciiNames(isName) && Tight(sink) && Table(rows) && HonestServer(rows, sink, description, a)
    ensures var (outcome, rows') := Ensure(rows, sink, description, a);
      && Table(rows')
      && (Others(isName, rows', sink) == Others(isName, rows, sink) <==> !StrayUnloaded(isName, rows, sink, a))
      && (outcome.Ready? && outcome.moduleId.Some? ==>
            (outcome.moduleId.value in SinkIds(isName, rows', sink) <==> LookupIsSound(isName, rows, sink, a)))
  {
    hide LastAttempt, Final, HonestLoads, Table, SinkIds, Others, FindExisting, Contains, Tight, AsciiNames,
      FirstMentionIsSink, NewIds, Create, AtLoad;
    ExistingIsSink(isName, rows, sink, a.listed);
    AfterUnload(isName, rows, sink, a);
    var existing := FindExisting(rows, sink, a.listed);
    if existing.None? || Stale(rows, sink, a) {
      CreateReports(isName, AtLoad(rows, sink, a), sink, description, a);
    }
  }

  /** A sink whose node is there, or cannot be checked, is reused without any change if and only if the first
      mention is a sink: otherwise a stray is taken for it. */
  lemma LiveSinkIsReused(isName: NameClass, rows: seq<Row>, sink: string, description: string, a: Answers)
    requires Table(rows) && Tight(sink) && a.listed == Told
    requires !a.sinks.Output? || Contains(a.sinks.stdout, sink)
    ensures var ids := SinkIds(isName, rows, sink);
      ids != [] ==>
        && Ensure(rows, sink, description, a) == (Ready(FirstMention(rows, sink), true), rows)
        && (FirstMention(rows, sink) == Some(ids[0]) <==> FirstMentionIsSink(isName, rows, sink))
  {
    hide ParseVerbose, RenderVerbose, Renderable, Tight, Contains, Create, DistinctIds, SinkIds;
    VerboseParserIsRight(rows, sink);
    FirstMentionIsFirstSink(isName, rows, sink);
    hide FirstMentionIsSink, FirstMention;
  }

  /** A sink whose node is verified to be missing is not reused: its module is unloaded, and the sinks that the
      attempts load come last, the reported one among them. */
  lemma StaleSinkIsReplaced(isName: NameClass, rows: seq<Row>, sink: string, description: string, a: Answers)
    requires AsciiNames(isName) && Table(rows) && Tight(sink) && HonestServer(rows, sink, description, a)
    requires a.unloads && a.sinks.Output? && !Contains(a.sinks.stdout, sink)
    ensures var ids, last := SinkIds(isName, rows, sink), Final(a.loads);
      var (outcome, rows') := Ensure(rows, sink, description, a);
      FindExisting(rows, sink, a.listed).Some? && FirstMentionIsSink(isName, rows, sink) ==>
        && ids != [] && SinkIds(isName, rows', sink) == ids[1..] + NewIds(a.loads, LastAttempt(a.loads, 1))
        && (last.Loaded? && last.readable && outcome.Ready? ==> outcome == Ready(Some(last.id), false))
  {
    hide LastAttempt, Final, HonestLoads, Table, SinkIds, Others, FindExisting, Contains, Tight, AsciiNames,
      FirstMentionIsSink, NewIds, AtLoad, AfterAttempts;
    AfterUnload(isName, rows, sink, a);
    if FindExisting(rows, sink, a.listed).Some? {
      CreateReports(isName, AtLoad(rows, sink, a), sink, description, a);
    }
  }

  // ---- One sink after startup -------------------------------------------------------------------

  /** Startup: bring up the sink, then sweep if its module is known. */
  function Startup(isName: NameClass, rows: seq<Row>, sink: string, description: string, a: Answers,
                   how: Sweeping): (Outcome, seq<Row>) {
    var (outcome, rows') := Ensure(rows, sink, description, a);
    if outcome.Ready? && outcome.moduleId.Some? && how.listed
    then (outcome, Sweep(rows', ParseShort(isName, RenderShort(rows'), sink), outcome.moduleId.value, how).0)
    else (outcome, rows')
  }

  /** The capture sink's part of starting the daemon. */
  method StartCaptureSink(isName: NameClass, server: PulseServer, sink: string, description: string, a: Answers,
                          how: Sweeping) returns (outcome: Outcome)
    modifies server
    ensures (outcome, server.rows) == Startup(isName, old(server.rows), sink, description, a, how)
  {
    hide Ensure, Sweep, ParseShort, RenderShort;
    outcome := EnsureNullSink(server, sink, description, a);
    if outcome.Ready? && outcome.moduleId.Some? {
      var _ := SweepDuplicateNullSinks(isName, server, sink, outcome.moduleId.value, how);
    }
  }

  /** What startup leaves. Other modules are as they were, exactly unless a stray was unloaded as stale. If the
      module is known and the sweep has its listing: the sinks left are that module, exactly if its lookup was
      sound, and those that do not unload. */
  ghost predicate LeavesOneSink(isName: NameClass, rows: seq<Row>, sink: string, description: string, a: Answers,
                                how: Sweeping)
  {
    var (outcome, left) := Startup(isName, rows, sink, description, a, how);
    var found := Ensure(rows, sink, description, a).1;
    && (Others(isName, left, sink) == Others(isName, rows, sink) <==> !StrayUnloaded(isName, rows, sink, a))
    && (outcome.Ready? && outcome.moduleId.Some? && how.listed ==>
          && (forall x :: x in SinkIds(isName, left, sink)
                <==> x in SinkIds(isName, found, sink) && (x == outcome.moduleId.value || x in how.stuck))
          && (outcome.moduleId.value in SinkIds(isName, left, sink) <==> LookupIsSound(isName, rows, sink, a))
          && (how.stuck == {} ==>
                SinkIds(isName, left, sink) ==
                if LookupIsSound(isName, rows, sink, a) then [outcome.moduleId.value] else []))
  }

  /** However many sinks of that name there were, and whatever the server answered on the way. */
  lemma StartupLeavesOneSink(isName: NameClass, rows: seq<Row>, sink: string, description: string, a: Answers,
                             how: Sweeping)
    requires AsciiNames(isName) && Tight(sink) && OverlapsGuarded(isName, SinkArgument(sink))
    requires Table(rows) && HonestServer(rows, sink, description, a)
    ensures LeavesOneSink(isName, rows, sink, description, a, how)
  {
    hide HonestServer, SinkIds, Others, Tight, AsciiNames, OverlapsGuarded, RemoveId, IsSink, Ensure, LookupIsSound,
      StrayUnloaded, Sweep, ParseShort, RenderShort, Renderable, DistinctIds;
    EnsureReports(isName, rows, sink, description, a);
    var (outcome, found) := Ensure(rows, sink, description, a);
    if outcome.Ready? && outcome.moduleId.Some? && how.listed {
      var id := outcome.moduleId.value;
      ShortParserIsRight(isName, found, sink);
      SinkIdsNoRepeats(isName, found, sink);
      SweepIsExact(isName, found, sink, SinkIds(isName, found, sink), id, how);
      var left := Startup(isName, rows, sink, description, a, how).1;
      SinkIdsNoRepeats(isName, left, sink);
      if how.stuck == {} {
        AtMostOne(SinkIds(isName, left, sink), id);
      }
    }
  }

  lemma AtMostOne(ids: seq<nat>, id: nat)
    requires NoRepeats(ids) && forall x | x in ids :: x == id
    ensures ids == if id in ids then [id] else []
  {
    assert |ids| > 0 ==> ids[0] in ids;
    if id in ids {
      OnlyOne(ids, id);
    }
  }

  const CAPTURE_DESCRIPTION := "SoundSync-Capture"

  /** The sink the daemon starts with, whose name is safe to search for. */
  lemma StartupLeavesOneCaptureSink(isName: NameClass, rows: seq<Row>, a: Answers, how: Sweeping)
    requires AsciiNames(isName) && Table(rows) && HonestServer(rows, "soundsync-capture", "SoundSync-Capture", a)
    ensures CAPTURE_SINK == "soundsync-capture" && CAPTURE_DESCRIPTION == "SoundSync-Capture"
    ensures LeavesOneSink(isName, rows, CAPTURE_SINK, CAPTURE_DESCRIPTION, a, how)
  {
    CaptureArgumentIsGuarded(isName);
    assert Tight(CAPTURE_SINK);
    hide LeavesOneSink, HonestServer, Table, AsciiNames, OverlapsGuarded, Tight;
    StartupLeavesOneSink(isName, rows, CAPTURE_SINK, CAPTURE_DESCRIPTION, a, how);
  }

  /** A live capture sink with id 2, and before it a null sink whose name only begins with its name. */
  function StrayTable(): seq<Row> {
    [Lookalike(CAPTURE_SINK, 1), NewRow(CAPTURE_SINK, CAPTURE_DESCRIPTION, Taken(2, []))]
  }

  /** The sink is listed, and every command succeeds. */
  function AllWell(): Answers {
    Answers(Told, Output(CAPTURE_SINK), true, [], NonZero, Told)
  }

  /** No line or field separators. */
  predicate Plain(text: string) {
    IsLine(text) && Free(text, '\t')
  }

  lemma PlainConcat(a: string, b: string)
    requires Plain(a) && Plain(b)
    ensures Plain(a + b)
  {
  }

  lemma StrayTableIsTable()
    ensures Table(StrayTable())
  {
    assert Plain("sink_name=") && Plain("-2") && Plain(NULL_SINK);
    assert Plain(CAPTURE_SINK);
    assert Plain(" sink_properties=device.description=");
    assert Plain(CAPTURE_DESCRIPTION);
    var rows, name := StrayTable(), SinkArgument(CAPTURE_SINK);
    hide IsLine, Free;
    PlainConcat("sink_name=", CAPTURE_SINK);
    PlainConcat(name, "-2");
    PlainConcat(name, " sink_properties=device.description=");
    PlainConcat(name + " sink_properties=device.description=", CAPTURE_DESCRIPTION);
    assert RenderableRow(rows[0]) && RenderableRow(rows[1]);
    hide RenderableRow;
  }

  /** Of such a table the verbose listing gives the stray. */
  lemma StrayIsMentionedFirst(isName: NameClass, stray: Row, genuine: Row, sink: string)
    ensures Mentions(stray, sink) && !IsSink(isName, stray, sink) && IsSink(isName, genuine, sink) ==>
      && FirstMention([stray, genuine], sink) == Some(stray.id)
      && !FirstMentionIsSink(isName, [stray, genuine], sink)
      && SinkIds(isName, [stray, genuine], sink) == [genuine.id]
  {
    hide Mentions, IsSink;
    assert [stray, genuine][1..] == [genuine];
    if IsSink(isName, genuine, sink) {
      OneSink(isName, genuine, sink);
    }
  }

  /** Where the first mention is a stray, startup loses the sink: it reports the stray, and the sweep unloads
      every real capture sink. */
  lemma StrayMentionLosesTheSink(isName: NameClass)
    requires AsciiNames(isName)
    ensures var rows := StrayTable();
      var (outcome, left) := Startup(isName, rows, CAPTURE_SINK, CAPTURE_DESCRIPTION, AllWell(), Sweeping(true, {}, {}));
      && Table(rows) && SinkIds(isName, rows, CAPTURE_SINK) == [2]
      && outcome == Ready(Some(1), true) && SinkIds(isName, left, CAPTURE_SINK) == []
  {
    assert Tight(CAPTURE_SINK);
    hide AsciiNames, Tight, SinkIds, FirstMention, FirstMentionIsSink, Ensure, Contains, IsSink, Mentions, Table, Sweep,
      ParseShort, RenderShort, HonestServer, Others, StrayUnloaded;
    var a, how := AllWell(), Sweeping(true, {}, {});
    var stray, genuine := Lookalike(CAPTURE_SINK, 1), NewRow(CAPTURE_SINK, CAPTURE_DESCRIPTION, Taken(2, []));
    StrayTableIsTable();
    LookalikeIsStray(isName, CAPTURE_SINK, 1);
    NewRowIsSink(isName, CAPTURE_SINK, CAPTURE_DESCRIPTION, Taken(2, []));
    assert stray.id == 1 && genuine.id == 2 && StrayTable() == [stray, genuine];
    hide Lookalike, NewRow, StrayTable;
    StrayIsMentionedFirst(isName, stray, genuine, CAPTURE_SINK);
    ContainsItself(CAPTURE_SINK);
    LiveSinkIsReused(isName, StrayTable(), CAPTURE_SINK, CAPTURE_DESCRIPTION, a);
    NoLoads(StrayTable(), CAPTURE_SINK, CAPTURE_DESCRIPTION, a);
    StartupLeavesOneCaptureSink(isName, StrayTable(), a, how);
    ReusedLookup(isName, StrayTable(), CAPTURE_SINK, CAPTURE_DESCRIPTION, a);
  }

  lemma ContainsItself(text: string)
    ensures Contains(text, text)
  {
    assert OccursAt(text, text, 0);
  }

  /** With a live module found, the lookup is as sound as the first mention. */
  lemma ReusedLookup(isName: NameClass, rows: seq<Row>, sink: string, description: string, a: Answers)
    requires Table(rows) && a.listed == Told && FirstMention(rows, sink).Some?
    requires !a.sinks.Output? || Contains(a.sinks.stdout, sink)
    ensures LookupIsSound(isName, rows, sink, a) <==> FirstMentionIsSink(isName, rows, sink)
  {
    hide ParseVerbose, RenderVerbose, Renderable, Contains, DistinctIds, FirstMention, FirstMentionIsSink, AtLoad;
    VerboseParserIsRight(rows, sink);
  }

  lemma NoLoads(rows: seq<Row>, sink: string, description: string, a: Answers)
    requires a.loads == []
    ensures HonestServer(rows, sink, description, a)
  {
    NoEffects(AtLoad(rows, sink, a), sink, description, LastAttempt(a.loads, 1));
  }

  lemma {:induction false} NoEffects(rows: seq<Row>, sink: string, description: string, n: nat)
    ensures HonestLoads(rows, sink, description, [], n)
  {
    if n > 0 {
      NoEffects(rows, sink, description, n - 1);
    }
  }

  /** Startup does know its module when the last load worked, the reply or a second listing is readable, and
      the sink shows up. */
  lemma WorkingServerIsReady(isName: NameClass, rows: seq<Row>, sink: string, description: string, a: Answers)
    requires AsciiNames(isName) && Tight(sink) && Table(rows) && HonestServer(rows, sink, description, a)
    requires Final(a.loads).Loaded? && (Final(a.loads).readable || a.relisted == Told)
    requires a.verify.Output? && Contains(a.verify.stdout, sink)
    ensures var outcome := Ensure(rows, sink, description, a).0; outcome.Ready? && outcome.moduleId.Some?
  {
    LoadedIsNew(a.loads);
    hide LastAttempt, Final, HonestLoads, SinkIds, Contains, Tight, AsciiNames, AtLoad, Stale, AfterAttempts,
      ParseVerbose, RenderVerbose, FirstMentionIsSink, DistinctIds, Renderable, NewIds, Others;
    AfterUnload(isName, rows, sink, a);
    var loading := AtLoad(rows, sink, a);
    var rows' := AfterAttempts(loading, sink, description, a.loads, LastAttempt(a.loads, 1));
    LoadsKeep(isName, loading, sink, description, a.loads, LastAttempt(a.loads, 1));
    FirstMentionIsFirstSink(isName, rows', sink);
    VerboseParserIsRight(rows', sink);
  }
}
