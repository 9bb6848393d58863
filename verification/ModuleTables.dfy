/** Two parsers for two renderings of one module table: `pactl list modules` and its short form. */
module ModuleTables {
  import opened Wrappers
  import opened Text
  import opened NodeToken

  const NULL_SINK := "module-null-sink"

  // ---- The parsers ------------------------------------------------------------------------------

  /** The verbose parser from some line on, in the state the lines before it left behind. */
  function VerboseFrom(lines: seq<string>, sink: string, current: Option<nat>, isNull: bool): Option<nat> {
    if lines == [] then None
    else
      var line := Trim(lines[0]);
      if "Module #" <= line then VerboseFrom(lines[1..], sink, ParseUnsigned(line[8..], U32_RANGE), false)
      else if "Name:" <= line then VerboseFrom(lines[1..], sink, current, Contains(line, NULL_SINK))
      else if "Argument:" <= line && isNull && Contains(line, sink) then current
      else VerboseFrom(lines[1..], sink, current, isNull)
  }

  function ParseVerbose(output: string, sink: string): Option<nat> {
    VerboseFrom(Lines(output), sink, None, false)
  }

  method ParseNullSinkModuleId(output: string, sink: string) returns (id: Option<nat>)
    ensures id == ParseVerbose(output, sink)
  {
    var lines, current, isNull := Lines(output), None, false;
    hide Lines, Trim, Contains, ParseUnsigned;
    for i := 0 to |lines|
      invariant ParseVerbose(output, sink) == VerboseFrom(lines[i..], sink, current, isNull)
    {
      assert lines[i..][1..] == lines[i + 1..];
      var line := Trim(lines[i]);
      if "Module #" <= line {
        current, isNull := ParseUnsigned(line[8..], U32_RANGE), false;
      } else if "Name:" <= line {
        isNull := Contains(line, NULL_SINK);
      } else if "Argument:" <= line && isNull && Contains(line, sink) {
        return current;
      }
    }
    return None;
  }

  /** The module id on a line of the short form, if the line is a null sink with that sink name. */
  function ShortLine(isName: NameClass, line: string, sink: string): seq<nat> {
    var fields := Split(line, '\t');
    if |fields| < 3 || Trim(fields[1]) != NULL_SINK || !Search(isName, fields[2], SinkArgument(sink), 0) then []
    else
      match ParseUnsigned(Trim(fields[0]), U32_RANGE)
      case None => []
      case Some(id) => [id]
  }

  function ShortLines(isName: NameClass, lines: seq<string>, sink: string): seq<nat> {
    if lines == [] then [] else ShortLine(isName, lines[0], sink) + ShortLines(isName, lines[1..], sink)
  }

  function ParseShort(isName: NameClass, output: string, sink: string): seq<nat> {
    ShortLines(isName, Lines(output), sink)
  }

  method ParseShortLine(isName: NameClass, line: string, sink: string) returns (ids: seq<nat>)
    ensures ids == ShortLine(isName, line, sink)
  {
    hide Search, Split, Trim, ParseUnsigned;
    ids := [];
    var fields := Split(line, '\t');
    if |fields| >= 3 && Trim(fields[1]) == NULL_SINK {
      var found := LineContainsNodeToken(isName, fields[2], SinkArgument(sink));
      if found {
        match ParseUnsigned(Trim(fields[0]), U32_RANGE) {
          case None =>
          case Some(id) => ids := [id];
        }
      }
    }
  }

  method ParseAllNullSinkModuleIds(isName: NameClass, output: string, sink: string) returns (ids: seq<nat>)
    ensures ids == ParseShort(isName, output, sink)
  {
    hide ShortLine;
    var lines := Lines(output);
    ids := [];
    for i := 0 to |lines|
      invariant ids + ShortLines(isName, lines[i..], sink) == ParseShort(isName, output, sink)
    {
      assert lines[i..][1..] == lines[i + 1..];
      var found := ParseShortLine(isName, lines[i], sink);
      ids := ids + found;
    }
  }

  // ---- The table and its renderings -------------------------------------------------------------

  /** A loaded module. `more` are further lines of its verbose entry. */
  datatype Row = Row(id: u32, name: string, argument: string, more: seq<string>)

  /** A line of a verbose entry that is none of those the parser looks at. */
  predicate Inert(line: string) {
    IsLine(line) && !("Module #" <= Trim(line)) && !("Name:" <= Trim(line)) && !("Argument:" <= Trim(line))
  }

  /** A table that can be rendered: no line or field separators inside fields. */
  ghost predicate Renderable(rows: seq<Row>) {
    forall i | 0 <= i < |rows| :: RenderableRow(rows[i])
  }

  ghost predicate RenderableRow(row: Row) {
    && IsLine(row.name) && Free(row.name, '\t')
    && IsLine(row.argument) && Free(row.argument, '\t')
    && forall k | 0 <= k < |row.more| :: Inert(row.more[k])
  }

  /** A tab-indented line with a label. */
  function Labelled(tag: string, text: string): string {
    "\t" + tag + " " + text
  }

  function NameLine(row: Row): string {
    Labelled("Name:", row.name)
  }

  function ArgumentLine(row: Row): string {
    Labelled("Argument:", row.argument)
  }

  function VerboseEntry(row: Row): seq<string> {
    ["Module #" + Decimal(row.id), NameLine(row), ArgumentLine(row)] + row.more
  }

  function VerboseLines(rows: seq<Row>): seq<string> {
    if rows == [] then [] else VerboseEntry(rows[0]) + VerboseLines(rows[1..])
  }

  function ShortEntry(row: Row): string {
    Decimal(row.id) + "\t" + row.name + "\t" + row.argument
  }

  function ShortTable(rows: seq<Row>): seq<string> {
    if rows == [] then [] else [ShortEntry(rows[0])] + ShortTable(rows[1..])
  }

  /** `pactl list modules`, and `pactl list short modules`. */
  function RenderVerbose(rows: seq<Row>): string {
    Unlines(VerboseLines(rows))
  }

  function RenderShort(rows: seq<Row>): string {
    Unlines(ShortTable(rows))
  }

  // ---- What the parsers find --------------------------------------------------------------------

  /** A null sink whose argument mentions the name, as the verbose parser has it: a substring. */
  predicate Mentions(row: Row, sink: string) {
    Contains(Trim(NameLine(row)), "module-null-sink") && Contains(Trim(ArgumentLine(row)), sink)
  }

  /** A null sink with that sink name: its argument has `sink_name=` and the name as a whole token. */
  ghost predicate IsSink(isName: NameClass, row: Row, sink: string) {
    Trim(row.name) == "module-null-sink" && HasToken(isName, row.argument, "sink_name=" + sink)
  }

  function FirstMention(rows: seq<Row>, sink: string): Option<nat> {
    if rows == [] then None
    else if Mentions(rows[0], sink) then Some(rows[0].id)
    else FirstMention(rows[1..], sink)
  }

  ghost function SinkIds(isName: NameClass, rows: seq<Row>, sink: string): seq<nat> {
    if rows == [] then []
    else (if IsSink(isName, rows[0], sink) then [rows[0].id] else []) + SinkIds(isName, rows[1..], sink)
  }

  lemma DecimalIsTight(n: nat)
    ensures Tight(Decimal(n)) && IsLine(Decimal(n)) && Free(Decimal(n), '\t')
  {
  }

  lemma ModuleLineParses(id: u32)
    ensures var line := "Module #" + Decimal(id);
      IsLine(line) && "Module #" <= Trim(line) && ParseUnsigned(Trim(line)[8..], U32_RANGE) == Some(id)
  {
    hide Decimal, ParseUnsigned, Trim;
    DecimalIsTight(id);
    TightAfter("Module #", Decimal(id));
    ParseDecimal(id, U32_RANGE);
  }

  lemma TightAfter(head: string, tail: string)
    requires Tight(head) && Tight(tail)
    ensures var line := head + tail; Trim(line) == line && head <= line && line[|head|..] == tail
    ensures IsLine(head) && IsLine(tail) ==> IsLine(head + tail)
  {
    assert Tight(head + tail);
    TrimOfTight(head + tail);
    hide Trim;
  }

  /** A labelled line still starts with its label once trimmed. */
  lemma LabelSurvivesTrim(tag: string, text: string)
    requires Tight(tag)
    ensures tag <= Trim(Labelled(tag, text))
  {
    hide TrimEnd;
    var line, rest := Labelled(tag, text), tag + (" " + text);
    assert line[1..] == rest && !IsSpace(line[1]);
    assert TrimStart(line) == rest;
    hide TrimStart, Labelled;
    var r := TrimEnd(rest);
    assert |r| >= |tag| by {
      assert rest[|tag| - 1] == tag[|tag| - 1];
    }
    assert r[..|tag|] == tag;
  }

  lemma {:induction false} SkipInert(more: seq<string>, rest: seq<string>, sink: string,
                                     current: Option<nat>, isNull: bool)
    requires forall k | 0 <= k < |more| :: Inert(more[k])
    ensures VerboseFrom(more + rest, sink, current, isNull) == VerboseFrom(rest, sink, current, isNull)
  {
    if more == [] {
      assert more + rest == rest;
    } else {
      assert Inert(more[0]) && (more + rest)[1..] == more[1..] + rest;
      SkipInert(more[1..], rest, sink, current, isNull);
    }
  }

  lemma EntryLines(row: Row)
    ensures "Module #" <= Trim("Module #" + Decimal(row.id))
    ensures "Name:" <= Trim(NameLine(row)) && "Argument:" <= Trim(ArgumentLine(row))
  {
    hide Trim, Labelled, Decimal, ParseUnsigned, IsLine;
    ModuleLineParses(row.id);
    LabelSurvivesTrim("Name:", row.name);
    LabelSurvivesTrim("Argument:", row.argument);
  }

  lemma EntryIsParsed(row: Row, rest: seq<string>, sink: string, current: Option<nat>, isNull: bool)
    requires RenderableRow(row)
    ensures VerboseFrom(VerboseEntry(row) + rest, sink, current, isNull) ==
      if Mentions(row, sink) then Some(row.id)
      else VerboseFrom(rest, sink, Some(row.id), Contains(Trim(NameLine(row)), NULL_SINK))
  {
    hide Trim, ParseUnsigned, Decimal, Contains, Inert, NameLine, ArgumentLine, VerboseFrom;
    EntryLines(row);
    ModuleLineParses(row.id);
    var head, name, argument := "Module #" + Decimal(row.id), NameLine(row), ArgumentLine(row);
    var tail := row.more + rest;
    ThreeLines(head, name, argument, tail, sink, current, isNull);
    assert VerboseEntry(row) + rest == [head, name, argument] + tail;
    SkipInert(row.more, rest, sink, Some(row.id), Contains(Trim(name), NULL_SINK));
  }

  lemma ThreeLines(head: string, name: string, argument: string, tail: seq<string>, sink: string,
                   current: Option<nat>, isNull: bool)
    requires "Module #" <= Trim(head) && "Name:" <= Trim(name) && "Argument:" <= Trim(argument)
    ensures var id := ParseUnsigned(Trim(head)[8..], U32_RANGE);
            var isNull' := Contains(Trim(name), NULL_SINK);
      VerboseFrom([head, name, argument] + tail, sink, current, isNull) ==
      if isNull' && Contains(Trim(argument), sink) then id else VerboseFrom(tail, sink, id, isNull')
  {
    hide Trim, ParseUnsigned, Contains;
    var id, isNull' := ParseUnsigned(Trim(head)[8..], U32_RANGE), Contains(Trim(name), NULL_SINK);
    var lines := [head, name, argument] + tail;
    assert lines[1..] == [name, argument] + tail;
    assert lines[1..][1..] == [argument] + tail;
    assert lines[1..][1..][1..] == tail;
    assert Trim(name)[0] == "Name:"[0] && Trim(argument)[0] == "Argument:"[0];
    assert VerboseFrom(lines, sink, current, isNull) == VerboseFrom(lines[1..], sink, id, false);
    assert VerboseFrom(lines[1..], sink, id, false) == VerboseFrom(lines[1..][1..], sink, id, isNull');
  }

  lemma {:induction false} VerboseFindsFirstMention(rows: seq<Row>, sink: string, current: Option<nat>, isNull: bool)
    requires Renderable(rows)
    ensures VerboseFrom(VerboseLines(rows), sink, current, isNull) == FirstMention(rows, sink)
  {
    if rows != [] {
      hide Mentions, VerboseEntry, VerboseFrom, RenderableRow, Trim, Contains, NameLine;
      EntryIsParsed(rows[0], VerboseLines(rows[1..]), sink, current, isNull);
      VerboseFindsFirstMention(rows[1..], sink, Some(rows[0].id), Contains(Trim(NameLine(rows[0])), NULL_SINK));
    }
  }

  lemma EntryIsLines(row: Row)
    requires RenderableRow(row)
    ensures forall i | 0 <= i < |VerboseEntry(row)| :: IsLine(VerboseEntry(row)[i])
  {
    ModuleLineParses(row.id);
    hide Decimal, Trim, ParseUnsigned;
    assert IsLine(NameLine(row)) && IsLine(ArgumentLine(row));
    assert forall k | 0 <= k < |row.more| :: Inert(row.more[k]);
    hide IsLine, NameLine, ArgumentLine;
  }

  lemma {:induction false} VerboseLinesAreLines(rows: seq<Row>)
    requires Renderable(rows)
    ensures forall i | 0 <= i < |VerboseLines(rows)| :: IsLine(VerboseLines(rows)[i])
  {
    if rows != [] {
      hide IsLine, VerboseEntry, RenderableRow;
      VerboseLinesAreLines(rows[1..]);
      EntryIsLines(rows[0]);
    }
  }

  /** On the verbose rendering of any table the verbose parser returns the first null sink whose argument
      mentions the name anywhere. */
  lemma VerboseParserIsRight(rows: seq<Row>, sink: string)
    requires Renderable(rows)
    ensures ParseVerbose(RenderVerbose(rows), sink) == FirstMention(rows, sink)
  {
    VerboseLinesAreLines(rows);
    LinesOfUnlines(VerboseLines(rows));
    VerboseFindsFirstMention(rows, sink, None, false);
  }

  /** What the last "Module #" line before line k gives as an id. */
  function HeaderBefore(lines: seq<string>, k: nat): Option<nat>
    requires k <= |lines|
  {
    if k == 0 then None
    else
      var line := Trim(lines[k - 1]);
      if "Module #" <= line then ParseUnsigned(line[8..], 0x1_0000_0000) else HeaderBefore(lines, k - 1)
  }

  /** The last "Name:" line before line k, and after the last header, names a null sink. */
  predicate NullSinkBefore(lines: seq<string>, k: nat)
    requires k <= |lines|
  {
    k > 0 &&
    var line := Trim(lines[k - 1]);
    if "Module #" <= line then false
    else if "Name:" <= line then Contains(line, "module-null-sink")
    else NullSinkBefore(lines, k - 1)
  }

  /** Line k is an argument of a null sink and mentions the name. */
  predicate Hit(lines: seq<string>, k: nat, sink: string) {
    k < |lines| && "Argument:" <= Trim(lines[k]) && Contains(Trim(lines[k]), sink) && NullSinkBefore(lines, k)
  }

  lemma FirstLetters(line: string)
    ensures "Argument:" <= line ==> !("Module #" <= line) && !("Name:" <= line)
    ensures "Name:" <= line ==> !("Module #" <= line)
  {
    assert "Argument:" <= line ==> line[0] == 'A';
    assert "Module #" <= line ==> line[0] == 'M';
    assert "Name:" <= line ==> line[0] == 'N';
  }

  /** The parser from line i on, in the state the lines before it leave behind. */
  function VerboseAt(lines: seq<string>, sink: string, i: nat): Option<nat>
    requires i <= |lines|
  {
    VerboseFrom(lines[i..], sink, HeaderBefore(lines, i), NullSinkBefore(lines, i))
  }

  lemma VerboseStep(lines: seq<string>, sink: string, i: nat)
    requires i < |lines|
    ensures VerboseAt(lines, sink, i) ==
      if Hit(lines, i, sink) then HeaderBefore(lines, i)
      else VerboseAt(lines, sink, i + 1)
  {
    hide Trim, Contains, ParseUnsigned;
    assert lines[i..][1..] == lines[i + 1..] && lines[i..][0] == lines[i];
    var line := Trim(lines[i]);
    FirstLetters(line);
    assert HeaderBefore(lines, i + 1)
        == if "Module #" <= line then ParseUnsigned(line[8..], U32_RANGE) else HeaderBefore(lines, i);
    assert NullSinkBefore(lines, i + 1) == if "Module #" <= line then false
      else if "Name:" <= line then Contains(line, NULL_SINK) else NullSinkBefore(lines, i);
    hide HeaderBefore, NullSinkBefore;
  }

  lemma {:induction false} VerboseFromLine(lines: seq<string>, sink: string, i: nat, k: nat)
    requires i <= k < |lines| && Hit(lines, k, sink) && forall j | 0 <= j < k :: !Hit(lines, j, sink)
    ensures VerboseAt(lines, sink, i) == HeaderBefore(lines, k)
    decreases k - i
  {
    hide *;
    VerboseStep(lines, sink, i);
    if i < k {
      VerboseFromLine(lines, sink, i + 1, k);
    }
  }

  lemma VerboseAtEnd(lines: seq<string>, sink: string)
    ensures VerboseAt(lines, sink, |lines|) == None
  {
    hide HeaderBefore, NullSinkBefore;
    assert lines[|lines|..] == [];
  }

  lemma {:induction false} VerboseFromNothing(lines: seq<string>, sink: string, i: nat)
    requires i <= |lines| && forall j | 0 <= j < |lines| :: !Hit(lines, j, sink)
    ensures VerboseAt(lines, sink, i) == None
    decreases |lines| - i
  {
    hide *;
    if i == |lines| {
      VerboseAtEnd(lines, sink);
    } else {
      VerboseStep(lines, sink, i);
      VerboseFromNothing(lines, sink, i + 1);
    }
  }

  /** On any text at all the verbose parser takes the first argument line of a null sink that mentions the name,
      and gives what the header before it says; without such a line it gives nothing. */
  lemma VerboseParserTakesFirstHit(output: string, sink: string)
    ensures var lines := Lines(output);
      && (forall k: nat | Hit(lines, k, sink) && (forall j | 0 <= j < k :: !Hit(lines, j, sink)) ::
            k < |lines| && ParseVerbose(output, sink) == HeaderBefore(lines, k))
      && ((forall j | 0 <= j < |lines| :: !Hit(lines, j, sink)) ==> ParseVerbose(output, sink) == None)
  {
    var lines := Lines(output);
    VerboseAtStart(output, sink);
    forall k: nat | Hit(lines, k, sink) && (forall j | 0 <= j < k :: !Hit(lines, j, sink))
      ensures k < |lines| && ParseVerbose(output, sink) == HeaderBefore(lines, k)
    {
      HitIsLine(lines, k, sink);
      hide *;
      VerboseFromLine(lines, sink, 0, k);
    }
    hide *;
    if forall j | 0 <= j < |lines| :: !Hit(lines, j, sink) {
      VerboseFromNothing(lines, sink, 0);
    }
  }

  lemma HitIsLine(lines: seq<string>, k: nat, sink: string)
    requires Hit(lines, k, sink)
    ensures k < |lines|
  {
  }

  lemma VerboseAtStart(output: string, sink: string)
    ensures VerboseAt(Lines(output), sink, 0) == ParseVerbose(output, sink)
  {
    hide VerboseFrom, Lines;
    assert Lines(output)[0..] == Lines(output);
  }

  /** Any line of the short form: the third field is searched, and the first is the id, if the second says that it
      is a null sink. */
  lemma ShortLineIsParsed(isName: NameClass, fields: seq<string>, sink: string)
    requires fields != [] && forall i | 0 <= i < |fields| :: Free(fields[i], '\t')
    ensures ShortLine(isName, Join(fields, '\t'), sink) ==
      if |fields| >= 3 && Trim(fields[1]) == "module-null-sink" && Search(isName, fields[2], "sink_name=" + sink, 0)
      then match ParseUnsigned(Trim(fields[0]), 0x1_0000_0000) case None => [] case Some(id) => [id]
      else []
  {
    SplitOfJoin(fields, '\t');
    hide Join, Split, Trim, Search, ParseUnsigned;
  }

  lemma ShortEntryIsSearched(isName: NameClass, row: Row, sink: string)
    requires IsLine(row.name) && Free(row.name, '\t') && IsLine(row.argument) && Free(row.argument, '\t')
    ensures IsLine(ShortEntry(row))
    ensures ShortLine(isName, ShortEntry(row), sink) ==
      if Trim(row.name) == NULL_SINK && Search(isName, row.argument, SinkArgument(sink), 0) then [row.id] else []
  {
    hide Decimal, Trim, Search, ParseUnsigned, Split, Tight;
    DecimalIsTight(row.id);
    ParseDecimal(row.id, U32_RANGE);
    TrimOfTight(Decimal(row.id));
    ShortEntryIsJoin(row);
    SplitOfJoin([Decimal(row.id), row.name, row.argument], '\t');
    hide ShortEntry, Join;
  }

  lemma ShortEntryIsParsed(isName: NameClass, row: Row, sink: string)
    requires OverlapsGuarded(isName, SinkArgument(sink))
    requires IsLine(row.name) && Free(row.name, '\t') && IsLine(row.argument) && Free(row.argument, '\t')
    ensures IsLine(ShortEntry(row))
    ensures ShortLine(isName, ShortEntry(row), sink) == if IsSink(isName, row, sink) then [row.id] else []
  {
    hide Search, HasToken, OverlapsGuarded, ShortLine, ShortEntry, IsLine, Free, Trim;
    GuardedSearchIsExact(isName, row.argument, SinkArgument(sink));
    ShortEntryIsSearched(isName, row, sink);
  }

  lemma ShortEntryIsJoin(row: Row)
    ensures ShortEntry(row) == Join([Decimal(row.id), row.name, row.argument], '\t')
    ensures IsLine(row.name) && IsLine(row.argument) && IsLine(Decimal(row.id)) ==> IsLine(ShortEntry(row))
  {
    hide Decimal;
    var fields := [Decimal(row.id), row.name, row.argument];
    assert fields[1..] == [row.name, row.argument] && fields[1..][1..] == [row.argument];
    assert Join(fields[1..], '\t') == row.name + ['\t'] + row.argument;
    assert Join(fields, '\t') == fields[0] + ['\t'] + (row.name + ['\t'] + row.argument);
  }

  lemma {:induction false} ShortTableIsLines(rows: seq<Row>)
    requires Renderable(rows)
    ensures forall i | 0 <= i < |ShortTable(rows)| :: IsLine(ShortTable(rows)[i])
  {
    if rows != [] {
      hide ShortEntry, IsLine, Inert;
      assert RenderableRow(rows[0]);
      DecimalIsTight(rows[0].id);
      ShortEntryIsJoin(rows[0]);
      ShortTableIsLines(rows[1..]);
    }
  }

  lemma {:induction false} ShortFindsAll(isName: NameClass, rows: seq<Row>, sink: string)
    requires Renderable(rows) && OverlapsGuarded(isName, SinkArgument(sink))
    ensures ShortLines(isName, ShortTable(rows), sink) == SinkIds(isName, rows, sink)
    ensures forall i | 0 <= i < |ShortTable(rows)| :: IsLine(ShortTable(rows)[i])
  {
    if rows != [] {
      hide ShortLine, ShortEntry, IsSink, IsLine, Free, Inert, OverlapsGuarded;
      assert RenderableRow(rows[0]);
      ShortEntryIsParsed(isName, rows[0], sink);
      ShortFindsAll(isName, rows[1..], sink);
      assert ShortTable(rows)[1..] == ShortTable(rows[1..]);
    }
  }

  /** On the short rendering of any table the short parser returns every null sink with that sink name, as long
      as that can be searched for. */
  lemma ShortParserIsRight(isName: NameClass, rows: seq<Row>, sink: string)
    requires Renderable(rows) && OverlapsGuarded(isName, SinkArgument(sink))
    ensures ParseShort(isName, RenderShort(rows), sink) == SinkIds(isName, rows, sink)
  {
    hide OverlapsGuarded;
    ShortFindsAll(isName, rows, sink);
    LinesOfUnlines(ShortTable(rows));
  }

  lemma MissedLineIsFree(name: string, d: nat, c: char)
    requires d < |name| && c != 'x' && Free(name, c)
    ensures Free(MissedLine(name, d), c)
  {
  }

  /** A table of one sink that the search misses. */
  lemma MissedRow(isName: NameClass, row: Row, sink: string)
    requires RenderableRow(row) && IsSink(isName, row, sink) && !Search(isName, row.argument, SinkArgument(sink), 0)
    ensures Renderable([row])
    ensures SinkIds(isName, [row], sink) == [row.id] && ParseShort(isName, RenderShort([row]), sink) == []
  {
    hide Search, HasToken, IsLine, Free, Lines, Unlines, ShortLine, ShortEntry, Trim, IsSink;
    ShortEntryIsSearched(isName, row, sink);
    var entries := [ShortEntry(row)];
    assert [row][1..] == [] && ShortTable([row]) == entries && entries[1..] == [];
    LinesOfUnlines(entries);
    assert ShortLines(isName, entries, sink) == [];
  }

  /** Otherwise there is a table with a sink that the short parser misses. */
  lemma ShortParserMisses(isName: NameClass, sink: string) returns (row: Row)
    requires isName('x') && IsLine(sink) && Free(sink, '\t') && !OverlapsGuarded(isName, SinkArgument(sink))
    ensures Renderable([row])
    ensures SinkIds(isName, [row], sink) == [row.id] && ParseShort(isName, RenderShort([row]), sink) == []
  {
    hide Search, HasToken, MissedLine, OverlapsGuarded, SinkIds, ParseShort, RenderShort, Trim;
    var name := SinkArgument(sink);
    var d := UnguardedNameIsMissed(isName, name);
    assert Free(name, '\n') && Free(name, '\r') && Free(name, '\t');
    MissedLineIsFree(name, d, '\n');
    MissedLineIsFree(name, d, '\r');
    MissedLineIsFree(name, d, '\t');
    assert Tight(NULL_SINK) && IsLine(NULL_SINK) && Free(NULL_SINK, '\t');
    TrimOfTight(NULL_SINK);
    row := Row(0, NULL_SINK, MissedLine(name, d), []);
    hide Tight, Free;
    MissedRow(isName, row, sink);
  }

  /** So the short parser is right on every table if and only if the sink's argument can be searched for. */
  lemma ShortParserIsExact(isName: NameClass, sink: string)
    requires isName('x') && IsLine(sink) && Free(sink, '\t')
    ensures (forall rows | Renderable(rows) ::
               ParseShort(isName, RenderShort(rows), sink) == SinkIds(isName, rows, sink))
       <==> OverlapsGuarded(isName, SinkArgument(sink))
  {
    hide Renderable, ParseShort, RenderShort, SinkIds, OverlapsGuarded;
    if OverlapsGuarded(isName, SinkArgument(sink)) {
      forall rows | Renderable(rows) ensures ParseShort(isName, RenderShort(rows), sink) == SinkIds(isName, rows, sink) {
        ShortParserIsRight(isName, rows, sink);
      }
    } else {
      var row := ShortParserMisses(isName, sink);
    }
  }

  lemma NameIsMentioned(row: Row)
    requires Trim(row.name) == NULL_SINK
    ensures Contains(Trim(NameLine(row)), NULL_SINK)
  {
    var cut := |row.name| - |TrimStart(row.name)|;
    assert row.name[cut..][..|NULL_SINK|] == NULL_SINK;
    assert OccursAt(row.name, NULL_SINK, cut);
    hide TrimStart, TrimEnd, Trim, Contains;
    OccursInLabelled("Name:", row.name, NULL_SINK, cut);
    TrimKeeps(NameLine(row), NULL_SINK, 7 + cut);
  }

  lemma SinkNameIsMentioned(argument: string, sink: string, i: nat)
    requires Tight(sink) && OccursAt(argument, SinkArgument(sink), i)
    ensures Contains(Trim(Labelled("Argument:", argument)), sink)
  {
    hide Trim, Contains, Tight;
    assert OccursAt(argument, sink, i + 10) by {
      assert argument[i..i + 10 + |sink|][10..] == SinkArgument(sink)[10..] == sink;
    }
    OccursInLabelled("Argument:", argument, sink, i + 10);
    TrimKeeps(Labelled("Argument:", argument), sink, 11 + (i + 10));
  }

  /** The converse always holds: a sink of that name mentions it. */
  lemma SinkIsMentioned(isName: NameClass, row: Row, sink: string)
    requires Tight(sink) && IsSink(isName, row, sink)
    ensures Mentions(row, sink)
  {
    hide Trim, Contains, Tight, OccursAt;
    var i: nat :| TokenAt(isName, row.argument, SinkArgument(sink), i);
    SinkNameIsMentioned(row.argument, sink, i);
    NameIsMentioned(row);
  }

  lemma OccursInLabelled(tag: string, text: string, part: string, i: nat)
    requires OccursAt(text, part, i)
    ensures OccursAt(Labelled(tag, text), part, |tag| + 2 + i)
  {
    var line, k := Labelled(tag, text), |tag| + 2 + i;
    assert line[k..k + |part|] == text[i..i + |part|];
  }

  // ---- When the parsers agree -------------------------------------------------------------------

  predicate Fresh(rows: seq<Row>, id: nat) {
    forall i | 0 <= i < |rows| :: rows[i].id != id
  }

  ghost predicate DistinctIds(rows: seq<Row>) {
    forall i, j | 0 <= i < j < |rows| :: rows[i].id != rows[j].id
  }

  /** The first null sink that mentions the name, if there is one, is a sink of that name. */
  ghost predicate FirstMentionIsSink(isName: NameClass, rows: seq<Row>, sink: string) {
    rows == [] ||
    if Mentions(rows[0], sink) then IsSink(isName, rows[0], sink) else FirstMentionIsSink(isName, rows[1..], sink)
  }

  ghost function FirstSink(isName: NameClass, rows: seq<Row>, sink: string): Option<nat> {
    var ids := SinkIds(isName, rows, sink);
    if ids == [] then None else Some(ids[0])
  }

  lemma {:induction false} SinkIdsAreIds(isName: NameClass, rows: seq<Row>, sink: string, id: nat)
    requires Fresh(rows, id)
    ensures id !in SinkIds(isName, rows, sink)
  {
    hide IsSink;
    if rows != [] {
      SinkIdsAreIds(isName, rows[1..], sink, id);
    }
  }

  lemma {:induction false} FirstMentionIsFirstSink(isName: NameClass, rows: seq<Row>, sink: string)
    requires Tight(sink) && DistinctIds(rows)
    ensures FirstMention(rows, sink) == FirstSink(isName, rows, sink) <==> FirstMentionIsSink(isName, rows, sink)
    ensures var first := FirstMention(rows, sink);
      first.Some? ==>
        (first.value in SinkIds(isName, rows, sink) <==> FirstMentionIsSink(isName, rows, sink))
    ensures FirstMention(rows, sink).None? ==> SinkIds(isName, rows, sink) == []
  {
    hide Mentions, IsSink, Tight;
    if rows != [] {
      FirstMentionIsFirstSink(isName, rows[1..], sink);
      SinkIdsAreIds(isName, rows[1..], sink, rows[0].id);
      if IsSink(isName, rows[0], sink) {
        SinkIsMentioned(isName, rows[0], sink);
      }
    }
  }

  /** The two parsers agree on a table, the verbose one returning the first of what the short one returns, if
      and only if the first null sink mentioning the name is a sink of that name, or none mentions it. */
  lemma ParsersAgree(isName: NameClass, rows: seq<Row>, sink: string)
    requires Renderable(rows) && DistinctIds(rows) && Tight(sink) && OverlapsGuarded(isName, SinkArgument(sink))
    ensures var ids := ParseShort(isName, RenderShort(rows), sink);
      ParseVerbose(RenderVerbose(rows), sink) == (if ids == [] then None else Some(ids[0]))
      <==> FirstMentionIsSink(isName, rows, sink)
  {
    hide ParseVerbose, ParseShort, Tight, OverlapsGuarded;
    VerboseParserIsRight(rows, sink);
    ShortParserIsRight(isName, rows, sink);
    FirstMentionIsFirstSink(isName, rows, sink);
  }

  /** A null sink whose name only begins with that name. */
  function Lookalike(sink: string, id: u32): Row {
    Row(id, NULL_SINK, SinkArgument(sink) + "-2", [])
  }

  lemma LookalikeOccurrences(sink: string, i: nat)
    requires OccursAt(SinkArgument(sink) + "-2", SinkArgument(sink), i)
    ensures i == 0
  {
    var name, line := SinkArgument(sink), SinkArgument(sink) + "-2";
    assert line[i..i + |name|][0] == line[i] && name[0] == 's' && name[1] == 'i' && name[2] == 'n';
    assert i <= 2;
    assert line[1] == name[1] && line[2] == name[2];
  }

  /** It mentions the name without being a sink of that name. */
  lemma LookalikeIsStray(isName: NameClass, sink: string, id: u32)
    requires AsciiNames(isName) && Tight(sink)
    ensures Mentions(Lookalike(sink, id), sink) && !IsSink(isName, Lookalike(sink, id), sink)
  {
    var row := Lookalike(sink, id);
    var name := SinkArgument(sink);
    assert row.argument[0..|name|] == name && row.argument[|name|] == '-';
    assert OccursAt(row.argument, name, 0) && Flanked(isName, row.argument, name, 0);
    forall i: nat ensures !TokenAt(isName, row.argument, name, i) {
      if OccursAt(row.argument, name, i) {
        LookalikeOccurrences(sink, i);
      }
    }
    assert Tight(NULL_SINK);
    TrimOfTight(NULL_SINK);
    hide Trim, Contains, Tight, OccursAt, Flanked;
    SinkNameIsMentioned(row.argument, sink, 0);
    NameIsMentioned(row);
  }
}
