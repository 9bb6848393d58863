/** What the capture sink's bring-up learns from `pactl list short sinks`: whether the sink's node is live. */
module SinkListing {
  import opened Wrappers
  import opened Text
  import opened NodeToken
  import opened ModuleTables
  import opened NullSink

  /** A sink node on the server. `rest` holds the listing's further fields: driver, sample format, state. */
  datatype Node = Node(index: nat, name: string, rest: string)

  function NodeLine(node: Node): string {
    Decimal(node.index) + "\t" + (node.name + "\t" + node.rest)
  }

  function NodeLines(nodes: seq<Node>): seq<string> {
    seq(|nodes|, i requires 0 <= i < |nodes| => NodeLine(nodes[i]))
  }

  function RenderSinks(nodes: seq<Node>): string {
    Unlines(NodeLines(nodes))
  }

  /** The node is there. */
  predicate Live(nodes: seq<Node>, sink: string) {
    exists k | 0 <= k < |nodes| :: nodes[k].name == sink
  }

  /** What the check looks for: the name anywhere in the node's line. */
  predicate Shows(node: Node, sink: string) {
    Contains(NodeLine(node), sink)
  }

  predicate Shown(nodes: seq<Node>, sink: string) {
    exists k | 0 <= k < |nodes| :: Shows(nodes[k], sink)
  }

  // ---- Occurrences do not cross separators ------------------------------------------------------

  lemma OccursInFirst(a: string, b: string, part: string)
    requires Contains(a, part)
    ensures Contains(a + b, part)
  {
    var i :| 0 <= i <= |a| && OccursAt(a, part, i);
    assert (a + b)[i..i + |part|] == a[i..i + |part|];
    assert OccursAt(a + b, part, i);
  }

  lemma OccursInSecond(a: string, b: string, part: string)
    requires Contains(b, part)
    ensures Contains(a + b, part)
  {
    var i :| 0 <= i <= |b| && OccursAt(b, part, i);
    assert (a + b)[|a| + i..|a| + i + |part|] == b[i..i + |part|];
    assert OccursAt(a + b, part, |a| + i);
  }

  lemma WithinOccurrence(text: string, c: char, part: string, i: nat, p: nat)
    requires Free(part, c) && OccursAt(text, part, i) && i <= p < i + |part|
    ensures text[p] != c
  {
    assert part[p - i] == text[i..i + |part|][p - i];
  }

  lemma OccursOnOneSide(a: string, c: char, b: string, part: string, i: nat)
    requires part != "" && Free(part, c) && OccursAt(a + [c] + b, part, i)
    ensures Contains(a, part) || Contains(b, part)
  {
    var text := a + [c] + b;
    if i + |part| <= |a| {
      assert a[i..i + |part|] == text[i..i + |part|];
      assert OccursAt(a, part, i);
    } else if i > |a| {
      var j := i - |a| - 1;
      assert b[j..j + |part|] == text[i..i + |part|];
      assert OccursAt(b, part, j);
    } else {
      WithinOccurrence(text, c, part, i, |a|);
      assert false;
    }
  }

  lemma AroundSeparator(a: string, c: char, b: string, part: string)
    requires part != "" && Free(part, c)
    ensures Contains(a + [c] + b, part) <==> Contains(a, part) || Contains(b, part)
  {
    if Contains(a + [c] + b, part) {
      var i :| 0 <= i <= |a + [c] + b| && OccursAt(a + [c] + b, part, i);
      OccursOnOneSide(a, c, b, part, i);
    }
    hide Contains;
    if Contains(a, part) {
      Associative(a, [c], b);
      OccursInFirst(a, [c] + b, part);
    } else if Contains(b, part) {
      OccursInSecond(a + [c], b, part);
    }
  }

  /** A text without line feeds is found in a listing exactly if it is in one of its lines. */
  lemma {:induction false} FoundInALine(lines: seq<string>, part: string)
    requires part != "" && Free(part, '\n')
    ensures Contains(Unlines(lines), part) <==> exists k | 0 <= k < |lines| :: Contains(lines[k], part)
  {
    if lines != [] {
      hide Contains;
      var rest := lines[1..];
      FoundInALine(rest, part);
      AroundSeparator(lines[0], '\n', Unlines(rest), part);
      if k :| 0 <= k < |rest| && Contains(rest[k], part) {
        assert lines[k + 1] == rest[k];
      }
      if k :| 0 < k < |lines| && Contains(lines[k], part) {
        assert rest[k - 1] == lines[k];
      }
    }
  }

  /** The check finds the name exactly if some node's line shows it. */
  lemma CheckFindsShown(nodes: seq<Node>, sink: string)
    requires sink != "" && Free(sink, '\n')
    ensures Contains(RenderSinks(nodes), sink) <==> Shown(nodes, sink)
  {
    var lines := NodeLines(nodes);
    FoundInALine(lines, sink);
    hide Contains, Unlines, NodeLine;
    if k :| 0 <= k < |lines| && Contains(lines[k], sink) {
      assert Shows(nodes[k], sink);
    }
    if k :| 0 <= k < |nodes| && Shows(nodes[k], sink) {
      assert lines[k] == NodeLine(nodes[k]);
    }
  }

  /** A name without tabs shows in one of the fields: as part of the index, of the name or of the rest. */
  lemma ShownInNameOrLater(node: Node, sink: string)
    requires sink != "" && Free(sink, '\t')
    ensures Shows(node, sink)
       <==> Contains(Decimal(node.index), sink) || Contains(node.name, sink) || Contains(node.rest, sink)
  {
    hide Contains, Decimal;
    assert NodeLine(node) == Decimal(node.index) + ['\t'] + (node.name + ['\t'] + node.rest);
    AroundSeparator(Decimal(node.index), '\t', node.name + ['\t'] + node.rest, sink);
    AroundSeparator(node.name, '\t', node.rest, sink);
  }

  lemma NodeShowsItsName(node: Node)
    ensures Shows(node, node.name)
  {
    ContainsItself(node.name);
    hide Contains, Decimal;
    OccursInFirst(node.name, "\t" + node.rest, node.name);
    Associative(node.name, "\t", node.rest);
    OccursInSecond(Decimal(node.index) + "\t", node.name + "\t" + node.rest, node.name);
  }

  // ---- When the check is right ------------------------------------------------------------------

  /** The name shows only in the lines of nodes that have it. */
  predicate NoLookalikes(nodes: seq<Node>, sink: string) {
    forall k | 0 <= k < |nodes| && nodes[k].name != sink :: !Shows(nodes[k], sink)
  }

  lemma ShownIsLiveIff(nodes: seq<Node>, sink: string)
    ensures Live(nodes, sink) ==> Shown(nodes, sink)
    ensures (Shown(nodes, sink) <==> Live(nodes, sink)) <==> Live(nodes, sink) || NoLookalikes(nodes, sink)
  {
    hide Shows;
    if k :| 0 <= k < |nodes| && nodes[k].name == sink {
      NodeShowsItsName(nodes[k]);
    }
  }

  /** With a module record found and the sinks listed: the record is unloaded as stale exactly if no line shows
      the name, and is reused as it is otherwise. That is right, stale meaning that the node is gone, if and
      only if the node is live or no other node's line shows the name. */
  lemma StaleCheckIsRightIff(rows: seq<Row>, sink: string, description: string, a: Answers, nodes: seq<Node>)
    requires Table(rows) && Tight(sink) && Free(sink, '\n')
    requires a.listed == Told && a.sinks == Output(RenderSinks(nodes))
    ensures FirstMention(rows, sink).Some? ==>
      && (Stale(rows, sink, a) <==> !Shown(nodes, sink))
      && (Shown(nodes, sink) ==> Ensure(rows, sink, description, a) == (Ready(FirstMention(rows, sink), true), rows))
      && ((Stale(rows, sink, a) <==> !Live(nodes, sink)) <==> Live(nodes, sink) || NoLookalikes(nodes, sink))
  {
    hide ParseVerbose, RenderVerbose, Renderable, Contains, DistinctIds, FirstMention, Create, AtLoad, RenderSinks,
      Live, Shown, NoLookalikes, Free;
    VerboseParserIsRight(rows, sink);
    CheckFindsShown(nodes, sink);
    ShownIsLiveIff(nodes, sink);
  }

  /** The whole bring-up, with the sinks listed before and after the loads: it reports the sink ready exactly if
      it found a record and the name shows before, or it was not cut short and the name shows after. Without
      lookalikes this means that the sink's node was live. */
  lemma ReadySinkIsShown(rows: seq<Row>, sink: string, description: string, a: Answers, before: seq<Node>,
                         after: seq<Node>)
    requires Table(rows) && Tight(sink) && Free(sink, '\n') && a.listed == Told
    requires a.sinks == Output(RenderSinks(before)) && a.verify == Output(RenderSinks(after))
    ensures var found, dead := FirstMention(rows, sink).Some?, Final(a.loads).Dead?;
      var ready := Ensure(rows, sink, description, a).0.Ready?;
      && (ready <==> (found && Shown(before, sink)) || (!dead && Shown(after, sink)))
      && (NoLookalikes(before, sink) && NoLookalikes(after, sink) ==>
            (ready <==> (found && Live(before, sink)) || (!dead && Live(after, sink))))
  {
    hide ParseVerbose, RenderVerbose, Renderable, Contains, DistinctIds, FirstMention, AtLoad, RenderSinks, Live,
      Shown, NoLookalikes, Free, Final, LastAttempt, AfterAttempts;
    VerboseParserIsRight(rows, sink);
    CheckFindsShown(before, sink);
    CheckFindsShown(after, sink);
    ShownIsLiveIff(before, sink);
    ShownIsLiveIff(after, sink);
  }

  /** A node whose name only begins with the sink's hides that the sink's own node is gone: whatever the table,
      the record found is reused, and no sink is made. */
  lemma LookalikeHidesDeadSink(rows: seq<Row>, sink: string, description: string, a: Answers, index: nat,
                               rest: string)
    requires Table(rows) && Tight(sink) && Free(sink, '\n') && a.listed == Told
    requires a.sinks == Output(RenderSinks([Node(index, sink + "-2", rest)]))
    ensures var nodes := [Node(index, sink + "-2", rest)];
      && !Live(nodes, sink) && Shown(nodes, sink)
      && (FirstMention(rows, sink).Some? ==>
            Ensure(rows, sink, description, a) == (Ready(FirstMention(rows, sink), true), rows))
  {
    var node := Node(index, sink + "-2", rest);
    ContainsItself(sink);
    hide Contains, Decimal;
    Associative(sink, "-2", "\t" + rest);
    assert NodeLine(node) == Decimal(index) + "\t" + (sink + ("-2" + ("\t" + rest)));
    OccursInFirst(sink, "-2" + ("\t" + rest), sink);
    OccursInSecond(Decimal(index) + "\t", sink + ("-2" + ("\t" + rest)), sink);
    assert Shows(node, sink);
    hide Shows, Ensure, RenderSinks, Table, Tight, Free, Stale, FirstMention;
    assert Shown([node], sink);
    StaleCheckIsRightIff(rows, sink, description, a, [node]);
  }
}
