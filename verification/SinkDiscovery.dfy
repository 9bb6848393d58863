/** Discovery on real listings: the sound cards and AirPlay receivers offered for the sink nodes of a server. */
module SinkDiscovery {
  import opened Wrappers
  import opened Text
  import opened Outputs
  import opened Discovery
  import opened SinkListing
  import ModuleTables

  // ---- What is to be offered --------------------------------------------------------------------

  /** Neither one of the program's own sinks, nor an AirPlay sink, an effect or a monitor. */
  predicate IsCard(name: string) {
    && !("soundsync" <= name)
    && !("raop_sink." <= name)
    && !Contains(name, "effect_")
    && !(|name| >= 8 && name[|name| - 8..] == ".monitor")
  }

  predicate IsReceiver(name: string) {
    "raop_sink." <= name
  }

  /** The names of the nodes that are sound cards, and of those that are AirPlay sinks. */
  function CardNames(nodes: seq<Node>): seq<string> {
    if nodes == [] then [] else (if IsCard(nodes[0].name) then [nodes[0].name] else []) + CardNames(nodes[1..])
  }

  function ReceiverNames(nodes: seq<Node>): seq<string> {
    if nodes == [] then [] else (if IsReceiver(nodes[0].name) then [nodes[0].name] else []) + ReceiverNames(nodes[1..])
  }

  /** Those of the names whose tag none before them has, in order. */
  function Firsts(names: seq<string>, tag: string -> string): seq<string> {
    if names == [] then []
    else
      var init, last := names[..|names| - 1], names[|names| - 1];
      Firsts(init, tag) + if exists i | 0 <= i < |init| :: tag(init[i]) == tag(last) then [] else [last]
  }

  function Cards(names: seq<string>): (cards: seq<Device>)
    ensures |cards| == |names|
  {
    seq(|names|, i requires 0 <= i < |names| => Device(Soundcard, names[i], names[i], None, None))
  }

  /** The friendly name of an AirPlay sink; FriendlyNameIs says what it is. */
  function Label(name: string): string {
    if IsReceiver(name) then FriendlyName(name) else ""
  }

  function Receivers(names: seq<string>): (receivers: seq<Device>)
    ensures |receivers| == |names|
  {
    seq(|names|, i requires 0 <= i < |names| => Device(Airplay, names[i], Label(names[i]), None, None))
  }

  /** Nodes that are listed as lines of fields: names without blanks around them. */
  ghost predicate Listable(nodes: seq<Node>) {
    forall i | 0 <= i < |nodes| ::
      Tight(nodes[i].name) && IsLine(nodes[i].name) && Free(nodes[i].name, '\t') && IsLine(nodes[i].rest)
  }

  // ---- A line -----------------------------------------------------------------------------------

  lemma SplitAfterTwo(a: string, b: string, rest: string)
    requires Free(a, '\t') && Free(b, '\t')
    ensures Split(a + "\t" + b + "\t" + rest, '\t') == [a, b] + Split(rest, '\t')
  {
    var pieces := Split(rest, '\t');
    JoinOfSplit(rest, '\t');
    assert ([a, b] + pieces)[1..] == [b] + pieces && ([b] + pieces)[1..] == pieces;
    assert Join([a, b] + pieces, '\t') == a + ['\t'] + (b + ['\t'] + rest);
    assert a + "\t" + b + "\t" + rest == a + ['\t'] + (b + ['\t'] + rest);
    hide Split, Join;
    SplitOfJoin([a, b] + pieces, '\t');
  }

  /** A line of an index, a name and perhaps more has the name as its second field. */
  lemma SecondField(line: string, index: string, name: string, more: Option<string>)
    requires Tight(line) && Free(index, '\t') && Free(name, '\t')
    requires line == match more case None => index + "\t" + name case Some(rest) => index + "\t" + name + "\t" + rest
    ensures Trim(line) == line
    ensures |SplitN(line, '\t', 5)| >= 2 && SplitN(line, '\t', 5)[1] == name
  {
    TrimOfTight(line);
    hide Trim, Tight;
    match more {
      case None =>
        JoinOfTwo(index, name, '\t');
        hide Split, Join;
        SplitOfJoin([index, name], '\t');
      case Some(rest) =>
        hide Split, Join;
        SplitAfterTwo(index, name, rest);
    }
  }

  /** What a node's line is trimmed to. */
  lemma TrimmedLine(node: Node) returns (more: Option<string>)
    requires Tight(node.name)
    ensures var index, name, line := Decimal(node.index), node.name, Trim(NodeLine(node));
      && Tight(line) && Trim(line) == line
      && line == match more case None => index + "\t" + name case Some(rest) => index + "\t" + name + "\t" + rest
  {
    ModuleTables.DecimalIsTight(node.index);
    var index, name := Decimal(node.index), node.name;
    var head, tail := index + "\t" + name, "\t" + node.rest;
    assert Tight(head) && NodeLine(node) == head + tail;
    hide Decimal, Tight, NodeLine, Trim;
    TrimmedIsTight(head, tail);
    TrimKeepsHead(head, tail);
    TrimOfTight(Trim(head + tail));
    more := CutTail(head, node.rest, |Trim(head + tail)| - |head|);
  }

  lemma CutTail(head: string, rest: string, kept: nat) returns (more: Option<string>)
    requires kept <= 1 + |rest|
    ensures head + ("\t" + rest)[..kept] == match more case None => head case Some(left) => head + "\t" + left
  {
    var tail := "\t" + rest;
    if kept == 0 {
      more := None;
      assert tail[..kept] == [] && head + [] == head;
    } else {
      var left := rest[..kept - 1];
      more := Some(left);
      assert tail[..kept] == "\t" + left;
      Associative(head, "\t", left);
    }
  }

  lemma TrimmedIsTight(head: string, tail: string)
    requires Tight(head)
    ensures Tight(Trim(head + tail))
  {
    TrimKeepsHead(head, tail);
    hide TrimStart, TrimEnd;
    var r := Trim(head + tail);
    assert r[0] == head[0];
  }

  /** The second field of a node's line, trimmed as it is, is the node's name. */
  lemma NameOfLine(node: Node)
    requires Tight(node.name) && Free(node.name, '\t')
    ensures SinkName(NodeLine(node)) == Some(node.name)
  {
    ModuleTables.DecimalIsTight(node.index);
    var more := TrimmedLine(node);
    var line := Trim(NodeLine(node));
    hide Trim, NodeLine, Decimal, SplitN;
    assert line != "";
    SecondField(line, Decimal(node.index), node.name, more);
    hide Tight, Free;
  }

  lemma LinesOfNodes(nodes: seq<Node>)
    requires Listable(nodes)
    ensures Lines(RenderSinks(nodes)) == NodeLines(nodes)
  {
    var lines := NodeLines(nodes);
    forall i | 0 <= i < |lines| ensures IsLine(lines[i]) {
      ModuleTables.DecimalIsTight(nodes[i].index);
      assert lines[i] == NodeLine(nodes[i]);
      hide Decimal;
    }
    hide Lines, Unlines, NodeLines, IsLine;
    LinesOfUnlines(lines);
  }

  // ---- The listing ------------------------------------------------------------------------------

  lemma NodeIsParsed(node: Node)
    requires Tight(node.name) && Free(node.name, '\t')
    ensures SoundcardLine(NodeLine(node))
         == if IsCard(node.name) then Some(Device(Soundcard, node.name, node.name, None, None)) else None
    ensures RaopLine(NodeLine(node))
         == if IsReceiver(node.name) then Some(Device(Airplay, node.name, Label(node.name), None, None)) else None
  {
    NameOfLine(node);
    hide SinkName, NodeLine, Tight, Free, Contains, FriendlyName;
  }

  lemma OneMoreName(name: string, names: seq<string>)
    ensures Cards([name] + names) == [Device(Soundcard, name, name, None, None)] + Cards(names)
    ensures Receivers([name] + names) == [Device(Airplay, name, Label(name), None, None)] + Receivers(names)
  {
    hide Label;
  }

  lemma FirstNodeLine(nodes: seq<Node>)
    requires nodes != []
    ensures NodeLines(nodes)[1..] == NodeLines(nodes[1..]) && NodeLines(nodes)[0] == NodeLine(nodes[0])
  {
    hide NodeLine;
  }

  lemma CollectOne<T>(lines: seq<string>, first: string, rest: seq<string>, parse: string -> Option<T>)
    requires lines != [] && lines[0] == first && lines[1..] == rest
    ensures Collect(lines, parse)
         == match parse(first) case None => Collect(rest, parse) case Some(x) => [x] + Collect(rest, parse)
  {
  }

  lemma {:induction false} CardsCollected(nodes: seq<Node>)
    requires Listable(nodes)
    ensures Collect(NodeLines(nodes), SoundcardLine) == Cards(CardNames(nodes))
  {
    if nodes != [] {
      var node, rest := nodes[0], nodes[1..];
      FirstNodeLine(nodes);
      CollectOne(NodeLines(nodes), NodeLine(node), NodeLines(rest), SoundcardLine);
      NodeIsParsed(node);
      CardsCollected(rest);
      OneMoreName(node.name, CardNames(rest));
      var names := if IsCard(node.name) then [node.name] else [];
      assert CardNames(nodes) == names + CardNames(rest);
      hide *;
      assert [] + CardNames(rest) == CardNames(rest);
    }
  }

  lemma {:induction false} ReceiversCollected(nodes: seq<Node>)
    requires Listable(nodes)
    ensures Collect(NodeLines(nodes), RaopLine) == Receivers(ReceiverNames(nodes))
  {
    if nodes != [] {
      var node, rest := nodes[0], nodes[1..];
      FirstNodeLine(nodes);
      CollectOne(NodeLines(nodes), NodeLine(node), NodeLines(rest), RaopLine);
      NodeIsParsed(node);
      ReceiversCollected(rest);
      OneMoreName(node.name, ReceiverNames(rest));
      var names := if IsReceiver(node.name) then [node.name] else [];
      assert ReceiverNames(nodes) == names + ReceiverNames(rest);
      hide *;
      assert [] + ReceiverNames(rest) == ReceiverNames(rest);
    }
  }

  lemma {:induction false} UnseenSnoc<K>(devices: seq<Device>, d: Device, key: Device -> K, seen: set<K>)
    ensures Unseen(devices + [d], key, seen) == Unseen(devices, key, seen) +
      if key(d) in seen || exists i | 0 <= i < |devices| :: key(devices[i]) == key(d) then [] else [d]
  {
    if devices == [] {
      assert [] + [d] == [d];
    } else {
      assert (devices + [d])[1..] == devices[1..] + [d];
      var seen' := if key(devices[0]) in seen then seen else seen + {key(devices[0])};
      UnseenSnoc(devices[1..], d, key, seen');
      assert (exists i | 0 <= i < |devices| :: key(devices[i]) == key(d)) <==>
             key(devices[0]) == key(d) || exists i | 0 <= i < |devices[1..]| :: key(devices[1..][i]) == key(d) by {
        if i :| 0 < i < |devices| && key(devices[i]) == key(d) {
          assert devices[1..][i - 1] == devices[i];
        }
        if i :| 0 <= i < |devices[1..]| && key(devices[1..][i]) == key(d) {
          assert devices[i + 1] == devices[1..][i];
        }
      }
    }
  }

  lemma {:induction false} CardsDeduped(names: seq<string>)
    ensures Dedup(Cards(names), ById) == Cards(Firsts(names, (name: string) => name))
  {
    if names != [] {
      var init, last := names[..|names| - 1], names[|names| - 1];
      CardsDeduped(init);
      var d := Device(Soundcard, last, last, None, None);
      assert Cards(names) == Cards(init) + [d];
      UnseenSnoc(Cards(init), d, ById, {});
      assert (exists i | 0 <= i < |init| :: init[i] == last)
        <==> (exists i | 0 <= i < |Cards(init)| :: ById(Cards(init)[i]) == ById(d)) by {
        if i :| 0 <= i < |init| && init[i] == last {
          assert ById(Cards(init)[i]) == ById(d);
        }
      }
    }
  }

  lemma {:induction false} ReceiversDeduped(names: seq<string>)
    ensures Dedup(Receivers(names), ByName) == Receivers(Firsts(names, Label))
  {
    hide Label;
    if names != [] {
      var init, last := names[..|names| - 1], names[|names| - 1];
      ReceiversDeduped(init);
      var d := Device(Airplay, last, Label(last), None, None);
      assert Receivers(names) == Receivers(init) + [d];
      UnseenSnoc(Receivers(init), d, ByName, {});
      assert (exists i | 0 <= i < |init| :: Label(init[i]) == Label(last))
        <==> (exists i | 0 <= i < |Receivers(init)| :: ByName(Receivers(init)[i]) == ByName(d)) by {
        if i :| 0 <= i < |init| && Label(init[i]) == Label(last) {
          assert ByName(Receivers(init)[i]) == ByName(d);
        }
      }
    }
  }

  /** On the listing of any nodes: the sound cards offered are exactly the nodes that are sound cards, each name
      once, in order, with the node's name as id and as name; the AirPlay devices exactly the nodes that are
      AirPlay sinks, the first of each friendly name. */
  lemma NodesAreOffered(avahi: Option<string>, nodes: seq<Node>)
    requires Listable(nodes)
    ensures var available := Probed(avahi, Some(RenderSinks(nodes)));
      && available.soundcard == Cards(Firsts(CardNames(nodes), (name: string) => name))
      && available.airplay == Receivers(Firsts(ReceiverNames(nodes), Label))
  {
    LinesOfNodes(nodes);
    CardsCollected(nodes);
    ReceiversCollected(nodes);
    CardsDeduped(CardNames(nodes));
    ReceiversDeduped(ReceiverNames(nodes));
    hide Lines, RenderSinks, Collect, Dedup, Cards, Receivers, Firsts, ParseChromecasts, SoundcardLine, RaopLine;
  }

  /** The friendly name is what stands between "raop_sink." and the last ".local", or all of the rest without
      one. */
  lemma FriendlyNameIs(friendly: string, tail: string)
    requires if tail == "" then !Contains(friendly, ".local")
             else ".local" <= tail && forall j | 0 < j <= |tail| :: !OccursAt(tail, ".local", j)
    ensures Label("raop_sink." + friendly + tail) == friendly
  {
    if tail == "" {
      var sink := "raop_sink." + friendly + tail;
      assert sink[10..] == friendly;
    } else {
      var rest := tail[6..];
      assert tail == ".local" + rest;
      FriendlyNameRoundTrip(friendly, rest);
      Associative("raop_sink." + friendly, ".local", rest);
    }
  }
}
