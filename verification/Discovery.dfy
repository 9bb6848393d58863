/** Discovery of outputs: parsers for the listings of avahi and pactl, and first-wins deduplication. */
module Discovery {
  import opened Wrappers
  import opened Text
  import opened Outputs
  import ModuleTables

  // ---- Deduplication ----------------------------------------------------------------------------

  /** Order-preserving and first-wins, from some point on: keys in `seen` have occurred before. */
  function Unseen<K(==)>(devices: seq<Device>, key: Device -> K, seen: set<K>): seq<Device> {
    if devices == [] then []
    else if key(devices[0]) in seen then Unseen(devices[1..], key, seen)
    else [devices[0]] + Unseen(devices[1..], key, seen + {key(devices[0])})
  }

  function Dedup<K(==)>(devices: seq<Device>, key: Device -> K): seq<Device> {
    Unseen(devices, key, {})
  }

  method DedupBy<K(==)>(devices: seq<Device>, key: Device -> K) returns (kept: seq<Device>)
    ensures kept == Dedup(devices, key)
  {
    var seen := {};
    kept := [];
    for i := 0 to |devices|
      invariant kept + Unseen(devices[i..], key, seen) == Dedup(devices, key)
    {
      assert devices[i..][1..] == devices[i + 1..];
      if key(devices[i]) !in seen {
        seen := seen + {key(devices[i])};
        kept := kept + [devices[i]];
      }
    }
  }

  function FirstWith<K(==)>(devices: seq<Device>, key: Device -> K, k: K): Option<Device> {
    if devices == [] then None
    else if key(devices[0]) == k then Some(devices[0])
    else FirstWith(devices[1..], key, k)
  }

  ghost predicate DistinctKeys<K>(devices: seq<Device>, key: Device -> K) {
    forall i, j | 0 <= i < j < |devices| :: key(devices[i]) != key(devices[j])
  }

  lemma {:induction false} UnseenIsRight<K>(devices: seq<Device>, key: Device -> K, seen: set<K>, k: K)
    ensures var kept := Unseen(devices, key, seen);
      && DistinctKeys(kept, key)
      && (forall i | 0 <= i < |kept| :: key(kept[i]) !in seen && kept[i] in devices)
      && FirstWith(kept, key, k) == if k in seen then None else FirstWith(devices, key, k)
  {
    if devices != [] {
      var seen' := if key(devices[0]) in seen then seen else seen + {key(devices[0])};
      UnseenIsRight(devices[1..], key, seen', k);
    }
  }

  /** Deduplication keeps, for every key, the first device with it, and no second one. */
  lemma DedupKeepsFirsts<K>(devices: seq<Device>, key: Device -> K, k: K)
    ensures DistinctKeys(Dedup(devices, key), key)
    ensures FirstWith(Dedup(devices, key), key, k) == FirstWith(devices, key, k)
    ensures forall i | 0 <= i < |Dedup(devices, key)| :: Dedup(devices, key)[i] in devices
  {
    UnseenIsRight(devices, key, {}, k);
  }

  // ---- Lines ------------------------------------------------------------------------------------

  /** `splitn(n, c)`: at most n pieces, the last one holding the rest. */
  function SplitN(text: string, c: char, n: nat): (pieces: seq<string>)
    requires n > 0
    ensures 0 < |pieces| <= n
  {
    var pieces := Split(text, c);
    if |pieces| <= n then pieces else pieces[..n - 1] + [Join(pieces[n - 1..], c)]
  }

  /** The value of the first `key=value` token among double-quoted ones. */
  function TxtValue(chunks: seq<string>, prefix: string, i: nat): Option<string>
    requires i <= |chunks|
    decreases |chunks| - i
  {
    if i == |chunks| then None
    else if i % 2 == 1 && prefix <= chunks[i] then Some(chunks[i][|prefix|..])
    else TxtValue(chunks, prefix, i + 1)
  }

  function ExtractTxtValue(txt: string, key: string): Option<string> {
    TxtValue(Split(txt, '"'), key + "=", 0)
  }

  /** A Chromecast, and whether it came from an IPv4 line. */
  datatype Entry = Entry(device: Device, ipv4: bool)

  function ChromecastLine(text: string): Option<Entry> {
    var line := Trim(text);
    if !("=" <= line) then None
    else
      var fields := SplitN(line, ';', 10);
      if |fields| < 10 then None
      else
        var port := ParseUnsigned(fields[8], U16_RANGE);
        var name, id := ExtractTxtValue(fields[9], "fn"), ExtractTxtValue(fields[9], "id");
        if port.None? || name.None? || name.value == "" || id.None? || id.value == "" then None
        else Some(Entry(Device(Chromecast, id.value, name.value, Some(fields[7]), Some(port.value)), fields[2] == "IPv4"))
  }

  function SinkName(text: string): Option<string> {
    var line := Trim(text);
    var fields := SplitN(line, '\t', 5);
    if line == "" || |fields| < 2 then None else Some(fields[1])
  }

  const RAOP_PREFIX := "raop_sink."

  /** Start of the last occurrence that ends by `end`. */
  function FindLast(text: string, part: string, end: nat): (r: Option<nat>)
    requires end <= |text|
    ensures match r
      case Some(i) => i <= end && OccursAt(text, part, i) && forall j | i < j <= end :: !OccursAt(text, part, j)
      case None => forall j | 0 <= j <= end :: !OccursAt(text, part, j)
  {
    if OccursAt(text, part, end) then Some(end)
    else if end == 0 then None
    else FindLast(text, part, end - 1)
  }

  /** The friendly name in a RAOP sink's name: what comes before the last ".local". */
  function FriendlyName(sink: string): string
    requires RAOP_PREFIX <= sink
  {
    var rest := sink[|RAOP_PREFIX|..];
    match FindLast(rest, ".local", |rest|)
    case Some(i) => rest[..i]
    case None => rest
  }

  function RaopLine(text: string): Option<Device> {
    match SinkName(text)
    case None => None
    case Some(sink) =>
      if RAOP_PREFIX <= sink then Some(Device(Airplay, sink, FriendlyName(sink), None, None)) else None
  }

  predicate IsHardware(name: string) {
    && !("soundsync" <= name)
    && !(RAOP_PREFIX <= name)
    && !Contains(name, "effect_")
    && !(|name| >= 8 && name[|name| - 8..] == ".monitor")
  }

  function SoundcardLine(text: string): Option<Device> {
    match SinkName(text)
    case None => None
    case Some(name) => if IsHardware(name) then Some(Device(Soundcard, name, name, None, None)) else None
  }

  // ---- Listings ---------------------------------------------------------------------------------

  function Collect<T>(lines: seq<string>, parse: string -> Option<T>): seq<T> {
    if lines == [] then []
    else
      match parse(lines[0])
      case None => Collect(lines[1..], parse)
      case Some(x) => [x] + Collect(lines[1..], parse)
  }

  method CollectLines<T>(lines: seq<string>, parse: string -> Option<T>) returns (found: seq<T>)
    ensures found == Collect(lines, parse)
  {
    found := [];
    for i := 0 to |lines|
      invariant found + Collect(lines[i..], parse) == Collect(lines, parse)
    {
      assert lines[i..][1..] == lines[i + 1..];
      match parse(lines[i]) {
        case None =>
        case Some(x) => found := found + [x];
      }
    }
  }

  lemma {:induction false} Collected<T>(lines: seq<string>, parse: string -> Option<T>, i: nat)
    requires i < |Collect(lines, parse)|
    ensures exists k :: 0 <= k < |lines| && parse(lines[k]) == Some(Collect(lines, parse)[i])
  {
    match parse(lines[0]) {
      case None =>
        Collected(lines[1..], parse, i);
        var k :| 0 <= k < |lines[1..]| && parse(lines[1..][k]) == Some(Collect(lines, parse)[i]);
        assert lines[k + 1] == lines[1..][k];
      case Some(x) =>
        if i > 0 {
          Collected(lines[1..], parse, i - 1);
          var k :| 0 <= k < |lines[1..]| && parse(lines[1..][k]) == Some(Collect(lines, parse)[i]);
          assert lines[k + 1] == lines[1..][k];
        }
    }
  }

  function Devices(entries: seq<Entry>): seq<Device> {
    if entries == [] then [] else [entries[0].device] + Devices(entries[1..])
  }

  function OfProtocol(entries: seq<Entry>, ipv4: bool): seq<Entry> {
    if entries == [] then []
    else (if entries[0].ipv4 == ipv4 then [entries[0]] else []) + OfProtocol(entries[1..], ipv4)
  }

  /** Stably sorted with the IPv4 entries first. */
  function Ipv4First(entries: seq<Entry>): seq<Entry> {
    OfProtocol(entries, true) + OfProtocol(entries, false)
  }

  /** A sequence is that sorted one if and only if it is sorted by protocol and keeps the order, and the
      number, of the entries of each protocol. */
  lemma StableSortIsUnique(entries: seq<Entry>, sorted: seq<Entry>)
    ensures sorted == Ipv4First(entries)
       <==> && (forall i, j | 0 <= i < j < |sorted| :: sorted[j].ipv4 ==> sorted[i].ipv4)
            && OfProtocol(sorted, true) == OfProtocol(entries, true)
            && OfProtocol(sorted, false) == OfProtocol(entries, false)
  {
    OfProtocolOnly(entries, true);
    OfProtocolOnly(entries, false);
    SortedByProtocol(OfProtocol(entries, true), OfProtocol(entries, false));
    if forall i, j | 0 <= i < j < |sorted| :: sorted[j].ipv4 ==> sorted[i].ipv4 {
      SortedIsParts(sorted);
    }
  }

  lemma {:induction false} OfProtocolOnly(entries: seq<Entry>, ipv4: bool)
    ensures forall i | 0 <= i < |OfProtocol(entries, ipv4)| :: OfProtocol(entries, ipv4)[i].ipv4 == ipv4
  {
    if entries != [] {
      OfProtocolOnly(entries[1..], ipv4);
    }
  }

  lemma {:induction false} SortedByProtocol(a: seq<Entry>, b: seq<Entry>)
    requires forall i | 0 <= i < |a| :: a[i].ipv4
    requires forall i | 0 <= i < |b| :: !b[i].ipv4
    ensures OfProtocol(a + b, true) == a && OfProtocol(a + b, false) == b
  {
    if a != [] {
      assert (a + b)[1..] == a[1..] + b;
      SortedByProtocol(a[1..], b);
    } else if b != [] {
      assert a + b == b;
      SortedByProtocol(a, b[1..]);
      assert a + b[1..] == b[1..];
    }
  }

  lemma {:induction false} SortedIsParts(sorted: seq<Entry>)
    requires forall i, j | 0 <= i < j < |sorted| :: sorted[j].ipv4 ==> sorted[i].ipv4
    ensures sorted == OfProtocol(sorted, true) + OfProtocol(sorted, false)
  {
    if sorted != [] {
      SortedIsParts(sorted[1..]);
      if !sorted[0].ipv4 {
        NoneLeft(sorted[1..]);
      }
    }
  }

  lemma {:induction false} NoneLeft(entries: seq<Entry>)
    requires forall i | 0 <= i < |entries| :: !entries[i].ipv4
    ensures OfProtocol(entries, true) == []
  {
    if entries != [] {
      NoneLeft(entries[1..]);
    }
  }

  function ParseChromecasts(avahi: string): seq<Device> {
    Devices(Ipv4First(Collect(Lines(avahi), ChromecastLine)))
  }

  function ById(d: Device): string {
    d.id
  }

  function ByName(d: Device): string {
    d.name
  }

  /** From what each command printed, or None if it could not be run. */
  function Probed(avahi: Option<string>, sinks: Option<string>): Available {
    var chromecast := if avahi.None? then [] else ParseChromecasts(avahi.value);
    var soundcard := if sinks.None? then [] else Collect(Lines(sinks.value), SoundcardLine);
    var airplay := if sinks.None? then [] else Collect(Lines(sinks.value), RaopLine);
    Available(Dedup(soundcard, ById), Dedup(airplay, ByName), Dedup(chromecast, ById))
  }

  method ProbeOutputs(avahi: Option<string>, sinks: Option<string>) returns (available: Available)
    ensures available == Probed(avahi, sinks)
  {
    var soundcard, airplay, chromecast := [], [], [];
    if avahi.Some? {
      var entries := CollectLines(Lines(avahi.value), ChromecastLine);
      chromecast := DedupBy(Devices(Ipv4First(entries)), ById);
    }
    if sinks.Some? {
      var cards := CollectLines(Lines(sinks.value), SoundcardLine);
      soundcard := DedupBy(cards, ById);
      var receivers := CollectLines(Lines(sinks.value), RaopLine);
      airplay := DedupBy(receivers, ByName);
    }
    available := Available(soundcard, airplay, chromecast);
  }

  // ---- The promises -----------------------------------------------------------------------------

  /** The entry of a device: the first from an IPv4 line if there is one, and otherwise the first. */
  function Best(entries: seq<Entry>, id: string): Option<Device> {
    match FirstEntry(entries, id, true)
    case Some(d) => Some(d)
    case None => FirstEntry(entries, id, false)
  }

  /** The first entry with that id; from an IPv4 line if that is asked for. */
  function FirstEntry(entries: seq<Entry>, id: string, ipv4Only: bool): Option<Device> {
    if entries == [] then None
    else if entries[0].device.id == id && (ipv4Only ==> entries[0].ipv4) then Some(entries[0].device)
    else FirstEntry(entries[1..], id, ipv4Only)
  }

  lemma {:induction false} FirstOfParts(a: seq<Entry>, b: seq<Entry>, id: string)
    ensures FirstWith(Devices(a + b), ById, id) ==
      match FirstWith(Devices(a), ById, id) case Some(d) => Some(d) case None => FirstWith(Devices(b), ById, id)
  {
    if a == [] {
      assert a + b == b;
    } else {
      assert (a + b)[1..] == a[1..] + b;
      FirstOfParts(a[1..], b, id);
    }
  }

  lemma {:induction false} FirstOfProtocol(entries: seq<Entry>, id: string)
    ensures FirstWith(Devices(OfProtocol(entries, true)), ById, id) == FirstEntry(entries, id, true)
    ensures FirstEntry(entries, id, true).None?
      ==> FirstWith(Devices(OfProtocol(entries, false)), ById, id) == FirstEntry(entries, id, false)
  {
    if entries != [] {
      FirstOfProtocol(entries[1..], id);
      OneEntry(entries[0], OfProtocol(entries[1..], true), id);
      OneEntry(entries[0], OfProtocol(entries[1..], false), id);
      var other := !entries[0].ipv4;
      assert OfProtocol(entries, other) == [] + OfProtocol(entries[1..], other) == OfProtocol(entries[1..], other);
    }
  }

  lemma OneEntry(entry: Entry, rest: seq<Entry>, id: string)
    ensures FirstWith(Devices([entry] + rest), ById, id) ==
      if entry.device.id == id then Some(entry.device) else FirstWith(Devices(rest), ById, id)
  {
    assert ([entry] + rest)[1..] == rest;
  }

  /** Of every avahi listing: each id of a resolved line is shown exactly once, with the address of its first
      IPv4 line if it has one and otherwise of its first line. */
  lemma ChromecastsPreferIpv4(avahi: string, sinks: Option<string>, id: string)
    ensures var chromecasts := Probed(Some(avahi), sinks).chromecast;
      && DistinctKeys(chromecasts, ById)
      && FirstWith(chromecasts, ById, id) == Best(Collect(Lines(avahi), ChromecastLine), id)
  {
    hide Lines, ChromecastLine;
    var entries := Collect(Lines(avahi), ChromecastLine);
    DedupKeepsFirsts(ParseChromecasts(avahi), ById, id);
    FirstOfParts(OfProtocol(entries, true), OfProtocol(entries, false), id);
    FirstOfProtocol(entries, id);
  }

  lemma {:induction false} DeviceOfEntry(entries: seq<Entry>, i: nat)
    requires i < |Devices(entries)|
    ensures |Devices(entries)| == |entries| && Devices(entries)[i] == entries[i].device
  {
    if i > 0 {
      DeviceOfEntry(entries[1..], i - 1);
    } else if |entries| > 1 {
      DevicesLength(entries);
    }
  }

  lemma {:induction false} DevicesLength(entries: seq<Entry>)
    ensures |Devices(entries)| == |entries|
  {
    if entries != [] {
      DevicesLength(entries[1..]);
    }
  }

  lemma {:induction false} OfProtocolKeeps(entries: seq<Entry>, ipv4: bool, i: nat)
    requires i < |OfProtocol(entries, ipv4)|
    ensures OfProtocol(entries, ipv4)[i] in entries
  {
    if entries[0].ipv4 != ipv4 {
      OfProtocolKeeps(entries[1..], ipv4, i);
    } else if i > 0 {
      OfProtocolKeeps(entries[1..], ipv4, i - 1);
    }
  }

  lemma ChromecastKind(avahi: string, d: Device)
    requires d in ParseChromecasts(avahi)
    ensures d.kind == Chromecast
  {
    hide Lines, ChromecastLine;
    var entries := Collect(Lines(avahi), ChromecastLine);
    var a, b := OfProtocol(entries, true), OfProtocol(entries, false);
    var i :| 0 <= i < |ParseChromecasts(avahi)| && ParseChromecasts(avahi)[i] == d;
    DeviceOfEntry(a + b, i);
    if i < |a| {
      OfProtocolKeeps(entries, true, i);
    } else {
      OfProtocolKeeps(entries, false, i - |a|);
    }
    var k :| 0 <= k < |entries| && entries[k].device == d;
    Collected(Lines(avahi), ChromecastLine, k);
    var n :| 0 <= n < |Lines(avahi)| && ChromecastLine(Lines(avahi)[n]) == Some(entries[k]);
    ChromecastLineKind(Lines(avahi)[n]);
  }

  lemma ChromecastLineKind(line: string)
    ensures ChromecastLine(line).Some? ==> ChromecastLine(line).value.device.kind == Chromecast
  {
  }

  lemma ChromecastsAreCasts(avahi: string)
    ensures var kept := Dedup(ParseChromecasts(avahi), ById);
      DistinctKeys(kept, ById) && forall i | 0 <= i < |kept| :: kept[i].kind == Chromecast
  {
    DedupKeepsFirsts(ParseChromecasts(avahi), ById, "");
    hide ParseChromecasts, Dedup;
    forall d | d in ParseChromecasts(avahi) ensures d.kind == Chromecast {
      ChromecastKind(avahi, d);
    }
  }

  lemma SoundcardsAreHardware(sinks: string)
    ensures var kept := Dedup(Collect(Lines(sinks), SoundcardLine), ById);
      DistinctKeys(kept, ById) && forall i | 0 <= i < |kept| :: kept[i].kind == Soundcard && IsHardware(kept[i].id)
  {
    hide Lines, IsHardware, Dedup, SinkName;
    var cards := Collect(Lines(sinks), SoundcardLine);
    DedupKeepsFirsts(cards, ById, "");
    forall d | d in cards ensures d.kind == Soundcard && IsHardware(d.id) {
      var i :| 0 <= i < |cards| && cards[i] == d;
      Collected(Lines(sinks), SoundcardLine, i);
    }
    hide Collect, SoundcardLine;
  }

  lemma ReceiversAreRaop(sinks: string)
    ensures var kept := Dedup(Collect(Lines(sinks), RaopLine), ByName);
      DistinctKeys(kept, ById) && forall i | 0 <= i < |kept| :: kept[i].kind == Airplay && RAOP_PREFIX <= kept[i].id
  {
    hide Lines, FriendlyName, Dedup, SinkName;
    var receivers := Collect(Lines(sinks), RaopLine);
    DedupKeepsFirsts(receivers, ByName, "");
    forall d | d in receivers ensures d.kind == Airplay && RAOP_PREFIX <= d.id && d.name == FriendlyName(d.id) {
      var i :| 0 <= i < |receivers| && receivers[i] == d;
      Collected(Lines(sinks), RaopLine, i);
    }
    hide Collect, RaopLine;
  }

  /** Whatever the commands print, devices are listed under their kind, and none twice; sound cards and AirPlay
      sinks are told apart, and none of this program's own sinks is offered. */
  lemma ProbedIsWellKinded(avahi: Option<string>, sinks: Option<string>)
    ensures var available := Probed(avahi, sinks);
      && WellKinded(available)
      && (forall i | 0 <= i < |available.soundcard| :: IsHardware(available.soundcard[i].id))
      && (forall i | 0 <= i < |available.airplay| :: RAOP_PREFIX <= available.airplay[i].id)
      && DistinctKeys(available.soundcard, ById)
      && DistinctKeys(available.airplay, ById)
      && DistinctKeys(available.chromecast, ById)
  {
    hide Lines, IsHardware, ParseChromecasts, Collect, Dedup, DistinctKeys;
    EmptyIsDistinct(ById);
    if avahi.Some? {
      ChromecastsAreCasts(avahi.value);
    }
    if sinks.Some? {
      SoundcardsAreHardware(sinks.value);
      ReceiversAreRaop(sinks.value);
    }
    assert Dedup([], ById) == [] && Dedup([], ByName) == [] by { DedupOfEmpty(); }
  }

  lemma EmptyIsDistinct<K>(key: Device -> K)
    ensures DistinctKeys([], key)
  {
  }

  lemma DedupOfEmpty()
    ensures Dedup([], ById) == [] && Dedup([], ByName) == []
  {
  }

  // ---- Lines as the tools print them ------------------------------------------------------------

  /** The name of a RAOP sink gives the receiver's name back, even if that name itself contains ".local". */
  lemma FriendlyNameRoundTrip(friendly: string, rest: string)
    requires forall j | 0 < j <= |".local" + rest| :: !OccursAt(".local" + rest, ".local", j)
    ensures FriendlyName("raop_sink." + friendly + ".local" + rest) == friendly
  {
    var tail := ".local" + rest;
    var sink := RAOP_PREFIX + friendly + ".local" + rest;
    assert sink[|RAOP_PREFIX|..] == friendly + tail;
    var text := friendly + tail;
    assert text[|friendly|..|friendly| + 6] == ".local";
    assert OccursAt(text, ".local", |friendly|);
    forall j | |friendly| < j <= |text| ensures !OccursAt(text, ".local", j) {
      if OccursAt(text, ".local", j) {
        assert tail[j - |friendly|..j - |friendly| + 6] == text[j..j + 6];
        assert OccursAt(tail, ".local", j - |friendly|);
      }
    }
  }

  /** Quoted tokens with blanks between them, as pieces between the quotes. */
  function Chunks(tokens: seq<string>, lead: string): seq<string> {
    if tokens == [] then [""] else [lead, tokens[0]] + Chunks(tokens[1..], " ")
  }

  function QuotedTokens(tokens: seq<string>): string
  {
    Join(Chunks(tokens, ""), '"')
  }

  function FirstValue(tokens: seq<string>, prefix: string): Option<string> {
    if tokens == [] then None
    else if prefix <= tokens[0] then Some(tokens[0][|prefix|..])
    else FirstValue(tokens[1..], prefix)
  }

  lemma {:induction false} ChunksAreFree(tokens: seq<string>, lead: string)
    requires Free(lead, '"') && forall i | 0 <= i < |tokens| :: Free(tokens[i], '"')
    ensures forall i | 0 <= i < |Chunks(tokens, lead)| :: Free(Chunks(tokens, lead)[i], '"')
  {
    if tokens != [] {
      ChunksAreFree(tokens[1..], " ");
      hide Free;
    }
  }

  lemma {:induction false} TxtValueOfChunks(chunks: seq<string>, tokens: seq<string>, lead: string, prefix: string, i: nat)
    requires i <= |chunks| && i % 2 == 0 && chunks[i..] == Chunks(tokens, lead)
    ensures TxtValue(chunks, prefix, i) == FirstValue(tokens, prefix)
    decreases |tokens|
  {
    if tokens == [] {
      assert |chunks| == i + 1;
    } else {
      assert chunks[i + 1] == chunks[i..][1] == tokens[0];
      assert chunks[i + 2..] == chunks[i..][2..] == Chunks(tokens[1..], " ");
      TxtValueOfChunks(chunks, tokens[1..], " ", prefix, i + 2);
    }
  }

  /** Of quoted tokens, the first `key=value` gives the value. */
  lemma TxtOfTokens(tokens: seq<string>, key: string)
    requires forall i | 0 <= i < |tokens| :: Free(tokens[i], '"')
    ensures ExtractTxtValue(QuotedTokens(tokens), key) == FirstValue(tokens, key + "=")
  {
    ChunksAreFree(tokens, "");
    SplitOfJoin(Chunks(tokens, ""), '"');
    TxtValueOfChunks(Chunks(tokens, ""), tokens, "", key + "=", 0);
  }

  lemma SplitNOfJoin(fields: seq<string>, rest: string, c: char)
    requires fields != [] && forall i | 0 <= i < |fields| :: Free(fields[i], c)
    ensures SplitN(Join(fields + [rest], c), c, |fields| + 1) == fields + [rest]
  {
    var n := |fields|;
    var pieces, all := Split(rest, c), fields + Split(rest, c);
    JoinOfSplit(rest, c);
    JoinOfPrefix(fields + [rest], c, n);
    JoinOfPrefix(all, c, n);
    assert all[..n] == fields == (fields + [rest])[..n];
    assert all[n..] == pieces && (fields + [rest])[n..] == [rest];
    assert Join(all, c) == Join(fields + [rest], c);
    SplitOfJoin(all, c);
    hide Join, Split;
    if |all| <= n + 1 {
      assert pieces == [pieces[0]];
      assert Join(pieces, c) == pieces[0] by { JoinOfOne(pieces, c); }
    }
  }

  lemma JoinOfOne(pieces: seq<string>, c: char)
    requires |pieces| == 1
    ensures Join(pieces, c) == pieces[0]
  {
  }

  /** A line that, trimmed, is nine fields and TXT tokens, as avahi-browse prints it, gives a device exactly if it is of
      a resolved service, has a port number, and has "fn" and "id" values that are not empty. */
  lemma AvahiLineIsParsed(text: string, fields: seq<string>, tokens: seq<string>)
    requires |fields| == 9 && forall i | 0 <= i < 9 :: Free(fields[i], ';')
    requires forall i | 0 <= i < |tokens| :: Free(tokens[i], '"')
    requires Trim(text) == Join(fields + [QuotedTokens(tokens)], ';')
    ensures var line := Trim(text);
      var port, name, id := ParseUnsigned(fields[8], 65536), FirstValue(tokens, "fn="), FirstValue(tokens, "id=");
      ChromecastLine(text) ==
        if "=" <= line && port.Some? && name.Some? && name.value != "" && id.Some? && id.value != ""
        then Some(Entry(Device(Chromecast, id.value, name.value, Some(fields[7]), Some(port.value)), fields[2] == "IPv4"))
        else None
  {
    hide Join, Split, ParseUnsigned, QuotedTokens, FirstValue, Trim, ExtractTxtValue, SplitN;
    SplitNOfJoin(fields, QuotedTokens(tokens), ';');
    assert "fn" + "=" == "fn=" && "id" + "=" == "id=";
    TxtOfTokens(tokens, "fn");
    TxtOfTokens(tokens, "id");
  }

  /** A line of fewer fields gives nothing. */
  lemma ShortLineIsSkipped(text: string, fields: seq<string>)
    requires 0 < |fields| < 10 && (forall i | 0 <= i < |fields| :: Free(fields[i], ';'))
    requires Trim(text) == Join(fields, ';')
    ensures ChromecastLine(text) == None
  {
    SplitOfJoin(fields, ';');
    hide Join, Split, Trim, ParseUnsigned, ExtractTxtValue;
  }

  /** In particular a resolved service parses to its device and protocol. */
  lemma ResolvedLineIsParsed(fields: seq<string>, port: u16, tokens: seq<string>, name: string, id: string)
    requires |fields| == 9 && fields[0] == "=" && fields[8] == Decimal(port)
    requires forall i | 0 <= i < 9 :: Free(fields[i], ';')
    requires forall i | 0 <= i < |tokens| :: Free(tokens[i], '"')
    requires FirstValue(tokens, "fn=") == Some(name) && FirstValue(tokens, "id=") == Some(id) && name != "" && id != ""
    requires var line := Join(fields + [QuotedTokens(tokens)], ';'); Tight(line) && "=" <= line
    ensures ChromecastLine(Join(fields + [QuotedTokens(tokens)], ';'))
         == Some(Entry(Device(Chromecast, id, name, Some(fields[7]), Some(port)), fields[2] == "IPv4"))
  {
    hide Join, Decimal, ParseUnsigned, QuotedTokens, FirstValue, ChromecastLine;
    ParseDecimal(port, 65536);
    var line := Join(fields + [QuotedTokens(tokens)], ';');
    TrimOfTight(line);
    hide Tight, Trim;
    AvahiLineIsParsed(line, fields, tokens);
  }

  // ---- A module's id by its name ----------------------------------------------------------------

  /** The id on the first line of a short module listing with that module name; None, too, if it is no id. */
  function FirstNamedId(lines: seq<string>, name: string): Option<u32> {
    if lines == [] then None
    else
      var line := Trim(lines[0]);
      var fields := SplitN(line, '\t', 3);
      if line == "" || |fields| < 2 || fields[1] != name then FirstNamedId(lines[1..], name)
      else
        match ParseUnsigned(fields[0], U32_RANGE)
        case None => None
        case Some(id) => Some(id)
  }

  method ParseModuleIdByName(output: string, name: string) returns (id: Option<u32>)
    ensures id == FirstNamedId(Lines(output), name)
  {
    var lines := Lines(output);
    hide Lines, SplitN, Trim, ParseUnsigned;
    for i := 0 to |lines|
      invariant FirstNamedId(lines[i..], name) == FirstNamedId(lines, name)
    {
      assert lines[i..][1..] == lines[i + 1..];
      var line := Trim(lines[i]);
      if line != "" {
        var fields := SplitN(line, '\t', 3);
        if |fields| >= 2 && fields[1] == name {
          match ParseUnsigned(fields[0], U32_RANGE) {
            case None => return None;
            case Some(n) => return Some(n);
          }
        }
      }
    }
    id := None;
  }

  function FirstNamed(rows: seq<ModuleTables.Row>, name: string): Option<u32> {
    if rows == [] then None else if rows[0].name == name then Some(rows[0].id) else FirstNamed(rows[1..], name)
  }

  /** Trimming after a tight head can only cost the end of what follows it. */
  lemma TrimKeepsHead(head: string, rest: string)
    requires Tight(head)
    ensures var r := Trim(head + rest); |head| <= |r| <= |head| + |rest| && r == head + rest[..|r| - |head|]
  {
    hide TrimEnd;
    var text := head + rest;
    assert text[0] == head[0] && TrimStart(text) == text;
    hide TrimStart;
    var r := TrimEnd(text);
    assert text[|head| - 1] == head[|head| - 1];
    assert r == text[..|r|];
  }

  lemma JoinOfTwo(a: string, b: string, c: char)
    ensures Join([a, b], c) == a + [c] + b
  {
    assert [a, b][1..] == [b];
  }

  lemma JoinOfThree(a: string, b: string, d: string, c: char)
    ensures Join([a, b, d], c) == a + [c] + b + [c] + d
  {
    assert [a, b, d][1..] == [b, d];
    JoinOfTwo(b, d, c);
  }

  /** A trimmed line of the short form still has the id and the name. */
  lemma TrimmedEntry(row: ModuleTables.Row) returns (fields: seq<string>)
    requires Tight(row.name) && Free(row.name, '\t') && Free(row.argument, '\t')
    ensures 2 <= |fields| <= 3 && fields[0] == Decimal(row.id) && fields[1] == row.name
    ensures forall i | 0 <= i < |fields| :: Free(fields[i], '\t')
    ensures Trim(ModuleTables.ShortEntry(row)) == Join(fields, '\t')
  {
    hide Decimal, Trim, Join;
    ModuleTables.DecimalIsTight(row.id);
    var head, rest := Decimal(row.id) + "\t" + row.name, "\t" + row.argument;
    assert Tight(head) && ModuleTables.ShortEntry(row) == head + rest;
    hide Tight, ModuleTables.ShortEntry;
    TrimKeepsHead(head, rest);
    var kept := |Trim(head + rest)| - |head|;
    if kept == 0 {
      fields := [Decimal(row.id), row.name];
      assert head + rest[..0] == head;
      JoinOfTwo(Decimal(row.id), row.name, '\t');
    } else {
      var left := row.argument[..kept - 1];
      fields := [Decimal(row.id), row.name, left];
      assert rest[..kept] == "\t" + left;
      JoinOfThree(Decimal(row.id), row.name, left, '\t');
      Associative(head, "\t", left);
    }
  }

  lemma NamedEntryIsParsed(row: ModuleTables.Row)
    requires Tight(row.name) && Free(row.name, '\t') && Free(row.argument, '\t')
    ensures var line := Trim(ModuleTables.ShortEntry(row));
      var fields := SplitN(line, '\t', 3);
      line != "" && |fields| >= 2 && fields[1] == row.name && ParseUnsigned(fields[0], U32_RANGE) == Some(row.id)
  {
    hide Trim, Tight, ModuleTables.ShortEntry;
    var fields := TrimmedEntry(row);
    assert Join(fields, '\t') != "";
    SplitOfJoin(fields, '\t');
    ParseDecimal(row.id, U32_RANGE);
    hide Join, Split, Free, Decimal, ParseUnsigned;
  }

  lemma {:induction false} NamedRowIsFound(rows: seq<ModuleTables.Row>, name: string)
    requires ModuleTables.Renderable(rows) && forall i | 0 <= i < |rows| :: Tight(rows[i].name)
    ensures FirstNamedId(ModuleTables.ShortTable(rows), name) == FirstNamed(rows, name)
  {
    if rows != [] {
      assert ModuleTables.RenderableRow(rows[0]);
      NamedEntryIsParsed(rows[0]);
      hide Trim, SplitN, ParseUnsigned, Tight, ModuleTables.ShortEntry, ModuleTables.RenderableRow;
      NamedRowIsFound(rows[1..], name);
      assert ModuleTables.ShortTable(rows)[1..] == ModuleTables.ShortTable(rows[1..]);
    }
  }

  /** A line with that name whose first field is no number ends the search without an id. */
  lemma BadIdEndsSearch(index: string, name: string, argument: string, lines: seq<string>)
    requires Tight(index) && Tight(name) && Free(index, '\t') && Free(name, '\t') && Free(argument, '\t')
    requires ParseUnsigned(index, 0x1_0000_0000) == None && Tight(argument)
    ensures FirstNamedId([index + "\t" + name + "\t" + argument] + lines, name) == None
  {
    var line := index + "\t" + name + "\t" + argument;
    assert Tight(line);
    TrimOfTight(line);
    JoinOfThree(index, name, argument, '\t');
    SplitOfJoin([index, name, argument], '\t');
    assert ([line] + lines)[0] == line;
    hide Trim, Split, Join, ParseUnsigned, Tight, Free;
  }

  /** On the short rendering of any table it finds the first module of that name. */
  lemma ModuleIdIsFound(rows: seq<ModuleTables.Row>, name: string)
    requires ModuleTables.Renderable(rows) && forall i | 0 <= i < |rows| :: Tight(rows[i].name)
    ensures FirstNamedId(Lines(ModuleTables.RenderShort(rows)), name) == FirstNamed(rows, name)
  {
    hide FirstNamedId, Tight, Lines;
    ModuleTables.ShortTableIsLines(rows);
    LinesOfUnlines(ModuleTables.ShortTable(rows));
    NamedRowIsFound(rows, name);
  }
}
