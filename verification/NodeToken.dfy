/** Whole-token search for a node name in a line. The search resumes after each rejected occurrence, so it
    skips occurrences that overlap one. */
module NodeToken {
  import opened Text
  import opened Wrappers

  /** Which characters belong to node names. Outside ASCII this is a matter of Unicode tables. */
  type NameClass = char -> bool

  ghost predicate AsciiNames(isName: NameClass) {
    forall c: char | c < 128 as char ::
      isName(c) <==> IsDigit(c) || 'a' <= c <= 'z' || 'A' <= c <= 'Z' || c == '.' || c == '-' || c == '_'
  }

  /** The occurrence at i is part of a longer name. */
  predicate Flanked(isName: NameClass, line: string, name: string, i: nat)
    requires OccursAt(line, name, i)
  {
    (i > 0 && isName(line[i - 1])) || (i + |name| < |line| && isName(line[i + |name|]))
  }

  predicate TokenAt(isName: NameClass, line: string, name: string, i: nat) {
    && OccursAt(line, name, i)
    && (i > 0 ==> !isName(line[i - 1]))
    && (i + |name| < |line| ==> !isName(line[i + |name|]))
  }

  /** What the search is for: some occurrence not flanked by name characters. */
  ghost predicate HasToken(isName: NameClass, line: string, name: string) {
    exists i: nat :: TokenAt(isName, line, name, i)
  }

  /** What the search does from position `start` on. */
  predicate Search(isName: NameClass, line: string, name: string, start: nat)
    requires name != "" && start <= |line|
    decreases |line| - start
  {
    match FindFrom(line, name, start)
    case None => false
    case Some(i) => !Flanked(isName, line, name, i) || Search(isName, line, name, i + |name|)
  }

  /** For a non-empty name the loop ends; for an empty one it need not, as it would never move on. */
  method LineContainsNodeToken(isName: NameClass, line: string, name: string) returns (found: bool)
    requires name != ""
    ensures found <==> Search(isName, line, name, 0)
  {
    hide Flanked;
    var start := 0;
    while true
      invariant start <= |line|
      invariant Search(isName, line, name, 0) <==> Search(isName, line, name, start)
      decreases |line| - start
    {
      match FindFrom(line, name, start) {
        case None => return false;
        case Some(i) =>
          if !Flanked(isName, line, name, i) {
            return true;
          }
          start := i + |name|;
      }
    }
  }

  /** Wherever the name overlaps a shifted copy of itself, the copy starts right after a name character. */
  ghost predicate OverlapsGuarded(isName: NameClass, name: string) {
    forall d | 0 < d < |name| && name[d..] == name[..|name| - d] :: isName(name[d - 1])
  }

  lemma OverlapShift(line: string, name: string, p: nat, i: nat)
    requires OccursAt(line, name, p) && OccursAt(line, name, i) && p < i < p + |name|
    ensures name[i - p..] == name[..|name| - (i - p)] && line[i - 1] == name[i - p - 1]
  {
    var d := i - p;
    forall k | 0 <= k < |name| - d ensures name[d + k] == name[k] {
      assert name[d + k] == line[p..p + |name|][d + k] == line[i + k];
      assert name[k] == line[i..i + |name|][k] == line[i + k];
    }
    assert name[d - 1] == line[p..p + |name|][d - 1];
  }

  lemma {:induction false} GuardedSearchFinds(isName: NameClass, line: string, name: string, start: nat, i: nat)
    requires name != "" && OverlapsGuarded(isName, name)
    requires start <= i <= |line| && TokenAt(isName, line, name, i)
    ensures Search(isName, line, name, start)
    decreases |line| - start
  {
    var p := FindFrom(line, name, start).value;
    if Flanked(isName, line, name, p) {
      if i < p + |name| {
        OverlapShift(line, name, p, i);
      } else {
        GuardedSearchFinds(isName, line, name, p + |name|, i);
      }
    }
  }

  lemma {:induction false} SearchIsSound(isName: NameClass, line: string, name: string, start: nat)
    requires name != "" && start <= |line| && Search(isName, line, name, start)
    ensures HasToken(isName, line, name)
    decreases |line| - start
  {
    var p := FindFrom(line, name, start).value;
    if Flanked(isName, line, name, p) {
      SearchIsSound(isName, line, name, p + |name|);
    } else {
      assert TokenAt(isName, line, name, p);
    }
  }

  /** A name equal to itself shifted by one repeats a single character. */
  lemma {:induction false} ShiftedByOne(name: string, c: char, k: nat)
    requires k < |name| && name[0] == c && forall j | 0 < j < |name| :: name[j] == name[j - 1]
    ensures name[k] == c
  {
    if k > 0 {
      ShiftedByOne(name, c, k - 1);
    }
  }

  /** With an unguarded overlap at d, this line holds the name as a token, and the search misses it. */
  function MissedLine(name: string, d: nat): string
    requires d < |name|
  {
    "x" + name + name[|name| - d..]
  }

  lemma MissedLineOccurrences(name: string, d: nat)
    requires 0 < d < |name| && name[d..] == name[..|name| - d]
    ensures var line := MissedLine(name, d);
      OccursAt(line, name, 1) && OccursAt(line, name, 1 + d) && line[d] == name[d - 1]
  {
    var line, n := MissedLine(name, d), |name|;
    assert line[1..1 + n] == name;
    assert line[1 + d..1 + d + n] == name[d..] + name[n - d..];
    assert name[..n - d] + name[n - d..] == name;
  }

  lemma OccursAtFrontOfMissedLine(name: string, d: nat)
    requires 0 < d < |name| && OccursAt(MissedLine(name, d), name, 0)
    ensures name[d - 1] == 'x'
  {
    var line := MissedLine(name, d);
    forall j | 0 < j < |name| ensures name[j] == name[j - 1] {
      assert line[0..|name|][j] == line[j];
    }
    assert line[0..|name|][0] == 'x';
    ShiftedByOne(name, 'x', d - 1);
  }

  lemma UnguardedSearchMisses(isName: NameClass, name: string, d: nat)
    requires isName('x') && 0 < d < |name|
    requires name[d..] == name[..|name| - d] && !isName(name[d - 1])
    ensures HasToken(isName, MissedLine(name, d), name)
    ensures !Search(isName, MissedLine(name, d), name, 0)
  {
    var line, n := MissedLine(name, d), |name|;
    MissedLineOccurrences(name, d);
    if OccursAt(line, name, 0) {
      OccursAtFrontOfMissedLine(name, d);
    }
    assert TokenAt(isName, line, name, 1 + d);
    hide FindFrom;
    assert FindFrom(line, name, 0) == Some(1);
    assert Flanked(isName, line, name, 1);
    assert FindFrom(line, name, 1 + n) == None;
  }

  lemma UnguardedNameIsMissed(isName: NameClass, name: string) returns (d: nat)
    requires name != "" && isName('x') && !OverlapsGuarded(isName, name)
    ensures d < |name|
    ensures HasToken(isName, MissedLine(name, d), name) && !Search(isName, MissedLine(name, d), name, 0)
  {
    d :| 0 < d < |name| && name[d..] == name[..|name| - d] && !isName(name[d - 1]);
    UnguardedSearchMisses(isName, name, d);
  }

  /** With guarded overlaps the search answers the question. */
  lemma GuardedSearchIsExact(isName: NameClass, line: string, name: string)
    requires name != "" && OverlapsGuarded(isName, name)
    ensures Search(isName, line, name, 0) <==> HasToken(isName, line, name)
  {
    if Search(isName, line, name, 0) {
      SearchIsSound(isName, line, name, 0);
    }
    if HasToken(isName, line, name) {
      var i: nat :| TokenAt(isName, line, name, i);
      GuardedSearchFinds(isName, line, name, 0, i);
    }
  }

  /** The search answers the question for every line if and only if the name's overlaps are guarded. */
  lemma TokenSearchIsExact(isName: NameClass, name: string)
    requires name != "" && isName('x')
    ensures (forall line :: Search(isName, line, name, 0) <==> HasToken(isName, line, name))
       <==> OverlapsGuarded(isName, name)
  {
    if OverlapsGuarded(isName, name) {
      forall line ensures Search(isName, line, name, 0) <==> HasToken(isName, line, name) {
        GuardedSearchIsExact(isName, line, name);
      }
    } else {
      var d := UnguardedNameIsMissed(isName, name);
    }
  }

  /** Names made of name characters only, like every sink looked up in `wpctl status`, are guarded. */
  lemma PlainNameIsGuarded(isName: NameClass, name: string)
    requires forall i | 0 <= i < |name| :: isName(name[i])
    ensures OverlapsGuarded(isName, name)
  {
  }

  function SinkArgument(sink: string): string {
    "sink_name=" + sink
  }

  /** The argument looked for in the module list is guarded exactly when it does not itself begin with the
      sink's name. */
  lemma SinkArgumentIsGuarded(isName: NameClass, sink: string)
    requires AsciiNames(isName) && sink != "" && forall i | 0 <= i < |sink| :: isName(sink[i])
    ensures OverlapsGuarded(isName, SinkArgument(sink)) <==> !(sink <= SinkArgument(sink))
  {
    var name := SinkArgument(sink);
    assert name[9] == '=' && name[10..] == sink;
    forall k | 0 <= k < |name| && k != 9 ensures isName(name[k]) {
      if k < 10 {
        assert name[k] == "sink_name="[k];
      } else {
        assert name[k] == sink[k - 10];
      }
    }
    assert |name| - 10 == |sink|;
    if sink <= name {
      assert name[..|sink|] == sink;
    }
  }

  const CAPTURE_SINK := "soundsync-capture"

  lemma CaptureArgumentIsGuarded(isName: NameClass)
    requires AsciiNames(isName)
    ensures OverlapsGuarded(isName, SinkArgument(CAPTURE_SINK))
  {
    var sink := CAPTURE_SINK;
    assert sink[1] == 'o' && SinkArgument(sink)[1] == 'i';
    SinkArgumentIsGuarded(isName, sink);
  }
}
