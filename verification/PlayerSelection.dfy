/** Which media player to follow: deterministic, and sticky to the current one. */
module PlayerSelection {
  import opened Wrappers
  import Text

  datatype Candidate = Candidate(path: string, deviceActive: bool, playing: bool)

  /** The order of strings by their characters. */
  predicate PathLe(a: string, b: string) {
    a == "" || (b != "" && (a[0] < b[0] || (a[0] == b[0] && PathLe(a[1..], b[1..]))))
  }

  lemma {:induction false} PathLeTotal(a: string, b: string)
    ensures PathLe(a, b) || PathLe(b, a)
    ensures PathLe(a, b) && PathLe(b, a) ==> a == b
  {
    if a != "" && b != "" && a[0] == b[0] {
      PathLeTotal(a[1..], b[1..]);
      assert a == [a[0]] + a[1..] && b == [b[0]] + b[1..];
    }
  }

  /** k is where they first differ, a having the lesser character there. */
  predicate LessAt(a: string, b: string, k: nat) {
    k < |a| && k < |b| && a[..k] == b[..k] && a[k] < b[k]
  }

  lemma PrefixBehindFirst(a: string, b: string)
    requires a != "" && b != ""
    ensures a <= b <==> a[0] == b[0] && a[1..] <= b[1..]
  {
    if a[0] == b[0] && a[1..] <= b[1..] {
      assert b[..|a|] == [b[0]] + b[1..][..|a| - 1] && a == [a[0]] + a[1..];
    }
    if a <= b {
      assert b[1..][..|a| - 1] == b[..|a|][1..] == a[1..];
    }
  }

  lemma LessBehindFirst(a: string, b: string, k: nat)
    requires a != "" && b != "" && a[0] == b[0]
    ensures LessAt(a[1..], b[1..], k) <==> LessAt(a, b, k + 1)
  {
    if LessAt(a[1..], b[1..], k) {
      assert a[..k + 1] == [a[0]] + a[1..][..k] && b[..k + 1] == [b[0]] + b[1..][..k];
    }
    if LessAt(a, b, k + 1) {
      assert a[1..][..k] == a[..k + 1][1..] && b[1..][..k] == b[..k + 1][1..];
    }
  }

  lemma LessSharesFirst(a: string, b: string, k: nat)
    requires LessAt(a, b, k) && k > 0
    ensures a[0] == b[0]
  {
    assert a[..k][0] == a[0] && b[..k][0] == b[0];
  }

  lemma LessAtFirst(a: string, b: string)
    requires a != "" && b != "" && a[0] != b[0]
    ensures (exists k: nat :: LessAt(a, b, k)) <==> a[0] < b[0]
  {
    assert a[..0] == b[..0];
    assert a[0] < b[0] ==> LessAt(a, b, 0);
    forall k: nat | LessAt(a, b, k) ensures k == 0 {
      if k > 0 {
        LessSharesFirst(a, b, k);
        assert false;
      }
    }
  }

  /** Paths are ordered by the first character in which they differ, and one comes before all that begin with it. */
  lemma {:induction false} PathLeIs(a: string, b: string)
    ensures PathLe(a, b) <==> a <= b || exists k: nat :: LessAt(a, b, k)
  {
    if a != "" && b != "" {
      PrefixBehindFirst(a, b);
      if a[0] != b[0] {
        LessAtFirst(a, b);
        hide LessAt;
      } else {
        PathLeIs(a[1..], b[1..]);
        assert !LessAt(a, b, 0);
        hide LessAt;
        if k: nat :| LessAt(a[1..], b[1..], k) {
          LessBehindFirst(a, b, k);
        }
        if k: nat :| LessAt(a, b, k) {
          LessBehindFirst(a, b, k - 1);
        }
      }
    }
  }

  lemma {:induction false} PathLeTransitive(a: string, b: string, c: string)
    requires PathLe(a, b) && PathLe(b, c)
    ensures PathLe(a, c)
  {
    if a != "" && a[0] == b[0] == c[0] {
      PathLeTransitive(a[1..], b[1..], c[1..]);
    }
  }

  function Insert(c: Candidate, sorted: seq<Candidate>): seq<Candidate> {
    if sorted == [] || PathLe(c.path, sorted[0].path) then [c] + sorted
    else [sorted[0]] + Insert(c, sorted[1..])
  }

  /** Stable sort by path. */
  function SortByPath(candidates: seq<Candidate>): seq<Candidate> {
    if candidates == [] then [] else Insert(candidates[0], SortByPath(candidates[1..]))
  }

  ghost predicate Sorted(cs: seq<Candidate>) {
    forall i, j | 0 <= i <= j < |cs| :: PathLe(cs[i].path, cs[j].path)
  }

  lemma {:induction false} InsertAdds(c: Candidate, cs: seq<Candidate>)
    ensures multiset(Insert(c, cs)) == multiset(cs) + multiset{c}
  {
    if cs != [] && !PathLe(c.path, cs[0].path) {
      InsertAdds(c, cs[1..]);
      assert cs == [cs[0]] + cs[1..];
    }
  }

  lemma {:induction false} InsertKeepsSorted(c: Candidate, cs: seq<Candidate>)
    requires Sorted(cs)
    ensures Sorted(Insert(c, cs))
  {
    PathLeTotal(c.path, c.path);
    if cs == [] {
    } else if PathLe(c.path, cs[0].path) {
      forall j | 0 <= j < |cs| ensures PathLe(c.path, cs[j].path) {
        PathLeTransitive(c.path, cs[0].path, cs[j].path);
      }
    } else {
      InsertKeepsSorted(c, cs[1..]);
      InsertAdds(c, cs[1..]);
      var rest := Insert(c, cs[1..]);
      PathLeTotal(c.path, cs[0].path);
      forall j | 0 <= j < |rest| ensures PathLe(cs[0].path, rest[j].path) {
        assert rest[j] in multiset(rest);
      }
    }
  }

  lemma {:induction false} SortSorts(candidates: seq<Candidate>)
    ensures Sorted(SortByPath(candidates)) && multiset(SortByPath(candidates)) == multiset(candidates)
  {
    if candidates != [] {
      SortSorts(candidates[1..]);
      InsertKeepsSorted(candidates[0], SortByPath(candidates[1..]));
      InsertAdds(candidates[0], SortByPath(candidates[1..]));
      assert candidates == [candidates[0]] + candidates[1..];
    }
  }

  // ---- Selection --------------------------------------------------------------------------------

  function Filter(cs: seq<Candidate>, keep: Candidate -> bool): seq<Candidate> {
    if cs == [] then []
    else (if keep(cs[0]) then [cs[0]] else []) + Filter(cs[1..], keep)
  }

  /** The best tier that has anyone in it: active transport, else playing or paused, else everyone. */
  function Pool(sorted: seq<Candidate>): seq<Candidate> {
    var active := Filter(sorted, (c: Candidate) => c.deviceActive);
    if active != [] then active
    else
      var playing := Filter(sorted, (c: Candidate) => c.playing);
      if playing != [] then playing else sorted
  }

  function SelectPlayer(candidates: seq<Candidate>, current: Option<string>): Option<string> {
    var pool := Pool(SortByPath(candidates));
    if current.Some? && exists i | 0 <= i < |pool| :: pool[i].path == current.value then current
    else if pool != [] then Some(pool[0].path)
    else None
  }

  /** How good a candidate is on its own: lower is better. */
  function Rank(c: Candidate): nat {
    if c.deviceActive then 0 else if c.playing then 1 else 2
  }

  /** p is the path of a candidate that none outranks. */
  ghost predicate BestPath(candidates: seq<Candidate>, p: string) {
    exists c <- candidates :: c.path == p && forall d <- candidates :: Rank(c) <= Rank(d)
  }

  lemma {:induction false} FilterKeeps(cs: seq<Candidate>, keep: Candidate -> bool, c: Candidate)
    ensures c in Filter(cs, keep) <==> c in cs && keep(c)
  {
    if cs != [] {
      FilterKeeps(cs[1..], keep, c);
      assert cs == [cs[0]] + cs[1..];
    }
  }

  lemma {:induction false} FilterKeepsSorted(cs: seq<Candidate>, keep: Candidate -> bool)
    requires Sorted(cs)
    ensures Sorted(Filter(cs, keep))
  {
    if cs != [] {
      FilterKeepsSorted(cs[1..], keep);
      var rest := Filter(cs[1..], keep);
      forall j | 0 <= j < |rest| ensures PathLe(cs[0].path, rest[j].path) {
        FilterKeeps(cs[1..], keep, rest[j]);
      }
      PathLeTotal(cs[0].path, cs[0].path);
    }
  }

  /** The pool is exactly the candidates none outranks, in path order. */
  lemma PoolIsBest(cs: seq<Candidate>, c: Candidate)
    requires Sorted(cs)
    ensures Sorted(Pool(cs))
    ensures c in Pool(cs) <==> c in cs && forall d <- cs :: Rank(c) <= Rank(d)
  {
    var isActive, isPlaying := (c: Candidate) => c.deviceActive, (c: Candidate) => c.playing;
    FilterKeepsSorted(cs, isActive);
    FilterKeepsSorted(cs, isPlaying);
    forall d ensures d in Filter(cs, isActive) <==> d in cs && d.deviceActive {
      FilterKeeps(cs, isActive, d);
    }
    forall d ensures d in Filter(cs, isPlaying) <==> d in cs && d.playing {
      FilterKeeps(cs, isPlaying, d);
    }
    var active, playing := Filter(cs, isActive), Filter(cs, isPlaying);
    if active != [] {
      assert active[0] in active;
    } else if playing != [] {
      assert playing[0] in playing;
    }
  }

  /** The choice, stated without sorting: someone whenever there is anyone; in the best non-empty tier; the
      current player if it is in that tier; otherwise the least path of the tier. */
  ghost predicate RightChoice(candidates: seq<Candidate>, current: Option<string>, choice: Option<string>) {
    match choice
    case None => candidates == []
    case Some(p) =>
      && BestPath(candidates, p)
      && if current.Some? && BestPath(candidates, current.value) then current == Some(p)
         else forall q | BestPath(candidates, q) :: PathLe(p, q)
  }

  /** The pool, as the paths in it: those of the best candidates. */
  lemma PoolPaths(candidates: seq<Candidate>)
    ensures var pool := Pool(SortByPath(candidates));
      && Sorted(pool)
      && (forall q :: BestPath(candidates, q) <==> exists i | 0 <= i < |pool| :: pool[i].path == q)
  {
    var sorted := SortByPath(candidates);
    SortSorts(candidates);
    var pool := Pool(sorted);
    PoolIsBest(sorted, Candidate("", false, false));
    forall c ensures c in pool <==> c in candidates && forall d <- candidates :: Rank(c) <= Rank(d) {
      PoolIsBest(sorted, c);
      SameMembers(sorted, candidates);
    }
    hide Pool, SortByPath, PathLe, Sorted;
    forall q ensures BestPath(candidates, q) <==> exists i | 0 <= i < |pool| :: pool[i].path == q {
      if BestPath(candidates, q) {
        var c :| c in candidates && c.path == q && forall d <- candidates :: Rank(c) <= Rank(d);
        assert c in pool;
      }
    }
  }

  lemma SomeoneIsBest(candidates: seq<Candidate>)
    ensures candidates == [] <==> forall q :: !BestPath(candidates, q)
  {
    if candidates != [] {
      var best := Best(candidates);
      assert BestPath(candidates, best.path);
    }
  }

  /** With an active transport if any candidate has one, else playing if any is, else anyone. */
  ghost predicate InBestTier(candidates: seq<Candidate>, c: Candidate) {
    if exists i | 0 <= i < |candidates| :: candidates[i].deviceActive then c.deviceActive
    else if exists i | 0 <= i < |candidates| :: candidates[i].playing then c.playing
    else true
  }

  /** What the best paths are. */
  lemma BestPathIs(candidates: seq<Candidate>, p: string)
    ensures BestPath(candidates, p)
       <==> exists i :: 0 <= i < |candidates| && candidates[i].path == p && InBestTier(candidates, candidates[i])
  {
    forall i | 0 <= i < |candidates|
      ensures InBestTier(candidates, candidates[i])
         <==> forall j | 0 <= j < |candidates| :: Rank(candidates[i]) <= Rank(candidates[j])
    {
      if k :| 0 <= k < |candidates| && candidates[k].deviceActive {
        assert Rank(candidates[k]) == 0;
      } else if k :| 0 <= k < |candidates| && candidates[k].playing {
        assert Rank(candidates[k]) == 1;
      }
    }
    if BestPath(candidates, p) {
      var c :| c in candidates && c.path == p && forall d | d in candidates :: Rank(c) <= Rank(d);
      var i :| 0 <= i < |candidates| && candidates[i] == c;
      assert forall j | 0 <= j < |candidates| :: candidates[j] in candidates;
      assert InBestTier(candidates, candidates[i]);
    }
    if i :| 0 <= i < |candidates| && candidates[i].path == p && InBestTier(candidates, candidates[i]) {
      assert forall d | d in candidates :: exists j | 0 <= j < |candidates| :: candidates[j] == d;
      assert candidates[i] in candidates && forall d | d in candidates :: Rank(candidates[i]) <= Rank(d);
    }
  }

  lemma SelectionIsRight(candidates: seq<Candidate>, current: Option<string>)
    ensures RightChoice(candidates, current, SelectPlayer(candidates, current))
  {
    PoolPaths(candidates);
    SomeoneIsBest(candidates);
    hide Pool, SortByPath, PathLe, BestPath;
    var pool := Pool(SortByPath(candidates));
    if |pool| > 0 {
      assert BestPath(candidates, pool[0].path);
    }
  }

  /** A candidate none outranks. */
  lemma {:induction false} Best(candidates: seq<Candidate>) returns (best: Candidate)
    requires candidates != []
    ensures best in candidates && forall d <- candidates :: Rank(best) <= Rank(d)
  {
    best := candidates[0];
    if |candidates| > 1 {
      var rest := Best(candidates[1..]);
      if Rank(rest) < Rank(best) {
        best := rest;
      }
      assert candidates == [candidates[0]] + candidates[1..];
    }
  }

  /** There is only one right choice, and it depends on the set of candidates alone. */
  lemma RightChoiceIsUnique(a: seq<Candidate>, b: seq<Candidate>, current: Option<string>,
                            x: Option<string>, y: Option<string>)
    requires multiset(a) == multiset(b)
    requires RightChoice(a, current, x) && RightChoice(b, current, y)
    ensures x == y
  {
    SameMembers(a, b);
    if x.Some? && y.Some? {
      PathLeTotal(x.value, y.value);
      assert forall q :: BestPath(a, q) <==> BestPath(b, q);
    } else {
      assert a == [] <==> |multiset(a)| == 0;
      assert b == [] <==> |multiset(b)| == 0;
    }
  }

  lemma SameMembers(a: seq<Candidate>, b: seq<Candidate>)
    requires multiset(a) == multiset(b)
    ensures forall c :: c in a <==> c in b
  {
    forall c ensures c in a <==> c in b {
      assert c in a <==> c in multiset(a);
      assert c in b <==> c in multiset(b);
    }
  }

  /** Invariant under permutation: the order in which candidates are listed does not matter. */
  lemma SelectionIgnoresOrder(a: seq<Candidate>, b: seq<Candidate>, current: Option<string>)
    requires multiset(a) == multiset(b)
    ensures SelectPlayer(a, current) == SelectPlayer(b, current)
  {
    SelectionIsRight(a, current);
    SelectionIsRight(b, current);
    RightChoiceIsUnique(a, b, current, SelectPlayer(a, current), SelectPlayer(b, current));
  }

  /** Polling the same players again, in any order, never switches. */
  lemma RepollNeverSwitches(a: seq<Candidate>, b: seq<Candidate>, current: Option<string>)
    requires multiset(a) == multiset(b) && a != []
    ensures SelectPlayer(b, SelectPlayer(a, current)) == SelectPlayer(a, current)
  {
    SelectionIsRight(a, current);
    SelectionIsRight(b, SelectPlayer(a, current));
    SameMembers(a, b);
  }

  /** A poll moves off the current player if and only if that has dropped out of the best tier (or is gone);
      with nobody there it finds no one. */
  lemma SwitchesOnlyWhenBeaten(candidates: seq<Candidate>, current: string)
    requires candidates != []
    ensures SelectPlayer(candidates, Some(current)) != Some(current) <==> !BestPath(candidates, current)
    ensures SelectPlayer(candidates, Some(current)).Some? && SelectPlayer([], Some(current)) == None
  {
    SelectionIsRight(candidates, Some(current));
    hide SelectPlayer, BestPath;
    SelectionIsRight([], Some(current));
    SomeoneIsBest([]);
  }

  /** A poll that switches picks what the reconnect that follows, which has no current player, will pick. */
  lemma ReconnectBindsThePolledPlayer(a: seq<Candidate>, b: seq<Candidate>, current: string)
    requires multiset(a) == multiset(b)
    requires SelectPlayer(a, Some(current)) != Some(current)
    ensures SelectPlayer(b, None) == SelectPlayer(a, Some(current))
  {
    SelectionIsRight(a, Some(current));
    SelectionIsRight(b, None);
    var x := SelectPlayer(a, Some(current));
    assert RightChoice(a, None, x);
    RightChoiceIsUnique(a, b, None, x, SelectPlayer(b, None));
  }

  // ---- Device prefixes --------------------------------------------------------------------------

  predicate IsDevice(segment: string) {
    "dev_" <= segment
  }

  /** Cuts an object path after its first dev_ segment. */
  method DevicePrefix(path: string) returns (prefix: Option<string>)
    ensures var segments := Text.Split(path, '/');
      match prefix
      case None => forall k | 0 <= k < |segments| :: !("dev_" <= segments[k])
      case Some(p) => p <= path && exists k | 0 <= k < |segments| ::
        && "dev_" <= segments[k] && (forall j | 0 <= j < k :: !("dev_" <= segments[j]))
        && Text.Split(p, '/') == segments[..k + 1]
  {
    var segments := Text.Split(path, '/');
    hide Text.Split;
    var end, found := 0, false;
    ghost var k := 0;
    for i := 0 to |segments|
      invariant k == i && !found
      invariant forall j | 0 <= j < i :: !IsDevice(segments[j])
      invariant end == if i == 0 then 0 else |Text.Join(segments[..i], '/')| + 1
    {
      JoinLength(segments, i);
      if IsDevice(segments[i]) {
        end := end + |segments[i]|;
        found := true;
        break;
      }
      end := end + |segments[i]| + 1;
      k := i + 1;
    }
    if !found {
      return None;
    }
    PrefixOfSegments(path, k);
    prefix := Some(path[..end]);
    assert prefix.value == Text.Join(segments[..k + 1], '/');
    assert IsDevice(segments[k]) && forall j | 0 <= j < k :: !IsDevice(segments[j]);
  }

  /** What is left of a path that is cut after segment k. */
  lemma PrefixOfSegments(path: string, k: nat)
    requires k < |Text.Split(path, '/')|
    ensures var segments := Text.Split(path, '/');
      var p := Text.Join(segments[..k + 1], '/');
      p <= path && Text.Split(p, '/') == segments[..k + 1]
  {
    var segments := Text.Split(path, '/');
    hide Text.Split, Text.Join;
    Text.JoinOfSplit(path, '/');
    Text.JoinOfPrefix(segments, '/', k + 1);
    Text.SplitOfJoin(segments[..k + 1], '/');
  }

  lemma {:induction false} JoinLength(pieces: seq<string>, i: nat)
    requires i < |pieces|
    ensures |Text.Join(pieces[..i + 1], '/')|
         == |pieces[i]| + if i == 0 then 0 else |Text.Join(pieces[..i], '/')| + 1
  {
    if i > 0 {
      assert pieces[..i + 1][1..] == pieces[1..][..i] && pieces[..i][1..] == pieces[1..][..i - 1];
      JoinLength(pieces[1..], i - 1);
      if i == 1 {
        assert pieces[..1] == [pieces[0]];
      }
    }
  }
}
