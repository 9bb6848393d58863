/** Now-playing artwork: one publisher and any number of fetch tasks sharing a cache and the published
    state. Every lock region is one atomic step; steps of different tasks interleave freely. */
module ArtworkCache {
  import opened Wrappers

  type Url = string

  /** Title and artist; an absent one counts as empty. */
  datatype Key = Key(title: string, artist: string)

  /** What is published. `rest` stands for the fields that play no part here (status, position, album). */
  datatype Media = Media(title: Option<string>, artist: Option<string>, artwork: Option<Url>, rest: int)

  function OrEmpty(text: Option<string>): string {
    match text case None => "" case Some(t) => t
  }

  function KeyOf(m: Media): Key {
    Key(OrEmpty(m.title), OrEmpty(m.artist))
  }

  predicate Usable(k: Key) {
    k.title != "" || k.artist != ""
  }

  datatype Entry = Entry(key: Key, url: Option<Url>)

  /** Where the publisher is: between publishes, or holding a decision it took under the cache lock. */
  datatype Publisher =
    | Idle
    | Stamping(m: Media)
    | Caching(m: Media, key: Key)
    | Announcing(m: Media, key: Key)
    | Spawning(key: Key)

  datatype Task =
    | Fetching(key: Key)
    | Fetched(key: Key, url: Url)
    | Checked(key: Key, url: Url)
    | Writing(key: Key, url: Url, m: Media)
    | Done

  /** The last three fields are history: usable keys published, urls that fetches returned, tasks spawned. */
  datatype State = State(
    cache: Option<Entry>,
    media: Option<Media>,
    publisher: Publisher,
    tasks: seq<Task>,
    keys: seq<Key>,
    returned: set<(Key, Url)>,
    spawned: nat)

  const INITIAL := State(None, None, Idle, [], [], {}, 0)

  datatype Action =
    | Publish(title: Option<string>, artist: Option<string>, rest: int)
    | Clear
    | Advance
    | FetchReturns(task: nat, url: Option<Url>)
    | AdvanceTask(task: nat)

  /** Reading the cache: same track, new track, or nothing to look up. */
  function Decide(s: State, m: Media): State {
    var k := KeyOf(m);
    if !Usable(k) then s.(publisher := Stamping(m))
    else
      var s := s.(keys := s.keys + [k]);
      if s.cache.Some? && s.cache.value.key == k then
        s.(publisher := Stamping(m.(artwork := s.cache.value.url)))
      else s.(publisher := Caching(m, k))
  }

  function AdvancePublisher(s: State): State {
    match s.publisher
    case Idle => s
    case Stamping(m) => s.(media := Some(m), publisher := Idle)
    case Caching(m, k) => s.(cache := Some(Entry(k, None)), publisher := Announcing(m, k))
    case Announcing(m, k) => s.(media := Some(m), publisher := Spawning(k))
    case Spawning(k) => s.(tasks := s.tasks + [Fetching(k)], spawned := s.spawned + 1, publisher := Idle)
  }

  function AdvanceFetch(s: State, i: nat): State
    requires i < |s.tasks|
  {
    match s.tasks[i]
    case Fetched(k, url) =>
      if s.cache.Some? && s.cache.value.key == k
      then s.(cache := Some(Entry(k, Some(url))), tasks := s.tasks[i := Checked(k, url)])
      else s.(tasks := s.tasks[i := Done])
    case Checked(k, url) =>
      if s.media.Some? && KeyOf(s.media.value) == k
      then s.(tasks := s.tasks[i := Writing(k, url, s.media.value.(artwork := Some(url)))])
      else s.(tasks := s.tasks[i := Done])
    case Writing(k, url, m) => s.(media := Some(m), tasks := s.tasks[i := Done])
    case _ => s
  }

  /** One step; an action that is not possible changes nothing. */
  function Next(s: State, a: Action): State {
    match a
    case Publish(title, artist, rest) =>
      if s.publisher == Idle then Decide(s, Media(title, artist, None, rest)) else s
    case Clear => if s.publisher == Idle then s.(media := None) else s
    case Advance => AdvancePublisher(s)
    case FetchReturns(i, url) =>
      if i < |s.tasks| && s.tasks[i].Fetching? then
        var k := s.tasks[i].key;
        match url
        case None => s.(tasks := s.tasks[i := Done])
        case Some(u) => s.(tasks := s.tasks[i := Fetched(k, u)], returned := s.returned + {(k, u)})
      else s
    case AdvanceTask(i) => if i < |s.tasks| then AdvanceFetch(s, i) else s
  }

  function Run(actions: seq<Action>): State {
    if actions == [] then INITIAL
    else Next(Run(actions[..|actions| - 1]), actions[|actions| - 1])
  }

  // ---- The shared state -------------------------------------------------------------------------

  /** What the tasks share, with how far each of them is. Each method is one lock region. */
  class Manager {
    var cache: Option<Entry>
    var media: Option<Media>
    var publisher: Publisher
    var tasks: seq<Task>
    ghost var keys: seq<Key>
    ghost var returned: set<(Key, Url)>
    ghost var spawned: nat

    constructor ()
      ensures View() == INITIAL
    {
      cache, media, publisher, tasks := None, None, Idle, [];
      keys, returned, spawned := [], {}, 0;
    }

    ghost function View(): State
      reads this
    {
      State(cache, media, publisher, tasks, keys, returned, spawned)
    }

    /** Look the track up in the cache. */
    method ReadCache(title: Option<string>, artist: Option<string>, rest: int)
      requires publisher == Idle
      modifies this
      ensures View() == Decide(old(View()), Media(title, artist, None, rest))
    {
      var m := Media(title, artist, None, rest);
      var k := KeyOf(m);
      if !Usable(k) {
        publisher := Stamping(m);
        return;
      }
      keys := keys + [k];
      match cache {
        case Some(Entry(cachedKey, cachedUrl)) =>
          publisher := if cachedKey == k then Stamping(m.(artwork := cachedUrl)) else Caching(m, k);
        case None => publisher := Caching(m, k);
      }
    }

    method ContinuePublish()
      modifies this
      ensures View() == AdvancePublisher(old(View()))
    {
      match publisher {
        case Idle =>
        case Stamping(m) => media, publisher := Some(m), Idle;
        case Caching(m, k) => cache, publisher := Some(Entry(k, None)), Announcing(m, k);
        case Announcing(m, k) => media, publisher := Some(m), Spawning(k);
        case Spawning(k) =>
          tasks, publisher := tasks + [Fetching(k)], Idle;
          spawned := spawned + 1;
      }
    }

    method FinishFetch(i: nat, url: Option<Url>)
      requires i < |tasks| && tasks[i].Fetching?
      modifies this
      ensures View() == Next(old(View()), FetchReturns(i, url))
    {
      match url {
        case None => tasks := tasks[i := Done];
        case Some(u) =>
          returned := returned + {(tasks[i].key, u)};
          tasks := tasks[i := Fetched(tasks[i].key, u)];
      }
    }

    /** The fetch task's race guards: the cached track, the published track, and the write. */
    method ContinueFetch(i: nat)
      requires i < |tasks|
      modifies this
      ensures View() == AdvanceFetch(old(View()), i)
    {
      match tasks[i] {
        case Fetched(k, url) =>
          if cache.Some? && cache.value.key == k {
            cache := Some(Entry(k, Some(url)));
            tasks := tasks[i := Checked(k, url)];
          } else {
            tasks := tasks[i := Done];
          }
        case Checked(k, url) =>
          if media.Some? && KeyOf(media.value) == k {
            tasks := tasks[i := Writing(k, url, media.value.(artwork := Some(url)))];
          } else {
            tasks := tasks[i := Done];
          }
        case Writing(k, url, m) => media, tasks := Some(m), tasks[i := Done];
        case _ =>
      }
    }

    method RunActions(actions: seq<Action>)
      requires View() == INITIAL
      modifies this
      ensures View() == Run(actions)
    {
      hide Decide, AdvancePublisher, AdvanceFetch;
      for n := 0 to |actions|
        invariant View() == Run(actions[..n])
      {
        assert actions[..n + 1][..n] == actions[..n];
        match actions[n] {
          case Publish(title, artist, rest) =>
            if publisher == Idle {
              ReadCache(title, artist, rest);
            }
          case Clear =>
            if publisher == Idle {
              media := None;
            }
          case Advance => ContinuePublish();
          case FetchReturns(i, url) =>
            if i < |tasks| && tasks[i].Fetching? {
              FinishFetch(i, url);
            }
          case AdvanceTask(i) =>
            if i < |tasks| {
              ContinueFetch(i);
            }
        }
      }
      assert actions[..|actions|] == actions;
    }
  }

  // ---- Invariant --------------------------------------------------------------------------------

  /** Artwork, if any, is what a fetch for this very track returned. */
  ghost predicate OwnArt(m: Media, returned: set<(Key, Url)>) {
    m.artwork.Some? ==> (KeyOf(m), m.artwork.value) in returned
  }

  ghost predicate TaskOwnsArt(t: Task, returned: set<(Key, Url)>) {
    match t
    case Fetched(k, url) => (k, url) in returned
    case Checked(k, url) => (k, url) in returned
    case Writing(k, url, m) => (k, url) in returned && KeyOf(m) == k && m.artwork == Some(url)
    case _ => true
  }

  /** How often the track changes in the first n keys, the first one counting as a change. */
  function ChangesUpTo(keys: seq<Key>, n: nat): nat
    requires n <= |keys|
  {
    if n == 0 then 0
    else ChangesUpTo(keys, n - 1) + if n > 1 && keys[n - 2] == keys[n - 1] then 0 else 1
  }

  function Changes(keys: seq<Key>): nat {
    ChangesUpTo(keys, |keys|)
  }

  lemma {:induction false} ChangesOfPrefix(keys: seq<Key>, k: Key, n: nat)
    requires n <= |keys|
    ensures ChangesUpTo(keys + [k], n) == ChangesUpTo(keys, n)
  {
    if n > 0 {
      ChangesOfPrefix(keys, k, n - 1);
    }
  }

  lemma ChangesSnoc(keys: seq<Key>, k: Key)
    ensures Changes(keys + [k]) == Changes(keys) + if keys != [] && keys[|keys| - 1] == k then 0 else 1
  {
    ChangesOfPrefix(keys, k, |keys|);
  }

  function Owed(p: Publisher): nat {
    if p.Caching? || p.Announcing? || p.Spawning? then 1 else 0
  }

  ghost predicate Inv(s: State) {
    && (s.media.Some? ==> OwnArt(s.media.value, s.returned))
    && (s.cache.Some? && s.cache.value.url.Some? ==> (s.cache.value.key, s.cache.value.url.value) in s.returned)
    && (forall i | 0 <= i < |s.tasks| :: TaskOwnsArt(s.tasks[i], s.returned))
    && PublisherInv(s)
    && s.spawned + Owed(s.publisher) == Changes(s.keys)
  }

  /** The cached key is the last one published, except while a new one is on its way into the cache. */
  ghost predicate PublisherInv(s: State) {
    && (match s.publisher
        case Idle => true
        case Stamping(m) => OwnArt(m, s.returned)
        case Caching(m, k) => m.artwork == None && s.keys != [] && s.keys[|s.keys| - 1] == k
          && !(s.cache.Some? && s.cache.value.key == k)
        case Announcing(m, k) => m.artwork == None
        case Spawning(k) => true)
    && (!s.publisher.Caching? ==>
          if s.keys == [] then s.cache == None
          else s.cache.Some? && s.cache.value.key == s.keys[|s.keys| - 1])
    && (s.publisher.Caching? ==>
          if |s.keys| == 1 then s.cache == None
          else s.cache.Some? && s.cache.value.key == s.keys[|s.keys| - 2])
  }

  lemma ReturnedGrows(s: State, more: set<(Key, Url)>)
    requires Inv(s)
    ensures Inv(s.(returned := s.returned + more))
  {
    forall i | 0 <= i < |s.tasks| ensures TaskOwnsArt(s.tasks[i], s.returned + more) {
      assert TaskOwnsArt(s.tasks[i], s.returned);
    }
  }

  lemma TaskReplaced(s: State, i: nat, t: Task)
    requires Inv(s) && i < |s.tasks| && TaskOwnsArt(t, s.returned)
    ensures Inv(s.(tasks := s.tasks[i := t]))
  {
    var s' := s.(tasks := s.tasks[i := t]);
    forall j | 0 <= j < |s'.tasks| ensures TaskOwnsArt(s'.tasks[j], s'.returned) {
      if j != i {
        assert s'.tasks[j] == s.tasks[j];
      }
    }
  }

  lemma SameTrackKeepsInv(s: State, m: Media)
    requires Inv(s) && s.publisher == Idle && Usable(KeyOf(m))
    requires s.cache.Some? && s.cache.value.key == KeyOf(m)
    ensures Inv(Decide(s, m))
  {
    var k := KeyOf(m);
    ChangesSnoc(s.keys, k);
    assert KeyOf(m.(artwork := s.cache.value.url)) == k;
    hide TaskOwnsArt, Changes, KeyOf;
  }

  lemma NewTrackKeepsInv(s: State, m: Media)
    requires Inv(s) && s.publisher == Idle && m.artwork == None && Usable(KeyOf(m))
    requires !(s.cache.Some? && s.cache.value.key == KeyOf(m))
    ensures Inv(Decide(s, m))
  {
    var k := KeyOf(m);
    ChangesSnoc(s.keys, k);
    hide TaskOwnsArt, Changes, KeyOf;
  }

  lemma DecideKeepsInv(s: State, m: Media)
    requires Inv(s) && s.publisher == Idle && m.artwork == None
    ensures Inv(Decide(s, m))
  {
    if Usable(KeyOf(m)) {
      if s.cache.Some? && s.cache.value.key == KeyOf(m) {
        SameTrackKeepsInv(s, m);
      } else {
        NewTrackKeepsInv(s, m);
      }
      hide Inv;
    } else {
      hide TaskOwnsArt;
    }
  }

  lemma AdvanceFetchKeepsInv(s: State, i: nat)
    requires Inv(s) && i < |s.tasks|
    ensures Inv(AdvanceFetch(s, i))
  {
    assert TaskOwnsArt(s.tasks[i], s.returned);
    match s.tasks[i] {
      case Fetched(k, url) =>
        TaskReplaced(s, i, Checked(k, url));
        TaskReplaced(s, i, Done);
      case Checked(k, url) =>
        if s.media.Some? && KeyOf(s.media.value) == k {
          TaskReplaced(s, i, Writing(k, url, s.media.value.(artwork := Some(url))));
        }
        TaskReplaced(s, i, Done);
      case Writing(k, url, m) => TaskReplaced(s, i, Done);
      case _ =>
    }
  }

  lemma AdvancePublisherKeepsInv(s: State)
    requires Inv(s)
    ensures Inv(AdvancePublisher(s))
  {
    var s' := AdvancePublisher(s);
    forall i | 0 <= i < |s'.tasks| ensures TaskOwnsArt(s'.tasks[i], s'.returned) {
      if i < |s.tasks| {
        assert TaskOwnsArt(s.tasks[i], s.returned);
      }
    }
  }

  lemma NextKeepsInv(s: State, a: Action)
    requires Inv(s)
    ensures Inv(Next(s, a))
  {
    match a {
      case Publish(title, artist, rest) =>
        if s.publisher == Idle {
          DecideKeepsInv(s, Media(title, artist, None, rest));
        }
      case Clear =>
      case Advance => AdvancePublisherKeepsInv(s);
      case FetchReturns(i, url) =>
        if i < |s.tasks| && s.tasks[i].Fetching? {
          if url.Some? {
            var s' := s.(returned := s.returned + {(s.tasks[i].key, url.value)});
            ReturnedGrows(s, {(s.tasks[i].key, url.value)});
            TaskReplaced(s', i, Fetched(s.tasks[i].key, url.value));
          } else {
            TaskReplaced(s, i, Done);
          }
        }
      case AdvanceTask(i) =>
        if i < |s.tasks| {
          AdvanceFetchKeepsInv(s, i);
        }
    }
  }

  lemma {:induction false} RunKeepsInv(actions: seq<Action>)
    ensures Inv(Run(actions))
  {
    if actions != [] {
      hide Inv, Next;
      RunKeepsInv(actions[..|actions| - 1]);
      NextKeepsInv(Run(actions[..|actions| - 1]), actions[|actions| - 1]);
    } else {
      InitialInv();
    }
  }

  lemma InitialInv()
    ensures Inv(INITIAL)
  {
  }

  // ---- Step by step -----------------------------------------------------------------------------

  /** A publish that nothing interrupts. A track without title and artist is shown without artwork and looked up
      nowhere; the cached track is shown with the cached artwork; any other track takes the cache over, is shown
      without artwork, and has one fetch started for it. */
  lemma PublishTaken(s: State, title: Option<string>, artist: Option<string>, rest: int)
    requires s.publisher == Idle
    ensures var published := Next(Next(Next(Next(s, Publish(title, artist, rest)), Advance), Advance), Advance);
      var key := Key(if title.Some? then title.value else "", if artist.Some? then artist.value else "");
      && published.publisher == Idle && published.returned == s.returned
      && if key.title == "" && key.artist == "" then
           && published.media == Some(Media(title, artist, None, rest))
           && published.cache == s.cache && published.tasks == s.tasks && published.keys == s.keys
         else if s.cache.Some? && s.cache.value.key == key then
           && published.media == Some(Media(title, artist, s.cache.value.url, rest))
           && published.cache == s.cache && published.tasks == s.tasks && published.keys == s.keys + [key]
         else
           && published.media == Some(Media(title, artist, None, rest))
           && published.cache == Some(Entry(key, None)) && published.tasks == s.tasks + [Fetching(key)]
           && published.keys == s.keys + [key]
  {
  }

  /** What a fetch comes to: nothing without artwork; dropped when its track is not the cached one any more; kept
      in the cache only, when its track is not the published one. */
  lemma FetchTaken(s: State, i: nat, url: Option<Url>)
    requires i < |s.tasks|
    ensures s.tasks[i].Fetching? ==>
      var s', key := Next(s, FetchReturns(i, url)), s.tasks[i].key;
      match url
      case None => s' == s.(tasks := s.tasks[i := Done])
      case Some(u) => s' == s.(tasks := s.tasks[i := Fetched(key, u)], returned := s.returned + {(key, u)})
    ensures var s' := Next(s, AdvanceTask(i));
      match s.tasks[i]
      case Fetched(key, u) =>
        if s.cache.Some? && s.cache.value.key == key
        then s' == s.(cache := Some(Entry(key, Some(u))), tasks := s.tasks[i := Checked(key, u)])
        else s' == s.(tasks := s.tasks[i := Done])
      case Checked(key, u) =>
        && s' == s.(tasks := s'.tasks) && |s'.tasks| == |s.tasks|
        && (forall j | 0 <= j < |s.tasks| && j != i :: s'.tasks[j] == s.tasks[j])
        && (s'.tasks[i] == Done
            <==> s.media == None || Key(OrEmpty(s.media.value.title), OrEmpty(s.media.value.artist)) != key)
        && (s'.tasks[i] != Done ==> s'.tasks[i] == Writing(key, u, s.media.value.(artwork := Some(u))))
      case Writing(_, _, m) => s' == s.(media := Some(m), tasks := s.tasks[i := Done])
      case _ => s' == s
  {
  }

  /** A clear hides the track and keeps the cache; it waits for a publish to end. */
  lemma ClearTaken(s: State)
    ensures Next(s, Clear) == if s.publisher == Idle then s.(media := None) else s
    ensures Run([]) == State(None, None, Idle, [], [], {}, 0)
  {
  }

  // ---- What it gives ----------------------------------------------------------------------------

  /** Over every interleaving: published artwork always came from a fetch for the published track; and
      between publishes, exactly one fetch has been spawned per change of track. */
  lemma ArtBelongsToTrack(actions: seq<Action>)
    ensures var s := Run(actions);
      && (s.media.Some? ==> OwnArt(s.media.value, s.returned))
      && (s.publisher == Idle ==> s.spawned == Changes(s.keys))
  {
    RunKeepsInv(actions);
  }

  /** Once a track's artwork is cached it stays cached, reconnects included, until another track's key
      takes its place. */
  lemma CachedArtIsKept(actions: seq<Action>, a: Action)
    ensures var before, after := Run(actions).cache, Run(actions + [a]).cache;
      before.Some? && before.value.url.Some? ==>
        after.Some? && (after.value.key == before.value.key ==> after.value.url.Some?)
  {
    assert (actions + [a])[..|actions|] == actions;
    RunKeepsInv(actions);
  }

  /** And a later publish of that track, whatever happened to the published state meanwhile, carries it. */
  lemma RepublishedTrackHasArt(s: State, title: Option<string>, artist: Option<string>, rest: int)
    requires s.publisher == Idle && s.cache.Some? && Usable(s.cache.value.key)
    requires KeyOf(Media(title, artist, None, rest)) == s.cache.value.key
    ensures Next(Next(s, Publish(title, artist, rest)), Advance).media
         == Some(Media(title, artist, s.cache.value.url, rest))
  {
  }

  /** A fetch that returns while its track is still the cached and the published one, and is not interrupted
      by another publish, gets its artwork cached and shown, and touches nothing else of what is published. */
  lemma UndisturbedFetchIsShown(s: State, i: nat, m: Media)
    requires i < |s.tasks| && s.tasks[i].Fetched? && s.media == Some(m)
    requires s.cache.Some? && s.cache.value.key == s.tasks[i].key == KeyOf(m)
    ensures var url := s.tasks[i].url;
      var s' := Next(Next(Next(s, AdvanceTask(i)), AdvanceTask(i)), AdvanceTask(i));
      && s'.media == Some(m.(artwork := Some(url)))
      && s'.cache == Some(Entry(KeyOf(m), Some(url)))
      && s'.tasks == s.tasks[i := Done]
  {
    var url := s.tasks[i].url;
    var one := Next(s, AdvanceTask(i));
    assert one.tasks[i] == Checked(KeyOf(m), url) && one.media == s.media;
    var two := Next(one, AdvanceTask(i));
    assert two.tasks[i] == Writing(KeyOf(m), url, m.(artwork := Some(url)));
  }

  // ---- What it does not -------------------------------------------------------------------------

  lemma RunOne(actions: seq<Action>, a: Action)
    ensures Run(actions + [a]) == Next(Run(actions), a)
  {
    assert (actions + [a])[..|actions|] == actions;
  }

  lemma Then(actions: seq<Action>, a: Action, s: State) returns (longer: seq<Action>)
    requires Next(Run(actions), a) == s
    ensures Run(longer) == s
  {
    longer := actions + [a];
    RunOne(actions, a);
  }

  /** Track m published and its one fetch returned. */
  function WithArt(m: Media, url: Url): State {
    var k := KeyOf(m);
    State(Some(Entry(k, None)), Some(m), Idle, [Fetched(k, url)], [k], {(k, url)}, 1)
  }

  lemma TrackWithArt(m: Media, url: Url) returns (actions: seq<Action>)
    requires Usable(KeyOf(m)) && m.artwork == None
    ensures Run(actions) == WithArt(m, url)
  {
    var k, s := KeyOf(m), INITIAL;
    assert Run([]) == s;
    hide Run;
    actions := Then([], Publish(m.title, m.artist, m.rest), s.(publisher := Caching(m, k), keys := [k]));
    s := s.(keys := [k], cache := Some(Entry(k, None)));
    actions := Then(actions, Advance, s.(publisher := Announcing(m, k)));
    actions := Then(actions, Advance, s.(publisher := Spawning(k), media := Some(m)));
    s := s.(media := Some(m), tasks := [Fetching(k)], spawned := 1);
    actions := Then(actions, Advance, s);
    actions := Then(actions, FetchReturns(0, Some(url)), WithArt(m, url));
  }

  /** Track m published, its artwork cached, and its fetch task about to write what it has read. */
  function AboutToWrite(m: Media, url: Url): State {
    var k := KeyOf(m);
    State(Some(Entry(k, Some(url))), Some(m), Idle, [Writing(k, url, m.(artwork := Some(url)))], [k], {(k, url)}, 1)
  }

  lemma TrackAboutToBeWritten(m: Media, url: Url) returns (actions: seq<Action>)
    requires Usable(KeyOf(m)) && m.artwork == None
    ensures Run(actions) == AboutToWrite(m, url)
  {
    hide Run;
    var k := KeyOf(m);
    actions := TrackWithArt(m, url);
    actions := Then(actions, AdvanceTask(0),
      WithArt(m, url).(tasks := [Checked(k, url)], cache := Some(Entry(k, Some(url)))));
    actions := Then(actions, AdvanceTask(0), AboutToWrite(m, url));
  }

  /** The published track can go backwards: a fetch task reads the state under one lock and writes it back
      under another, and a publish may fall in between. Here track B is the last one published, and
      track A is what is shown. */
  lemma StaleTrackCanReturn() returns (actions: seq<Action>)
    ensures Run(actions).media == Some(Media(Some("A"), None, Some("art"), 0))
    ensures Run(actions).keys == [Key("A", ""), Key("B", "")]
  {
    hide Run;
    var a, b := Media(Some("A"), None, None, 0), Media(Some("B"), None, None, 0);
    var ka, kb := KeyOf(a), KeyOf(b);
    actions := TrackAboutToBeWritten(a, "art");
    var s := AboutToWrite(a, "art");
    actions := Then(actions, Publish(Some("B"), None, 0), s.(publisher := Caching(b, kb), keys := [ka, kb]));
    s := s.(keys := [ka, kb], cache := Some(Entry(kb, None)));
    actions := Then(actions, Advance, s.(publisher := Announcing(b, kb)));
    s := s.(publisher := Spawning(kb));
    actions := Then(actions, Advance, s.(media := Some(b)));
    actions := Then(actions, AdvanceTask(0), s.(media := Some(a.(artwork := Some("art"))), tasks := [Done]));
  }

  /** So can an old status of the same track, the guard on title and artist notwithstanding: here 1 is the
      last status published, and 0 is what is shown. */
  lemma StaleStatusCanReturn() returns (actions: seq<Action>)
    ensures Run(actions).media == Some(Media(Some("A"), None, Some("art"), 1))
    ensures Run(actions + [AdvanceTask(0)]).media == Some(Media(Some("A"), None, Some("art"), 0))
  {
    hide Run;
    var a := Media(Some("A"), None, None, 0);
    var k, paused := KeyOf(a), Media(Some("A"), None, Some("art"), 1);
    actions := TrackAboutToBeWritten(a, "art");
    var s := AboutToWrite(a, "art").(keys := [k, k]);
    actions := Then(actions, Publish(Some("A"), None, 1), s.(publisher := Stamping(paused)));
    actions := Then(actions, Advance, s.(media := Some(paused)));
    RunOne(actions, AdvanceTask(0));
  }

  /** And a reconnect's clear can be undone, although a task that finds nothing published writes nothing. */
  lemma ClearCanBeUndone() returns (actions: seq<Action>)
    ensures Run(actions).media == None
    ensures Run(actions + [AdvanceTask(0)]).media == Some(Media(Some("A"), None, Some("art"), 0))
  {
    hide Run;
    var a := Media(Some("A"), None, None, 0);
    actions := TrackAboutToBeWritten(a, "art");
    actions := Then(actions, Clear, AboutToWrite(a, "art").(media := None));
    RunOne(actions, AdvanceTask(0));
  }

  // ---- Exactly when a late write is harmless ----------------------------------------------------

  predicate SameBesidesArt(x: Option<Media>, y: Option<Media>) {
    match (x, y)
    case (Some(a), Some(b)) => a.(artwork := None) == b.(artwork := None)
    case _ => x == y
  }

  /** How many actions had been taken when task i read the published state. */
  function ReadAt(actions: seq<Action>, i: nat): (n: nat)
    ensures n <= |actions|
  {
    if actions == [] then 0
    else
      var before := actions[..|actions| - 1];
      var tasks := Run(before).tasks;
      if actions[|before|] == AdvanceTask(i) && i < |tasks| && tasks[i].Checked? then |before| else ReadAt(before, i)
  }

  lemma BecomesWriter(s: State, a: Action, i: nat)
    requires var s' := Next(s, a); i < |s'.tasks| && s'.tasks[i].Writing?
    ensures i < |s.tasks|
    ensures var w := Next(s, a).tasks[i];
      if a == AdvanceTask(i) && s.tasks[i].Checked?
      then s.media.Some? && w.m == s.media.value.(artwork := Some(w.url))
      else s.tasks[i] == w
  {
    hide KeyOf;
  }

  /** A task about to write holds what was published when it read, with the artwork put in. */
  lemma {:induction false} WriterHoldsItsSnapshot(actions: seq<Action>, i: nat)
    ensures var s := Run(actions);
      i < |s.tasks| && s.tasks[i].Writing? ==>
        && ReadAt(actions, i) < |actions|
        && var read := Run(actions[..ReadAt(actions, i)]).media;
           read.Some? && s.tasks[i].m == read.value.(artwork := Some(s.tasks[i].url))
  {
    if actions != [] {
      hide Next;
      var before, a := actions[..|actions| - 1], actions[|actions| - 1];
      WriterHoldsItsSnapshot(before, i);
      assert before[..ReadAt(before, i)] == actions[..ReadAt(before, i)];
      if i < |Run(actions).tasks| && Run(actions).tasks[i].Writing? {
        BecomesWriter(Run(before), a, i);
      }
    }
  }

  /** In every run: a fetch task's write changes nothing but the artwork if and only if what is published is,
      artwork aside, what was published when the task read it. */
  lemma LateWriteIsHarmlessIff(actions: seq<Action>, i: nat)
    requires i < |Run(actions).tasks| && Run(actions).tasks[i].Writing?
    ensures var now, written := Run(actions).media, Run(actions + [AdvanceTask(i)]).media;
      SameBesidesArt(now, written) <==> SameBesidesArt(now, Run(actions[..ReadAt(actions, i)]).media)
  {
    RunOne(actions, AdvanceTask(i));
    WriterHoldsItsSnapshot(actions, i);
    hide Run, ReadAt;
  }

  /** The actions that write the published state: the publisher's two publishes, a clear, a task's write. */
  predicate Lands(s: State, a: Action) {
    match a
    case Clear => s.publisher == Idle
    case Advance => s.publisher.Stamping? || s.publisher.Announcing?
    case AdvanceTask(j) => j < |s.tasks| && s.tasks[j].Writing?
    case _ => false
  }

  lemma QuietKeepsMedia(s: State, a: Action)
    requires !Lands(s, a)
    ensures Next(s, a).media == s.media
  {
    hide KeyOf;
  }

  lemma {:induction false} NothingLanded(actions: seq<Action>, n: nat)
    requires n <= |actions| && forall k | n <= k < |actions| :: !Lands(Run(actions[..k]), actions[k])
    ensures Run(actions).media == Run(actions[..n]).media
    decreases |actions|
  {
    if n == |actions| {
      assert actions[..n] == actions;
    } else {
      hide Next, Lands;
      var before := actions[..|actions| - 1];
      QuietKeepsMedia(Run(before), actions[|before|]);
      forall k | n <= k < |before| ensures !Lands(Run(before[..k]), before[k]) {
        assert before[..k] == actions[..k];
      }
      NothingLanded(before, n);
      assert before[..n] == actions[..n];
    }
  }

  /** In particular it is harmless when, since the read, no publish, no clear and no other task's write has
      landed. */
  lemma UninterruptedWriteIsHarmless(actions: seq<Action>, i: nat)
    requires i < |Run(actions).tasks| && Run(actions).tasks[i].Writing?
    requires forall k | ReadAt(actions, i) <= k < |actions| :: !Lands(Run(actions[..k]), actions[k])
    ensures SameBesidesArt(Run(actions).media, Run(actions + [AdvanceTask(i)]).media)
  {
    WriterHoldsItsSnapshot(actions, i);
    NothingLanded(actions, ReadAt(actions, i));
    LateWriteIsHarmlessIff(actions, i);
    hide Run, ReadAt;
  }

  predicate SameTrack(a: Option<Media>, b: Option<Media>) {
    a.Some? && b.Some? && KeyOf(a.value) == KeyOf(b.value)
  }

  /** As for the track alone: the write shows the track it fetched for, which is the one that was published at
      the read. So it keeps the published track if and only if that is the one published at the read; what was
      published in between does not matter, other tracks and clears included. */
  lemma LateWriteKeepsTrackIff(actions: seq<Action>, i: nat)
    requires i < |Run(actions).tasks| && Run(actions).tasks[i].Writing?
    ensures var s, s', read := Run(actions), Run(actions + [AdvanceTask(i)]), Run(actions[..ReadAt(actions, i)]).media;
      && s'.media.Some? && KeyOf(s'.media.value) == s.tasks[i].key
      && (SameTrack(s.media, s'.media) <==> SameTrack(s.media, read))
  {
    RunOne(actions, AdvanceTask(i));
    RunKeepsInv(actions);
    WriterHoldsItsSnapshot(actions, i);
    assert TaskOwnsArt(Run(actions).tasks[i], Run(actions).returned);
    hide Run, ReadAt;
  }
}
