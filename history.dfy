/**
 * The watch-history merge of the exporter: the items of each library section are folded
 * into maps keyed by guid, with watched entries taking precedence over partially watched
 * ones, and each show carrying its own map of episodes.
 */
module History {
  import opened Wrappers
  import opened Text
  import opened PyValues
  import opened Url
  import opened Resolver

  /** A movie or an episode as the Plex server reports it. */
  datatype Video = Video(
    ratingKey: int,
    guid: string,
    title: Option<string>,
    duration: Option<int>,
    isWatched: bool,
    viewCount: int,
    viewOffset: int,
    userRating: Option<string>,
    lastRatedAt: Option<DateTime>,
    lastViewedAt: Option<DateTime>)

  /** A show as the Plex server reports it, with all of its episodes. */
  datatype ShowItem = ShowItem(
    ratingKey: int,
    guid: string,
    title: Option<string>,
    isWatched: bool,
    userRating: Option<string>,
    lastRatedAt: Option<DateTime>,
    lastViewedAt: Option<DateTime>,
    episodes: seq<Video>)

  /**
   * The exported record of a movie or an episode. `viewPercent` is in hundredths of the
   * duration; None stands for a record without that key.
   */
  datatype ItemRecord = ItemRecord(
    guid: string,
    title: string,
    watched: bool,
    viewCount: int,
    viewOffset: int,
    userRating: string,
    viewPercent: Option<int>,
    lastRatedAt: string,
    lastViewedAt: string)

  /** The exported record of a show, with its episodes by guid. */
  datatype ShowRecord = ShowRecord(
    guid: string,
    title: string,
    watched: bool,
    userRating: string,
    lastRatedAt: string,
    lastViewedAt: string,
    episodes: map<string, ItemRecord>)

  /** The entry a show's defaultdict creates on first access (it has no date keys; "" stands for them). */
  const DefaultShow := ShowRecord("", "", false, "", "", "", map[])

  /**
   * `_get_guid` as the merge sees it: the guid resolved for an item of a type, with its
   * rating key and raw guid, and the cache left behind. The exporter passes its own
   * `GetGuid`; everything proved here holds for any resolver.
   */
  type GuidOf = (Cache, Kind, int, string) -> Out<string>

  /** What the exporter writes for one user: shows and movies by guid (music is always empty). */
  datatype UserHistory = UserHistory(show: map<string, ShowRecord>, movie: map<string, ItemRecord>)

  /**
   * `_get_view_percent(offset, duration)`: `offset / duration` to two decimals, here an
   * integer number of hundredths rounded to the nearest, halves upwards.
   */
  function ViewPercent(offset: int, duration: int): (p: int)
    requires duration > 0
    ensures 2 * duration * p <= 200 * offset + duration < 2 * duration * (p + 1)
  {
    (200 * offset + duration) / (2 * duration)
  }

  lemma MulMonotone(a: int, x: int, y: int)
    requires a >= 0 && x >= y
    ensures a * x >= a * y
  {
    assert a * x - a * y == a * (x - y);
  }

  lemma MulLtCancel(a: int, x: int, y: int)
    ensures a > 0 && a * x < a * y ==> x < y
  {
    if a > 0 && x >= y {
      MulMonotone(a, x, y);
    }
  }

  /** An offset within the duration is between 0 and 100 hundredths. */
  lemma ViewPercentBounds(offset: int, duration: int)
    requires 0 <= offset <= duration && duration > 0
    ensures 0 <= ViewPercent(offset, duration) <= 100
  {
    var p := ViewPercent(offset, duration);
    var a := 2 * duration;
    assert a * 0 < a * (p + 1);
    MulLtCancel(a, 0, p + 1);
    assert a * p < a * 101;
    MulLtCancel(a, p, 101);
  }

  /**
   * The resolved guid has the scheme `plex`: it starts with "plex" in any letter case
   * followed by ':' (the test `urlparse(guid).scheme == "plex"`, see `IsPlexIsSchemeTest`).
   */
  predicate IsPlex(guid: string) {
    |guid| > 4 && guid[4] == ':'
      && LowerChar(guid[0]) == 'p' && LowerChar(guid[1]) == 'l' && LowerChar(guid[2]) == 'e' && LowerChar(guid[3]) == 'x'
  }

  /** `IsPlex` is exactly the scheme test of the source. */
  lemma IsPlexIsSchemeTest(guid: string)
    ensures IsPlex(guid) <==> SchemeOf(guid) == "plex"
  {
    var i := IndexOf(guid, ':');
    if IsPlex(guid) {
      assert ':' !in guid[..4] by {
        assert forall k :: 0 <= k < 4 ==> guid[..4][k] != ':';
      }
      assert guid == guid[..4] + [':'] + guid[5..];
      IndexOfAfterFree(guid[..4], guid[5..], ':');
      assert i == 4;
      assert SchemeEndsAt(guid, 4);
      assert Lower(guid[..4]) == "plex";
    }
    if SchemeOf(guid) == "plex" {
      assert SchemeEndsAt(guid, i);
      assert Lower(guid[..i]) == "plex";
      assert i == 4;
      assert forall k :: 0 <= k < 4 ==> LowerChar(guid[k]) == "plex"[k];
    }
  }

  /** A movie or an episode is recorded only with a `plex` guid and a positive duration. */
  predicate Eligible(guid: string, v: Video) {
    IsPlex(guid) && IntField(v.duration) > 0
  }

  /** The record written for a movie or an episode under its resolved guid. */
  function RecordOf(guid: string, v: Video): (r: ItemRecord)
    requires IntField(v.duration) > 0
    ensures r.guid == guid && r.watched == v.isWatched
    ensures r.viewCount == v.viewCount && r.viewOffset == v.viewOffset
    ensures r.title == StrField(v.title) && r.userRating == StrField(v.userRating)
    ensures r.lastRatedAt == DateField(v.lastRatedAt) && r.lastViewedAt == DateField(v.lastViewedAt)
    ensures r.viewPercent == Some(ViewPercent(v.viewOffset, IntField(v.duration)))
  {
    ItemRecord(guid, StrField(v.title), v.isWatched, v.viewCount, v.viewOffset, StrField(v.userRating),
               Some(ViewPercent(v.viewOffset, IntField(v.duration))), DateField(v.lastRatedAt), DateField(v.lastViewedAt))
  }

  /** Every key of a history map is a `plex` guid and is the guid its record carries. */
  predicate WellKeyed(h: map<string, ItemRecord>) {
    forall g :: g in h ==> IsPlex(g) && h[g].guid == g
  }

  /**
   * One movie of `_get_movie_section_watched_history`: skipped unless eligible; a watched
   * movie overwrites its entry; a partially watched one overwrites it only when the entry
   * is not already watched.
   */
  function MergeMovie(h: map<string, ItemRecord>, guid: string, v: Video): (r: map<string, ItemRecord>)
    ensures !Eligible(guid, v) ==> r == h
    ensures Eligible(guid, v) && v.isWatched ==> r == h[guid := RecordOf(guid, v)] && r[guid].watched
    ensures !v.isWatched && guid in h && h[guid].watched ==> r == h
    ensures Eligible(guid, v) && !(guid in h && h[guid].watched) ==> r == h[guid := RecordOf(guid, v)]
    ensures forall k :: k != guid ==> (k in r <==> k in h) && (k in h ==> r[k] == h[k])
  {
    if !Eligible(guid, v) then h
    else if v.isWatched then h[guid := RecordOf(guid, v)]
    else if guid in h && h[guid].watched then h
    else h[guid := RecordOf(guid, v)]
  }

  /** One movie at a time, in order: the history after a section whose movies resolved to `guids`. */
  function MergeMovies(h: map<string, ItemRecord>, guids: seq<string>, items: seq<Video>): map<string, ItemRecord>
    requires |guids| == |items|
    decreases |items|
  {
    if |items| == 0 then h
    else
      var n := |items| - 1;
      MergeMovie(MergeMovies(h, guids[..n], items[..n]), guids[n], items[n])
  }

  /** A watched entry stays watched, whatever movies come after it. */
  lemma {:induction false} MoviesWatchedSticky(h: map<string, ItemRecord>, guids: seq<string>, items: seq<Video>)
    requires |guids| == |items|
    ensures var r := MergeMovies(h, guids, items); forall g :: g in h && h[g].watched ==> g in r && r[g].watched
    decreases |items|
  {
    if |items| > 0 {
      var n := |items| - 1;
      MoviesWatchedSticky(h, guids[..n], items[..n]);
    }
  }

  /** An eligible watched movie anywhere in the section leaves its guid watched, whatever the order. */
  lemma {:induction false} MoviesWatchedWins(h: map<string, ItemRecord>, guids: seq<string>, items: seq<Video>, i: int)
    requires |guids| == |items| && 0 <= i < |items|
    requires Eligible(guids[i], items[i]) && items[i].isWatched
    ensures var r := MergeMovies(h, guids, items); guids[i] in r && r[guids[i]].watched
    decreases |items|
  {
    var n := |items| - 1;
    var before := MergeMovies(h, guids[..n], items[..n]);
    if i < n {
      MoviesWatchedWins(h, guids[..n], items[..n], i);
      assert guids[..n][i] == guids[i];
    }
  }

  /** The guids of the eligible items of a section. */
  function EligibleGuids(guids: seq<string>, items: seq<Video>): set<string>
    requires |guids| == |items|
    decreases |items|
  {
    if |items| == 0 then {}
    else
      var n := |items| - 1;
      EligibleGuids(guids[..n], items[..n]) + (if Eligible(guids[n], items[n]) then {guids[n]} else {})
  }

  /** `EligibleGuids` holds a guid exactly when some eligible item of the section resolved to it. */
  lemma {:induction false} EligibleGuidsIff(guids: seq<string>, items: seq<Video>, g: string)
    requires |guids| == |items|
    ensures g in EligibleGuids(guids, items) <==> exists i :: 0 <= i < |items| && guids[i] == g && Eligible(g, items[i])
    decreases |items|
  {
    if |items| > 0 {
      var n := |items| - 1;
      EligibleGuidsIff(guids[..n], items[..n], g);
      if g in EligibleGuids(guids[..n], items[..n]) {
        var i :| 0 <= i < n && guids[..n][i] == g && Eligible(g, items[..n][i]);
        assert guids[i] == g && Eligible(g, items[i]);
      }
      if exists i :: 0 <= i < |items| && guids[i] == g && Eligible(g, items[i]) {
        var i :| 0 <= i < |items| && guids[i] == g && Eligible(g, items[i]);
        if i < n {
          assert guids[..n][i] == g && Eligible(g, items[..n][i]);
        }
      }
    }
  }

  /** The section adds exactly the guids of its eligible movies to the history. */
  lemma {:induction false} MoviesKeys(h: map<string, ItemRecord>, guids: seq<string>, items: seq<Video>)
    requires |guids| == |items|
    ensures MergeMovies(h, guids, items).Keys == h.Keys + EligibleGuids(guids, items)
    decreases |items|
  {
    if |items| > 0 {
      var n := |items| - 1;
      MoviesKeys(h, guids[..n], items[..n]);
    }
  }

  /** Merging keeps a history well keyed: only `plex` guids, each the guid of its own record. */
  lemma {:induction false} MoviesWellKeyed(h: map<string, ItemRecord>, guids: seq<string>, items: seq<Video>)
    requires |guids| == |items|
    ensures WellKeyed(h) ==> WellKeyed(MergeMovies(h, guids, items))
    decreases |items|
  {
    if |items| > 0 {
      var n := |items| - 1;
      MoviesWellKeyed(h, guids[..n], items[..n]);
    }
  }

  /** One episode of a show: an eligible episode overwrites its entry in the show's episode map. */
  function MergeEpisode(m: map<string, ItemRecord>, guid: string, v: Video): (r: map<string, ItemRecord>)
    ensures !Eligible(guid, v) ==> r == m
    ensures Eligible(guid, v) ==> r == m[guid := RecordOf(guid, v)]
  {
    if Eligible(guid, v) then m[guid := RecordOf(guid, v)] else m
  }

  function MergeEpisodes(m: map<string, ItemRecord>, guids: seq<string>, items: seq<Video>): map<string, ItemRecord>
    requires |guids| == |items|
    decreases |items|
  {
    if |items| == 0 then m
    else
      var n := |items| - 1;
      MergeEpisode(MergeEpisodes(m, guids[..n], items[..n]), guids[n], items[n])
  }

  /** Episode entries are only ever added or overwritten, never removed. */
  lemma {:induction false} EpisodesKeep(m: map<string, ItemRecord>, guids: seq<string>, items: seq<Video>)
    requires |guids| == |items|
    ensures m.Keys <= MergeEpisodes(m, guids, items).Keys
    decreases |items|
  {
    if |items| > 0 {
      var n := |items| - 1;
      EpisodesKeep(m, guids[..n], items[..n]);
    }
  }

  /** The last eligible episode with a given guid is the one whose record stays. */
  lemma {:induction false} EpisodesLastWins(m: map<string, ItemRecord>, guids: seq<string>, items: seq<Video>, i: int)
    requires |guids| == |items| && 0 <= i < |items| && Eligible(guids[i], items[i])
    requires forall j :: i < j < |items| && guids[j] == guids[i] ==> !Eligible(guids[j], items[j])
    ensures var r := MergeEpisodes(m, guids, items); guids[i] in r && r[guids[i]] == RecordOf(guids[i], items[i])
    decreases |items|
  {
    var n := |items| - 1;
    var prev := MergeEpisodes(m, guids[..n], items[..n]);
    assert MergeEpisodes(m, guids, items) == MergeEpisode(prev, guids[n], items[n]);
    if i < n {
      var gs, vs := guids[..n], items[..n];
      assert gs[i] == guids[i] && vs[i] == items[i];
      forall j | i < j < n && gs[j] == gs[i]
        ensures !Eligible(gs[j], vs[j])
      {
        assert gs[j] == guids[j] && vs[j] == items[j];
      }
      EpisodesLastWins(m, gs, vs, i);
      assert guids[n] != guids[i] || !Eligible(guids[n], items[n]);
    }
  }

  /** An entry that no eligible episode resolves to keeps its value, or stays absent. */
  lemma {:induction false} EpisodesUntouched(m: map<string, ItemRecord>, guids: seq<string>, items: seq<Video>, g: string)
    requires |guids| == |items|
    requires forall j :: 0 <= j < |items| && guids[j] == g ==> !Eligible(guids[j], items[j])
    ensures var r := MergeEpisodes(m, guids, items); (g in r <==> g in m) && (g in m ==> r[g] == m[g])
    decreases |items|
  {
    if |items| > 0 {
      var n := |items| - 1;
      forall j | 0 <= j < n && guids[..n][j] == g
        ensures !Eligible(guids[..n][j], items[..n][j])
      {
        assert guids[..n][j] == guids[j] && items[..n][j] == items[j];
      }
      EpisodesUntouched(m, guids[..n], items[..n], g);
    }
  }

  /** Two runs of episodes merged one after the other are one run over both. */
  lemma {:induction false} MergeEpisodesAppend(m: map<string, ItemRecord>, ga: seq<string>, a: seq<Video>, gb: seq<string>, b: seq<Video>)
    requires |ga| == |a| && |gb| == |b|
    ensures MergeEpisodes(MergeEpisodes(m, ga, a), gb, b) == MergeEpisodes(m, ga + gb, a + b)
    decreases |b|
  {
    if |b| == 0 {
      assert ga + gb == ga && a + b == a;
    } else {
      var n := |b| - 1;
      MergeEpisodesAppend(m, ga, a, gb[..n], b[..n]);
      assert (ga + gb)[..|ga| + n] == ga + gb[..n];
      assert (a + b)[..|a| + n] == a + b[..n];
      assert (ga + gb)[|ga| + n] == gb[n] && (a + b)[|a| + n] == b[n];
    }
  }

  lemma {:induction false} EpisodesWellKeyed(m: map<string, ItemRecord>, guids: seq<string>, items: seq<Video>)
    requires |guids| == |items|
    ensures WellKeyed(m) ==> WellKeyed(MergeEpisodes(m, guids, items))
    decreases |items|
  {
    if |items| > 0 {
      var n := |items| - 1;
      EpisodesWellKeyed(m, guids[..n], items[..n]);
    }
  }

  /** `_get_guid` of each item in order, threading the cache: the guids and the cache left behind. */
  function ResolveAll(resolve: GuidOf, c: Cache, kind: Kind, items: seq<Video>): (r: Out<seq<string>>)
    ensures |r.value| == |items|
    decreases |items|
  {
    if |items| == 0 then Out([], c)
    else
      var n := |items| - 1;
      var o := ResolveAll(resolve, c, kind, items[..n]);
      var g := resolve(o.cache, kind, items[n].ratingKey, items[n].guid);
      Out(o.value + [g.value], g.cache)
  }

  /** Resolving two runs one after the other, threading the cache, is resolving both as one run. */
  lemma {:induction false} ResolveAllAppend(resolve: GuidOf, c: Cache, kind: Kind, a: seq<Video>, b: seq<Video>)
    ensures var oa := ResolveAll(resolve, c, kind, a); var ob := ResolveAll(resolve, oa.cache, kind, b);
      ResolveAll(resolve, c, kind, a + b) == Out(oa.value + ob.value, ob.cache)
    decreases |b|
  {
    if |b| == 0 {
      assert a + b == a;
      var oa := ResolveAll(resolve, c, kind, a);
      assert oa.value + [] == oa.value;
    } else {
      var n := |b| - 1;
      ResolveAllAppend(resolve, c, kind, a, b[..n]);
      var oa := ResolveAll(resolve, c, kind, a);
      var prev := ResolveAll(resolve, oa.cache, kind, b[..n]);
      var g := resolve(prev.cache, kind, b[n].ratingKey, b[n].guid);
      assert (a + b)[..|a| + n] == a + b[..n];
      assert (a + b)[|a| + n] == b[n];
      assert ResolveAll(resolve, oa.cache, kind, b) == Out(prev.value + [g.value], g.cache);
      assert ResolveAll(resolve, c, kind, a + b) == Out((oa.value + prev.value) + [g.value], g.cache);
      assert (oa.value + prev.value) + [g.value] == oa.value + (prev.value + [g.value]);
    }
  }

  lemma ResolveAllStep(resolve: GuidOf, c: Cache, kind: Kind, items: seq<Video>, i: int)
    requires 0 <= i < |items|
    ensures var o := ResolveAll(resolve, c, kind, items[..i]);
      var g := resolve(o.cache, kind, items[i].ratingKey, items[i].guid);
      ResolveAll(resolve, c, kind, items[..i + 1]) == Out(o.value + [g.value], g.cache)
  {
    assert items[..i + 1][..i] == items[..i];
  }

  lemma MergeMoviesStep(h: map<string, ItemRecord>, guids: seq<string>, guid: string, items: seq<Video>, i: int)
    requires 0 <= i < |items| && |guids| == i
    ensures MergeMovies(h, guids + [guid], items[..i + 1]) == MergeMovie(MergeMovies(h, guids, items[..i]), guid, items[i])
  {
    assert (guids + [guid])[..i] == guids;
    assert items[..i + 1][..i] == items[..i];
  }

  lemma MergeEpisodesStep(m: map<string, ItemRecord>, guids: seq<string>, guid: string, items: seq<Video>, i: int)
    requires 0 <= i < |items| && |guids| == i
    ensures MergeEpisodes(m, guids + [guid], items[..i + 1]) == MergeEpisode(MergeEpisodes(m, guids, items[..i]), guid, items[i])
  {
    assert (guids + [guid])[..i] == guids;
    assert items[..i + 1][..i] == items[..i];
  }

  /** `_get_movie_section_watched_history`: the history after one movie section, with the cache it leaves. */
  function MovieSectionHistory(resolve: GuidOf, c: Cache, h: map<string, ItemRecord>, items: seq<Video>): (r: (map<string, ItemRecord>, Cache))
    ensures WellKeyed(h) ==> WellKeyed(r.0)
    ensures forall g :: g in h && h[g].watched ==> g in r.0 && r.0[g].watched
  {
    var o := ResolveAll(resolve, c, MovieKind, items);
    MoviesWellKeyed(h, o.value, items);
    MoviesWatchedSticky(h, o.value, items);
    (MergeMovies(h, o.value, items), o.cache)
  }

  /** The episodes of a show the server returns for a filter: those satisfying it, in their order. */
  function WithViews(vs: seq<Video>): seq<Video>
    decreases |vs|
  {
    if |vs| == 0 then []
    else
      var n := |vs| - 1;
      WithViews(vs[..n]) + (if vs[n].viewCount > 0 then [vs[n]] else [])
  }

  /** `WithViews` holds exactly the episodes with a positive view count. */
  lemma {:induction false} WithViewsMembers(vs: seq<Video>, v: Video)
    ensures v in WithViews(vs) <==> v in vs && v.viewCount > 0
    decreases |vs|
  {
    if |vs| > 0 {
      var n := |vs| - 1;
      WithViewsMembers(vs[..n], v);
      assert vs == vs[..n] + [vs[n]];
    }
  }

  /** Filtering keeps the order: the filter of two runs is the filter of the first, then of the second. */
  lemma {:induction false} WithViewsAppend(a: seq<Video>, b: seq<Video>)
    ensures WithViews(a + b) == WithViews(a) + WithViews(b)
    decreases |b|
  {
    if |b| == 0 {
      assert a + b == a;
    } else {
      var n := |b| - 1;
      WithViewsAppend(a, b[..n]);
      var last := if b[n].viewCount > 0 then [b[n]] else [];
      assert (a + b)[..|a| + n] == a + b[..n];
      assert (a + b)[|a| + n] == b[n];
      assert WithViews(a + b) == WithViews(a + b[..n]) + last;
      assert WithViews(b) == WithViews(b[..n]) + last;
      assert (WithViews(a) + WithViews(b[..n])) + last == WithViews(a) + (WithViews(b[..n]) + last);
    }
  }

  function WithOffset(vs: seq<Video>): seq<Video>
    decreases |vs|
  {
    if |vs| == 0 then []
    else
      var n := |vs| - 1;
      WithOffset(vs[..n]) + (if vs[n].viewOffset > 0 then [vs[n]] else [])
  }

  /** `WithOffset` holds exactly the episodes with a positive view offset. */
  lemma {:induction false} WithOffsetMembers(vs: seq<Video>, v: Video)
    ensures v in WithOffset(vs) <==> v in vs && v.viewOffset > 0
    decreases |vs|
  {
    if |vs| > 0 {
      var n := |vs| - 1;
      WithOffsetMembers(vs[..n], v);
      assert vs == vs[..n] + [vs[n]];
    }
  }

  lemma {:induction false} WithOffsetAppend(a: seq<Video>, b: seq<Video>)
    ensures WithOffset(a + b) == WithOffset(a) + WithOffset(b)
    decreases |b|
  {
    if |b| == 0 {
      assert a + b == a;
    } else {
      var n := |b| - 1;
      WithOffsetAppend(a, b[..n]);
      var last := if b[n].viewOffset > 0 then [b[n]] else [];
      assert (a + b)[..|a| + n] == a + b[..n];
      assert (a + b)[|a| + n] == b[n];
      assert WithOffset(a + b) == WithOffset(a + b[..n]) + last;
      assert WithOffset(b) == WithOffset(b[..n]) + last;
      assert (WithOffset(a) + WithOffset(b[..n])) + last == WithOffset(a) + (WithOffset(b[..n]) + last);
    }
  }

  /** One pass over a show's episodes: resolve each guid, then merge it into the episode map. */
  function EpisodePass(resolve: GuidOf, c: Cache, m: map<string, ItemRecord>, items: seq<Video>): (r: (map<string, ItemRecord>, Cache))
    ensures m.Keys <= r.0.Keys
    ensures WellKeyed(m) ==> WellKeyed(r.0)
  {
    var o := ResolveAll(resolve, c, EpisodeKind, items);
    EpisodesKeep(m, o.value, items);
    EpisodesWellKeyed(m, o.value, items);
    (MergeEpisodes(m, o.value, items), o.cache)
  }

  /** The show-level fields a show writes into its entry; the episode map is kept. */
  function ShowFields(existing: ShowRecord, guid: string, s: ShowItem): (r: ShowRecord)
    ensures r.guid == guid && r.watched == s.isWatched && r.episodes == existing.episodes
  {
    existing.(guid := guid, title := StrField(s.title), watched := s.isWatched, userRating := StrField(s.userRating),
              lastRatedAt := DateField(s.lastRatedAt), lastViewedAt := DateField(s.lastViewedAt))
  }

  /** Every key of a show map is a `plex` guid carried by its record, and so is every episode key. */
  predicate ShowsWellKeyed(h: map<string, ShowRecord>) {
    forall g :: g in h ==> IsPlex(g) && h[g].guid == g && WellKeyed(h[g].episodes)
  }

  /**
   * The episodes a show contributes to `m`: those with views and, unless the show is
   * fully watched, then those with a view offset.
   */
  function ShowEpisodes(resolve: GuidOf, c: Cache, m: map<string, ItemRecord>, s: ShowItem): (r: (map<string, ItemRecord>, Cache))
    ensures m.Keys <= r.0.Keys
    ensures WellKeyed(m) ==> WellKeyed(r.0)
  {
    var viewed := EpisodePass(resolve, c, m, WithViews(s.episodes));
    if s.isWatched then viewed else EpisodePass(resolve, viewed.1, viewed.0, WithOffset(s.episodes))
  }

  /**
   * The episodes a show merges, as one run: those with views, then, unless the show is
   * fully watched, those with a view offset.
   */
  function ShowRun(s: ShowItem): seq<Video> {
    WithViews(s.episodes) + (if s.isWatched then [] else WithOffset(s.episodes))
  }

  /** Two passes are one: the second pass continues from the map and cache the first left. */
  lemma EpisodePassAppend(resolve: GuidOf, c: Cache, m: map<string, ItemRecord>, a: seq<Video>, b: seq<Video>)
    ensures var first := EpisodePass(resolve, c, m, a);
      EpisodePass(resolve, first.1, first.0, b) == EpisodePass(resolve, c, m, a + b)
  {
    var oa := ResolveAll(resolve, c, EpisodeKind, a);
    var ob := ResolveAll(resolve, oa.cache, EpisodeKind, b);
    ResolveAllAppend(resolve, c, EpisodeKind, a, b);
    MergeEpisodesAppend(m, oa.value, a, ob.value, b);
  }

  /** A show's episodes are merged as one run of `MergeEpisodes` over `ShowRun`. */
  lemma ShowEpisodesOneRun(resolve: GuidOf, c: Cache, m: map<string, ItemRecord>, s: ShowItem)
    ensures ShowEpisodes(resolve, c, m, s) == EpisodePass(resolve, c, m, ShowRun(s))
  {
    if s.isWatched {
      assert ShowRun(s) == WithViews(s.episodes);
    } else {
      EpisodePassAppend(resolve, c, m, WithViews(s.episodes), WithOffset(s.episodes));
    }
  }

  /**
   * The entry of an episode guid is the record of the last eligible episode of the run that
   * resolves to it: for a partially watched show an episode of the view-offset pass
   * overrides the same guid's record from the view-count pass.
   */
  lemma ShowEpisodesLastWins(resolve: GuidOf, c: Cache, m: map<string, ItemRecord>, s: ShowItem, i: int)
    requires var run := ShowRun(s); var gs := ResolveAll(resolve, c, EpisodeKind, run).value;
      && 0 <= i < |run| && Eligible(gs[i], run[i])
      && forall j :: i < j < |run| && gs[j] == gs[i] ==> !Eligible(gs[j], run[j])
    ensures var run := ShowRun(s); var gs := ResolveAll(resolve, c, EpisodeKind, run).value;
      var r := ShowEpisodes(resolve, c, m, s).0;
      gs[i] in r && r[gs[i]] == RecordOf(gs[i], run[i])
  {
    var run := ShowRun(s);
    ShowEpisodesOneRun(resolve, c, m, s);
    EpisodesLastWins(m, ResolveAll(resolve, c, EpisodeKind, run).value, run, i);
  }

  /** An episode entry that no eligible episode of the run resolves to keeps its old value. */
  lemma ShowEpisodesUntouched(resolve: GuidOf, c: Cache, m: map<string, ItemRecord>, s: ShowItem, g: string)
    requires var run := ShowRun(s); var gs := ResolveAll(resolve, c, EpisodeKind, run).value;
      forall j :: 0 <= j < |run| && gs[j] == g ==> !Eligible(gs[j], run[j])
    ensures var r := ShowEpisodes(resolve, c, m, s).0; (g in r <==> g in m) && (g in m ==> r[g] == m[g])
  {
    var run := ShowRun(s);
    ShowEpisodesOneRun(resolve, c, m, s);
    EpisodesUntouched(m, ResolveAll(resolve, c, EpisodeKind, run).value, run, g);
  }

  /** Replacing a show's entry by one carrying its guid and well-keyed episodes keeps the map well keyed. */
  lemma ShowsUpdateWellKeyed(h: map<string, ShowRecord>, guid: string, rec: ShowRecord)
    requires IsPlex(guid) && rec.guid == guid
    ensures ShowsWellKeyed(h) && WellKeyed(rec.episodes) ==> ShowsWellKeyed(h[guid := rec])
  {
  }

  /**
   * One show of `_get_show_section_watched_history`, once its guid is resolved: skipped
   * unless the guid is `plex`; a partially watched show is skipped when its entry is
   * already watched; otherwise the show-level fields are written and its episodes merged.
   */
  function ShowMerge(resolve: GuidOf, c: Cache, h: map<string, ShowRecord>, guid: string, s: ShowItem): (r: (map<string, ShowRecord>, Cache))
    ensures !IsPlex(guid) ==> r.0 == h
    ensures forall g :: g != guid ==> (g in r.0 <==> g in h) && (g in h ==> r.0[g] == h[g])
    ensures guid in h ==> guid in r.0 && h[guid].episodes.Keys <= r.0[guid].episodes.Keys
    ensures guid in h && h[guid].watched ==> r.0[guid].watched
    ensures s.isWatched && IsPlex(guid) ==> guid in r.0 && r.0[guid].watched
    ensures ShowsWellKeyed(h) ==> ShowsWellKeyed(r.0)
    ensures IsPlex(guid) && !s.isWatched && guid in h && h[guid].watched ==> r == (h, c)
    ensures IsPlex(guid) && !(!s.isWatched && guid in h && h[guid].watched) ==>
      var fields := ShowFields(if guid in h then h[guid] else DefaultShow, guid, s);
      var eps := ShowEpisodes(resolve, c, fields.episodes, s);
      r == (h[guid := fields.(episodes := eps.0)], eps.1)
  {
    if !IsPlex(guid) then (h, c)
    else
      var existing := if guid in h then h[guid] else DefaultShow;
      if !s.isWatched && existing.watched then (h, c)
      else
        var rec := ShowFields(existing, guid, s);
        var eps := ShowEpisodes(resolve, c, rec.episodes, s);
        var rec' := rec.(episodes := eps.0);
        ShowsUpdateWellKeyed(h, guid, rec');
        (h[guid := rec'], eps.1)
  }

  /** One show of `_get_show_section_watched_history`: its guid resolved, then merged. */
  function ShowStep(resolve: GuidOf, c: Cache, h: map<string, ShowRecord>, s: ShowItem): (r: (map<string, ShowRecord>, Cache))
    ensures var g := resolve(c, ShowKind, s.ratingKey, s.guid).value;
      && (!IsPlex(g) ==> r.0 == h)
      && (forall k :: k in r.0 && k !in h ==> k == g)
      && (s.isWatched && IsPlex(g) ==> g in r.0 && r.0[g].watched)
    ensures forall k :: k in h ==> k in r.0 && h[k].episodes.Keys <= r.0[k].episodes.Keys && (h[k].watched ==> r.0[k].watched)
    ensures ShowsWellKeyed(h) ==> ShowsWellKeyed(r.0)
  {
    var o := resolve(c, ShowKind, s.ratingKey, s.guid);
    ShowMerge(resolve, o.cache, h, o.value, s)
  }

  function ShowsHistory(resolve: GuidOf, c: Cache, h: map<string, ShowRecord>, shows: seq<ShowItem>): (r: (map<string, ShowRecord>, Cache))
    decreases |shows|
  {
    if |shows| == 0 then (h, c)
    else
      var n := |shows| - 1;
      var before := ShowsHistory(resolve, c, h, shows[..n]);
      ShowStep(resolve, before.1, before.0, shows[n])
  }

  lemma ShowsHistoryStep(resolve: GuidOf, c: Cache, h: map<string, ShowRecord>, shows: seq<ShowItem>, i: int)
    requires 0 <= i < |shows|
    ensures var before := ShowsHistory(resolve, c, h, shows[..i]);
      ShowsHistory(resolve, c, h, shows[..i + 1]) == ShowStep(resolve, before.1, before.0, shows[i])
  {
    assert shows[..i + 1][..i] == shows[..i];
  }

  /** Across a show section, watched shows stay watched and no episode entry is lost. */
  lemma {:induction false} ShowsKeep(resolve: GuidOf, c: Cache, h: map<string, ShowRecord>, shows: seq<ShowItem>, g: string)
    requires g in h
    ensures var r := ShowsHistory(resolve, c, h, shows).0;
      g in r && h[g].episodes.Keys <= r[g].episodes.Keys && (h[g].watched ==> r[g].watched)
    decreases |shows|
  {
    if |shows| > 0 {
      ShowsKeep(resolve, c, h, shows[..|shows| - 1], g);
    }
  }

  lemma {:induction false} ShowsStayWellKeyed(resolve: GuidOf, c: Cache, h: map<string, ShowRecord>, shows: seq<ShowItem>)
    requires ShowsWellKeyed(h)
    ensures ShowsWellKeyed(ShowsHistory(resolve, c, h, shows).0)
    decreases |shows|
  {
    if |shows| > 0 {
      ShowsStayWellKeyed(resolve, c, h, shows[..|shows| - 1]);
    }
  }

  /** A library section as the history export sees it: the items its searches return. */
  datatype Section =
    | MovieSection(movies: seq<Video>)
    | ShowSection(shows: seq<ShowItem>)
    | OtherSection(sectionType: string)

  /** The user history after the given sections, in order: movie sections into `movie`, show sections into `show`. */
  function SectionsHistory(resolve: GuidOf, c: Cache, sections: seq<Section>): (r: (UserHistory, Cache))
    decreases |sections|
  {
    if |sections| == 0 then (UserHistory(map[], map[]), c)
    else
      var n := |sections| - 1;
      var before := SectionsHistory(resolve, c, sections[..n]);
      var uh := before.0;
      match sections[n]
      case MovieSection(movies) =>
        var m := MovieSectionHistory(resolve, before.1, uh.movie, movies);
        (uh.(movie := m.0), m.1)
      case ShowSection(shows) =>
        var s := ShowsHistory(resolve, before.1, uh.show, shows);
        (uh.(show := s.0), s.1)
      case OtherSection(_) => before
  }

  lemma SectionsHistoryStep(resolve: GuidOf, c: Cache, sections: seq<Section>, i: int)
    requires 0 <= i < |sections|
    ensures var before := SectionsHistory(resolve, c, sections[..i]);
      var uh := before.0;
      SectionsHistory(resolve, c, sections[..i + 1]) ==
        match sections[i]
        case MovieSection(movies) =>
          var m := MovieSectionHistory(resolve, before.1, uh.movie, movies);
          (uh.(movie := m.0), m.1)
        case ShowSection(shows) =>
          var s := ShowsHistory(resolve, before.1, uh.show, shows);
          (uh.(show := s.0), s.1)
        case OtherSection(_) => before
  {
    assert sections[..i + 1][..i] == sections[..i];
  }

  /**
   * `_get_user_server_watched_history`: every guid in the exported history, of a movie, a
   * show or an episode, is a `plex` guid, and is the guid its record carries.
   */
  lemma {:induction false} UserHistoryWellKeyed(resolve: GuidOf, c: Cache, sections: seq<Section>)
    ensures var uh := SectionsHistory(resolve, c, sections).0; WellKeyed(uh.movie) && ShowsWellKeyed(uh.show)
    decreases |sections|
  {
    if |sections| > 0 {
      var n := |sections| - 1;
      UserHistoryWellKeyed(resolve, c, sections[..n]);
      var before := SectionsHistory(resolve, c, sections[..n]);
      if sections[n].ShowSection? {
        ShowsStayWellKeyed(resolve, before.1, before.0.show, sections[n].shows);
      }
    }
  }
}
