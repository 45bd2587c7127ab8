/**
 * The exporter as the program runs it: one object holding the show metadata cache, the
 * three rating-key memos and the log of requests sent to the metadata service, whose
 * methods update them in place. Each method is proved to leave exactly the state, and to
 * return exactly the value, of the corresponding function of `Resolver` or `History`.
 */
module Export {
  import opened Wrappers
  import opened Text
  import opened PyValues
  import opened Resolver
  import opened History

  /** The resolver the merge uses: `_get_guid` against the metadata service `svc`. */
  function GuidFor(svc: Services): GuidOf {
    (c: Cache, kind: Kind, ratingKey: int, rawGuid: string) => Resolver.GetGuid(svc, c, kind, ratingKey, rawGuid)
  }

  function Min(a: int, b: int): int {
    if a <= b then a else b
  }

  /**
   * `_section_item_iterator`: pages of `containerSize` items are requested from offset 0
   * while the offset does not exceed the total, which the first page replaces by the size
   * of the listing. All items come back, in order; the pages start at multiples of the
   * page size, and the last one starts at or before the total and the next would not.
   * A negative initial total fetches nothing.
   */
  method SectionItems<T>(all: seq<T>, containerSize: nat, initialTotal: Option<int>) returns (items: seq<T>, starts: seq<nat>)
    requires containerSize > 0
    ensures initialTotal.Some? && initialTotal.value < 0 ==> items == [] && starts == []
    ensures !(initialTotal.Some? && initialTotal.value < 0) ==>
      items == all && |starts| > 0 && starts[|starts| - 1] <= |all| < starts[|starts| - 1] + containerSize
    ensures forall k :: 0 <= k < |starts| ==> starts[k] == k * containerSize
  {
    var start: nat := 0;
    var total := initialTotal;
    items, starts := [], [];
    while total.None? || start <= total.value
      invariant forall k :: 0 <= k < |starts| ==> starts[k] == k * containerSize
      invariant initialTotal.Some? && initialTotal.value < 0 ==> |starts| == 0
      invariant |starts| == 0 ==> start == 0 && total == initialTotal && items == []
      invariant |starts| > 0 ==> total == Some(|all|) && start == |starts| * containerSize
      invariant |starts| > 0 ==> starts[|starts| - 1] <= |all| && items == all[..Min(start, |all|)]
      decreases if |starts| == 0 then 1 else 0, |all| + containerSize - start
    {
      items := items + all[Min(start, |all|)..Min(start + containerSize, |all|)];
      starts := starts + [start];
      total := Some(|all|);
      assert (|starts| - 1) * containerSize + containerSize == |starts| * containerSize;
      start := start + containerSize;
    }
  }

  /** The season loop of `_get_episode_guid`: the rating key of the first season with that display index. */
  method FindSeasonKey(seasons: seq<SeasonStub>, seasonId: string) returns (key: string)
    ensures key == SeasonKey(seasons, seasonId)
  {
    key := "";
    var i := 0;
    while i < |seasons|
      invariant 0 <= i <= |seasons|
      invariant forall k :: 0 <= k < i ==> IntToString(seasons[k].index) != seasonId
    {
      var text := IntToString(seasons[i].index);
      if text == seasonId {
        key := seasons[i].ratingKey;
        FirstSeasonAt(seasons, seasonId, i);
        return;
      }
      i := i + 1;
    }
    FirstSeasonAt(seasons, seasonId, i);
  }

  /** The episode loop of `_get_episode_guid`: the guid of the first episode with that display index, or "". */
  method FindEpisodeGuid(entry: SeasonEntry, episodeId: string) returns (guid: string)
    ensures guid == EpisodeIn(entry, episodeId)
  {
    guid := "";
    if entry.NoSeason? {
      return;
    }
    var episodes := entry.meta.episodes;
    assert EpisodeIn(entry, episodeId) == (var j := FirstEpisode(episodes, episodeId); if j < 0 then "" else episodes[j].guid);
    var i := 0;
    while i < |episodes|
      invariant 0 <= i <= |episodes|
      invariant forall k :: 0 <= k < i ==> IntToString(episodes[k].index) != episodeId
    {
      var text := IntToString(episodes[i].index);
      if text == episodeId {
        guid := episodes[i].guid;
        FirstEpisodeAt(episodes, episodeId, i);
        return;
      }
      i := i + 1;
    }
    FirstEpisodeAt(episodes, episodeId, i);
  }

  class Exporter {
    /** The metadata service the exporter talks to. */
    const svc: Services
    /** `SHOW_METADATA_MAPPING`: tvdb id → show metadata with its `Seasons`. */
    var shows: map<string, ShowEntry>
    /** The `MOVIE_`, `SHOW_` and `EPISODE_RATING_KEY_GUID_MAPPING` memos. */
    var movieKeys: map<int, string>
    var showKeys: map<int, string>
    var episodeKeys: map<int, string>
    /** Every request sent to the metadata service so far. */
    var sent: seq<Request>

    /** The state of the exporter as the value the functions of `Resolver` work on. */
    function Snap(): Cache
      reads this
    {
      Cache(shows, movieKeys, showKeys, episodeKeys, sent)
    }

    /**
     * `_setup_cache`: the show metadata cache persists on disk from earlier runs, the
     * three rating-key memos start empty.
     */
    constructor(svc: Services, persisted: map<string, ShowEntry>)
      ensures this.svc == svc && Snap() == Cache(persisted, map[], map[], map[], [])
    {
      this.svc := svc;
      shows := persisted;
      movieKeys, showKeys, episodeKeys := map[], map[], map[];
      sent := [];
    }

    method Send(r: Request)
      modifies this
      ensures Snap() == old(Snap()).Send(r)
    {
      sent := sent + [r];
    }

    /** `_fetch_show_metadata(tvdb_id)`. */
    method FetchShowMetadata(tvdbId: string) returns (entry: ShowEntry)
      modifies this
      ensures Out(entry, Snap()) == FetchShow(svc, old(Snap()), tvdbId)
    {
      if tvdbId in shows {
        return shows[tvdbId];
      }
      Send(ShowMatchQuery(tvdbId));
      match svc.showMatches(tvdbId)
      case NotOk =>
        return NoShow;
      case Ok200(ms) =>
        var showKey := if |ms| > 0 then ms[0].ratingKey else "";
        entry := NoShow;
        if showKey != "" {
          Send(ShowDetailsQuery(showKey));
          match svc.showDetails(showKey)
          case NotOk =>
            return NoShow;
          case Ok200(meta) =>
            entry := Show(meta, map[]);
        }
        shows := shows[tvdbId := entry];
    }

    /** `_get_movie_guid(tmdb_id)` over `_fetch_movie_metadata`. */
    method GetMovieGuid(tmdbId: string) returns (guid: string)
      modifies this
      ensures Out(guid, Snap()) == MovieGuid(svc, old(Snap()), tmdbId)
    {
      Send(MovieMatchQuery(tmdbId));
      guid := "";
      match svc.movieMatches(tmdbId)
      case NotOk =>
      case Ok200(ms) =>
        if |ms| > 0 {
          guid := ms[0].guid.GetOr("");
        }
    }

    /** `_get_show_guid(tvdb_id)`. */
    method GetShowGuid(tvdbId: string) returns (guid: string)
      modifies this
      ensures Out(guid, Snap()) == ShowGuid(svc, old(Snap()), tvdbId)
    {
      var entry := FetchShowMetadata(tvdbId);
      guid := if entry.Show? then entry.meta.guid.GetOr("") else "";
    }

    /** `_get_episode_guid(tvdb_id, season_id, episode_id)`. */
    method GetEpisodeGuid(tvdbId: string, seasonId: string, episodeId: string) returns (guid: string)
      modifies this
      ensures Out(guid, Snap()) == EpisodeGuid(svc, old(Snap()), tvdbId, seasonId, episodeId)
    {
      var show := FetchShowMetadata(tvdbId);
      if show.NoShow? {
        return "";
      }
      var season: SeasonEntry;
      if seasonId in show.seasons {
        season := show.seasons[seasonId];
      } else {
        var seasonKey := FindSeasonKey(show.meta.seasons, seasonId);
        season := NoSeason;
        if seasonKey != "" {
          Send(SeasonDetailsQuery(seasonKey));
          match svc.seasonDetails(seasonKey)
          case NotOk =>
            return "";
          case Ok200(meta) =>
            season := Season(meta);
        }
        var cached := shows[tvdbId];
        shows := shows[tvdbId := cached.(seasons := cached.seasons[seasonId := season])];
      }
      guid := FindEpisodeGuid(season, episodeId);
    }

    /** `_convert_to_plex_guid(guid, item_type)`. */
    method ConvertToPlexGuid(guid: string, kind: Kind) returns (converted: string)
      modifies this
      ensures Out(converted, Snap()) == Convert(svc, old(Snap()), guid, kind)
    {
      match Classify(guid, kind)
      case MovieLookup(tmdbId) =>
        converted := GetMovieGuid(tmdbId);
      case ShowLookup(tvdbId) =>
        converted := GetShowGuid(tvdbId);
      case EpisodeLookup(showId, seasonId, episodeId) =>
        converted := GetEpisodeGuid(showId, seasonId, episodeId);
      case Unresolvable =>
        converted := "";
      case PassThrough =>
        converted := guid;
    }

    /** Writes `ratingKey → guid` into the memo of `kind`. */
    method Store(kind: Kind, ratingKey: int, guid: string)
      modifies this
      ensures Snap() == old(Snap()).WithKey(kind, ratingKey, guid)
    {
      match kind
      case MovieKind => movieKeys := movieKeys[ratingKey := guid];
      case ShowKind => showKeys := showKeys[ratingKey := guid];
      case EpisodeKind => episodeKeys := episodeKeys[ratingKey := guid];
    }

    /** Converts a guid, falls back to the raw guid on "", and stores the result in the memo. */
    method ResolveAndStore(kind: Kind, ratingKey: int, rawGuid: string) returns (guid: string)
      modifies this
      ensures Out(guid, Snap()) == Resolve(svc, old(Snap()), kind, ratingKey, rawGuid)
    {
      guid := ConvertToPlexGuid(rawGuid, kind);
      if guid == "" {
        guid := rawGuid;
      }
      Store(kind, ratingKey, guid);
    }

    /** `_get_guid(item_type, item)`. */
    method GetGuid(kind: Kind, ratingKey: int, rawGuid: string) returns (guid: string)
      modifies this
      ensures Out(guid, Snap()) == Resolver.GetGuid(svc, old(Snap()), kind, ratingKey, rawGuid)
    {
      var keys := Snap().KeyMap(kind);
      if ratingKey in keys {
        return keys[ratingKey];
      }
      guid := ResolveAndStore(kind, ratingKey, rawGuid);
    }

    /** One listing of `_cache_rating_key_guid_mappings`: every item resolved and stored, in order. */
    method CacheItems(kind: Kind, items: seq<Listed>)
      modifies this
      ensures Snap() == CacheListing(svc, old(Snap()), kind, items)
    {
      var i := 0;
      while i < |items|
        invariant 0 <= i <= |items|
        invariant Snap() == CacheListing(svc, old(Snap()), kind, items[..i])
      {
        ghost var prev := Snap();
        var _ := ResolveAndStore(kind, items[i].ratingKey, items[i].guid);
        CacheListingStep(svc, old(Snap()), kind, items, i, prev, Snap());
        i := i + 1;
      }
      assert items[..i] == items;
    }

    /** One section of `_cache_rating_key_guid_mappings`. */
    method CacheLibrary(section: Library)
      modifies this
      ensures Snap() == CacheSection(svc, old(Snap()), section)
    {
      match section {
        case MovieLibrary(movies) =>
          CacheItems(MovieKind, movies);
        case ShowLibrary(shows, episodes) =>
          CacheItems(ShowKind, shows);
          CacheItems(EpisodeKind, episodes);
        case OtherLibrary =>
      }
    }

    /** `_cache_rating_key_guid_mappings`: the memos filled eagerly from every library section. */
    method CacheRatingKeyGuidMappings(sections: seq<Library>)
      modifies this
      ensures Snap() == CacheSections(svc, old(Snap()), sections)
    {
      var i := 0;
      while i < |sections|
        invariant 0 <= i <= |sections|
        invariant Snap() == CacheSections(svc, old(Snap()), sections[..i])
      {
        ghost var prev := Snap();
        CacheLibrary(sections[i]);
        CacheSectionsStep(svc, old(Snap()), sections, i, prev, Snap());
        i := i + 1;
      }
      assert sections[..i] == sections;
    }

    /** The per-episode loop of a show's pass: each episode's guid resolved, then merged. */
    method MergeEpisodePass(m: map<string, ItemRecord>, items: seq<Video>) returns (r: map<string, ItemRecord>)
      modifies this
      ensures (r, Snap()) == EpisodePass(GuidFor(svc), old(Snap()), m, items)
    {
      ghost var c0 := Snap();
      r := m;
      var i := 0;
      while i < |items|
        invariant 0 <= i <= |items|
        invariant Snap() == ResolveAll(GuidFor(svc), c0, EpisodeKind, items[..i]).cache
        invariant r == MergeEpisodes(m, ResolveAll(GuidFor(svc), c0, EpisodeKind, items[..i]).value, items[..i])
      {
        ghost var o := ResolveAll(GuidFor(svc), c0, EpisodeKind, items[..i]);
        ResolveAllStep(GuidFor(svc), c0, EpisodeKind, items, i);
        var episode := items[i];
        var guid := GetGuid(EpisodeKind, episode.ratingKey, episode.guid);
        MergeEpisodesStep(m, o.value, guid, items, i);
        if IsPlex(guid) && IntField(episode.duration) > 0 {
          r := r[guid := RecordOf(guid, episode)];
        }
        i := i + 1;
      }
      assert items[..i] == items;
    }

    /** One show of `_get_show_section_watched_history`. */
    method ShowWatchedHistory(h: map<string, ShowRecord>, s: ShowItem) returns (r: map<string, ShowRecord>)
      modifies this
      ensures (r, Snap()) == ShowStep(GuidFor(svc), old(Snap()), h, s)
    {
      var guid := GetGuid(ShowKind, s.ratingKey, s.guid);
      if !IsPlex(guid) {
        return h;
      }
      var existing := if guid in h then h[guid] else DefaultShow;
      if !s.isWatched && existing.watched {
        return h;
      }
      var rec := ShowFields(existing, guid, s);
      var episodes := MergeEpisodePass(rec.episodes, WithViews(s.episodes));
      if !s.isWatched {
        episodes := MergeEpisodePass(episodes, WithOffset(s.episodes));
      }
      r := h[guid := rec.(episodes := episodes)];
    }

    /** `_get_show_section_watched_history(section, show_history)`. */
    method GetShowSectionWatchedHistory(h: map<string, ShowRecord>, shows: seq<ShowItem>) returns (r: map<string, ShowRecord>)
      modifies this
      ensures (r, Snap()) == ShowsHistory(GuidFor(svc), old(Snap()), h, shows)
    {
      ghost var c0 := Snap();
      r := h;
      var i := 0;
      while i < |shows|
        invariant 0 <= i <= |shows|
        invariant (r, Snap()) == ShowsHistory(GuidFor(svc), c0, h, shows[..i])
      {
        ShowsHistoryStep(GuidFor(svc), c0, h, shows, i);
        r := ShowWatchedHistory(r, shows[i]);
        i := i + 1;
      }
      assert shows[..i] == shows;
    }

    /** `_get_movie_section_watched_history(section, movie_history)`. */
    method GetMovieSectionWatchedHistory(h: map<string, ItemRecord>, movies: seq<Video>) returns (r: map<string, ItemRecord>)
      modifies this
      ensures (r, Snap()) == MovieSectionHistory(GuidFor(svc), old(Snap()), h, movies)
    {
      ghost var c0 := Snap();
      r := h;
      var i := 0;
      while i < |movies|
        invariant 0 <= i <= |movies|
        invariant Snap() == ResolveAll(GuidFor(svc), c0, MovieKind, movies[..i]).cache
        invariant r == MergeMovies(h, ResolveAll(GuidFor(svc), c0, MovieKind, movies[..i]).value, movies[..i])
      {
        ghost var o := ResolveAll(GuidFor(svc), c0, MovieKind, movies[..i]);
        ResolveAllStep(GuidFor(svc), c0, MovieKind, movies, i);
        var movie := movies[i];
        var guid := GetGuid(MovieKind, movie.ratingKey, movie.guid);
        MergeMoviesStep(h, o.value, guid, movies, i);
        ghost var before := r;
        if IsPlex(guid) && IntField(movie.duration) > 0 {
          if movie.isWatched {
            r := r[guid := RecordOf(guid, movie)];
          } else if !(guid in r && r[guid].watched) {
            r := r[guid := RecordOf(guid, movie)];
          }
        }
        assert r == MergeMovie(before, guid, movie);
        i := i + 1;
      }
      assert movies[..i] == movies;
    }

    /** `_get_user_server_watched_history(server)`: every section in order; sections of other types are skipped. */
    method GetUserServerWatchedHistory(sections: seq<Section>) returns (uh: UserHistory)
      modifies this
      ensures (uh, Snap()) == SectionsHistory(GuidFor(svc), old(Snap()), sections)
    {
      ghost var c0 := Snap();
      uh := UserHistory(map[], map[]);
      var i := 0;
      while i < |sections|
        invariant 0 <= i <= |sections|
        invariant (uh, Snap()) == SectionsHistory(GuidFor(svc), c0, sections[..i])
      {
        SectionsHistoryStep(GuidFor(svc), c0, sections, i);
        match sections[i] {
          case MovieSection(movies) =>
            var movie := GetMovieSectionWatchedHistory(uh.movie, movies);
            uh := uh.(movie := movie);
          case ShowSection(shows) =>
            var show := GetShowSectionWatchedHistory(uh.show, shows);
            uh := uh.(show := show);
          case OtherSection(_) =>
        }
        i := i + 1;
      }
      assert sections[..i] == sections;
    }
  }
}
