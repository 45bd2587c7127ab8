/**
 * Identity resolution on export: turning an agent guid (themoviedb or thetvdb) into the
 * `plex://` guid of the metadata service, with the show cache, each show's `Seasons`
 * sub-cache and the per-type rating-key memo. The metadata service is a set of total
 * functions from request argument to reply; every request sent is logged so that
 * "no fetch" can be stated.
 */
module Resolver {
  import opened Wrappers
  import opened Text
  import opened Url

  const MovieAgent := "com.plexapp.agents.themoviedb"
  const ShowAgent := "com.plexapp.agents.thetvdb"

  /** One hit of the matches endpoint: its `guid` (a key that may be missing) and `ratingKey`. */
  datatype Match = Match(guid: Option<string>, ratingKey: string)

  /** A child of a show (a season) or of a season (an episode), with its display `index`. */
  datatype SeasonStub = SeasonStub(index: int, ratingKey: string)
  datatype EpisodeStub = EpisodeStub(index: int, guid: string)

  /** The detail record of a show, and of a season, as far as resolution reads them. */
  datatype ShowMeta = ShowMeta(guid: Option<string>, seasons: seq<SeasonStub>)
  datatype SeasonMeta = SeasonMeta(episodes: seq<EpisodeStub>)

  /** An HTTP reply: a status other than 200, or the decoded body of a 200. */
  datatype Response<T> = NotOk | Ok200(body: T)

  /** The metadata service: movie matches by tmdb id, show matches by tvdb id, details by rating key. */
  datatype Services = Services(
    movieMatches: string -> Response<seq<Match>>,
    showMatches: string -> Response<seq<Match>>,
    showDetails: string -> Response<ShowMeta>,
    seasonDetails: string -> Response<SeasonMeta>)

  datatype Request =
    | MovieMatchQuery(tmdbId: string)
    | ShowMatchQuery(tvdbId: string)
    | ShowDetailsQuery(showKey: string)
    | SeasonDetailsQuery(seasonKey: string)

  /** An entry of a show's `Seasons` sub-cache: `{}` or the season's metadata. */
  datatype SeasonEntry = NoSeason | Season(meta: SeasonMeta)

  /** An entry of the show metadata cache: `{}` (nothing matched) or the show with its `Seasons`. */
  datatype ShowEntry = NoShow | Show(meta: ShowMeta, seasons: map<string, SeasonEntry>)

  /** The item type a guid is resolved for. */
  datatype Kind = MovieKind | ShowKind | EpisodeKind

  /** The exporter's caches, and every request sent to the metadata service so far. */
  datatype Cache = Cache(
    shows: map<string, ShowEntry>,
    movieKeys: map<int, string>,
    showKeys: map<int, string>,
    episodeKeys: map<int, string>,
    sent: seq<Request>)
  {
    /** The rating key → guid memo of one item type. */
    function KeyMap(kind: Kind): map<int, string> {
      match kind
      case MovieKind => movieKeys
      case ShowKind => showKeys
      case EpisodeKind => episodeKeys
    }

    function WithKey(kind: Kind, ratingKey: int, guid: string): (c: Cache)
      ensures c.KeyMap(kind) == KeyMap(kind)[ratingKey := guid]
      ensures forall other :: other != kind ==> c.KeyMap(other) == KeyMap(other)
      ensures c.shows == shows && c.sent == sent
    {
      match kind
      case MovieKind => this.(movieKeys := movieKeys[ratingKey := guid])
      case ShowKind => this.(showKeys := showKeys[ratingKey := guid])
      case EpisodeKind => this.(episodeKeys := episodeKeys[ratingKey := guid])
    }

    function Send(r: Request): Cache {
      this.(sent := sent + [r])
    }
  }

  /** A value computed together with the cache it leaves behind. */
  datatype Out<T> = Out(value: T, cache: Cache)

  /** The three rating-key memos are the same in both caches. */
  predicate SameKeys(a: Cache, b: Cache) {
    a.movieKeys == b.movieKeys && a.showKeys == b.showKeys && a.episodeKeys == b.episodeKeys
  }

  /** The requests of `a` are a prefix of those of `b`: requests are only ever appended. */
  predicate Extends(a: Cache, b: Cache) {
    |a.sent| <= |b.sent| && b.sent[..|a.sent|] == a.sent
  }

  lemma ExtendsTrans(a: Cache, b: Cache, c: Cache)
    requires Extends(a, b) && Extends(b, c)
    ensures Extends(a, c)
  {
    assert c.sent[..|a.sent|] == c.sent[..|b.sent|][..|a.sent|];
  }

  /**
   * `_get_movie_guid(tmdb_id)`: the `guid` of the first match, "" on a non-200 reply, no
   * match or a match without guid. Movies are not cached.
   */
  function MovieGuid(svc: Services, c: Cache, tmdbId: string): (r: Out<string>)
    ensures r.cache == c.Send(MovieMatchQuery(tmdbId))
    ensures r.value != "" <==>
      svc.movieMatches(tmdbId).Ok200? && |svc.movieMatches(tmdbId).body| > 0
      && svc.movieMatches(tmdbId).body[0].guid.Some? && svc.movieMatches(tmdbId).body[0].guid.value != ""
    ensures r.value != "" ==> r.value == svc.movieMatches(tmdbId).body[0].guid.value
  {
    var c1 := c.Send(MovieMatchQuery(tmdbId));
    match svc.movieMatches(tmdbId)
    case NotOk => Out("", c1)
    case Ok200(ms) => Out(if |ms| > 0 then ms[0].guid.GetOr("") else "", c1)
  }

  /** The rating key of the first show match (`show_key`), "" when the reply is not 200 or nothing matched. */
  function MatchKey(svc: Services, tvdbId: string): string {
    match svc.showMatches(tvdbId)
    case NotOk => ""
    case Ok200(ms) => if |ms| > 0 then ms[0].ratingKey else ""
  }

  /** The show fetch meets a non-200 reply: on the matches query, or on the details of the matched show. */
  predicate ShowFetchFails(svc: Services, tvdbId: string) {
    match svc.showMatches(tvdbId)
    case NotOk => true
    case Ok200(ms) => |ms| > 0 && ms[0].ratingKey != "" && svc.showDetails(ms[0].ratingKey).NotOk?
  }

  /**
   * `_fetch_show_metadata(tvdb_id)`: a cached entry is returned as it is; otherwise the
   * matches and then the details of the first match are fetched, and the result is cached
   * even when nothing matched, but not when a reply was not 200.
   */
  function FetchShow(svc: Services, c: Cache, tvdbId: string): (r: Out<ShowEntry>)
    ensures tvdbId in c.shows ==> r == Out(c.shows[tvdbId], c)
    ensures tvdbId !in c.shows ==> |r.cache.sent| > |c.sent| && r.cache.sent[|c.sent|] == ShowMatchQuery(tvdbId)
    ensures tvdbId !in c.shows ==> (tvdbId in r.cache.shows <==> !ShowFetchFails(svc, tvdbId))
    ensures r.cache.shows == c.shows || r.cache.shows == c.shows[tvdbId := r.value]
    ensures tvdbId in r.cache.shows ==> r.cache.shows[tvdbId] == r.value
    ensures tvdbId !in r.cache.shows ==> r.value == NoShow
    ensures tvdbId !in c.shows && r.value.Show? ==> r.value.seasons == map[]
    ensures SameKeys(c, r.cache) && Extends(c, r.cache)
  {
    if tvdbId in c.shows then Out(c.shows[tvdbId], c)
    else
      var c1 := c.Send(ShowMatchQuery(tvdbId));
      match svc.showMatches(tvdbId)
      case NotOk => Out(NoShow, c1)
      case Ok200(ms) =>
        var showKey := if |ms| > 0 then ms[0].ratingKey else "";
        if showKey == "" then Out(NoShow, c1.(shows := c1.shows[tvdbId := NoShow]))
        else
          var c2 := c1.Send(ShowDetailsQuery(showKey));
          match svc.showDetails(showKey)
          case NotOk => Out(NoShow, c2)
          case Ok200(meta) =>
            var entry := Show(meta, map[]);
            Out(entry, c2.(shows := c2.shows[tvdbId := entry]))
  }

  /**
   * An uncached show is fetched with the matches query, then the details of the first
   * match; a reply with no match, or a first match without a rating key, caches `{}`, and
   * a details reply caches the show with empty `Seasons`.
   */
  lemma FetchShowReplies(svc: Services, c: Cache, tvdbId: string)
    requires tvdbId !in c.shows
    ensures var r := FetchShow(svc, c, tvdbId); var key := MatchKey(svc, tvdbId);
      && r.cache.sent == c.sent + [ShowMatchQuery(tvdbId)] + (if key != "" then [ShowDetailsQuery(key)] else [])
      && (svc.showMatches(tvdbId).Ok200? && key == "" ==> r.value == NoShow && r.cache.shows == c.shows[tvdbId := NoShow])
      && (key != "" && svc.showDetails(key).Ok200? ==>
            r.value == Show(svc.showDetails(key).body, map[]) && r.cache.shows == c.shows[tvdbId := r.value])
  {
  }

  /** A successful show fetch is never repeated: the second lookup sends nothing. */
  lemma FetchShowSettles(svc: Services, c: Cache, tvdbId: string)
    requires tvdbId !in c.shows && !ShowFetchFails(svc, tvdbId)
    ensures var o := FetchShow(svc, c, tvdbId); FetchShow(svc, o.cache, tvdbId) == o
  {
  }

  /** `_get_show_guid(tvdb_id)`: the `guid` of the fetched show, or "". */
  function ShowGuid(svc: Services, c: Cache, tvdbId: string): (r: Out<string>)
    ensures r.cache == FetchShow(svc, c, tvdbId).cache
    ensures r.value != "" ==> FetchShow(svc, c, tvdbId).value.Show? && FetchShow(svc, c, tvdbId).value.meta.guid == Some(r.value)
    ensures FetchShow(svc, c, tvdbId).value.Show? ==> r.value == FetchShow(svc, c, tvdbId).value.meta.guid.GetOr("")
    ensures FetchShow(svc, c, tvdbId).value.NoShow? ==> r.value == ""
  {
    var o := FetchShow(svc, c, tvdbId);
    Out(if o.value.Show? then o.value.meta.guid.GetOr("") else "", o.cache)
  }

  /** The position of the first season whose `str(index)` is `seasonId`, or -1. */
  function FirstSeason(seasons: seq<SeasonStub>, seasonId: string): (j: int)
    ensures -1 <= j < |seasons|
    ensures 0 <= j ==> IntToString(seasons[j].index) == seasonId
    ensures forall k :: 0 <= k < |seasons| && (j < 0 || k < j) ==> IntToString(seasons[k].index) != seasonId
    decreases |seasons|
  {
    if |seasons| == 0 then -1
    else if IntToString(seasons[0].index) == seasonId then 0
    else
      var j := FirstSeason(seasons[1..], seasonId);
      if j < 0 then -1 else j + 1
  }

  /** The position of the first episode whose `str(index)` is `episodeId`, or -1. */
  function FirstEpisode(episodes: seq<EpisodeStub>, episodeId: string): (j: int)
    ensures -1 <= j < |episodes|
    ensures 0 <= j ==> IntToString(episodes[j].index) == episodeId
    ensures forall k :: 0 <= k < |episodes| && (j < 0 || k < j) ==> IntToString(episodes[k].index) != episodeId
    decreases |episodes|
  {
    if |episodes| == 0 then -1
    else if IntToString(episodes[0].index) == episodeId then 0
    else
      var j := FirstEpisode(episodes[1..], episodeId);
      if j < 0 then -1 else j + 1
  }

  /** A scan that passed `i` non-matching seasons and stops at a match, or at the end, finds `FirstSeason`. */
  lemma {:induction false} FirstSeasonAt(seasons: seq<SeasonStub>, seasonId: string, i: int)
    requires 0 <= i <= |seasons|
    requires forall k :: 0 <= k < i ==> IntToString(seasons[k].index) != seasonId
    requires i < |seasons| ==> IntToString(seasons[i].index) == seasonId
    ensures FirstSeason(seasons, seasonId) == if i < |seasons| then i else -1
    decreases i
  {
    if i > 0 {
      assert IntToString(seasons[0].index) != seasonId;
      FirstSeasonAt(seasons[1..], seasonId, i - 1);
    }
  }

  /** A scan that passed `i` non-matching episodes and stops at a match, or at the end, finds `FirstEpisode`. */
  lemma {:induction false} FirstEpisodeAt(episodes: seq<EpisodeStub>, episodeId: string, i: int)
    requires 0 <= i <= |episodes|
    requires forall k :: 0 <= k < i ==> IntToString(episodes[k].index) != episodeId
    requires i < |episodes| ==> IntToString(episodes[i].index) == episodeId
    ensures FirstEpisode(episodes, episodeId) == if i < |episodes| then i else -1
    decreases i
  {
    if i > 0 {
      assert IntToString(episodes[0].index) != episodeId;
      FirstEpisodeAt(episodes[1..], episodeId, i - 1);
    }
  }

  /** The rating key of the first season with that display index, "" when none has it. */
  function SeasonKey(seasons: seq<SeasonStub>, seasonId: string): string {
    var j := FirstSeason(seasons, seasonId);
    if j < 0 then "" else seasons[j].ratingKey
  }

  /** The guid of the first episode of a season entry with that display index; "" for `{}` or no match. */
  function EpisodeIn(entry: SeasonEntry, episodeId: string): (guid: string)
    ensures entry.NoSeason? ==> guid == ""
    ensures entry.Season? && FirstEpisode(entry.meta.episodes, episodeId) < 0 ==> guid == ""
    ensures entry.Season? && FirstEpisode(entry.meta.episodes, episodeId) >= 0 ==>
      guid == entry.meta.episodes[FirstEpisode(entry.meta.episodes, episodeId)].guid
  {
    if entry.NoSeason? then ""
    else
      var j := FirstEpisode(entry.meta.episodes, episodeId);
      if j < 0 then "" else entry.meta.episodes[j].guid
  }

  /** Writes a season entry into the `Seasons` of a cached show. */
  function StoreSeason(c: Cache, tvdbId: string, seasonId: string, entry: SeasonEntry): (r: Cache)
    requires tvdbId in c.shows && c.shows[tvdbId].Show?
    ensures tvdbId in r.shows && r.shows[tvdbId].Show? && r.shows[tvdbId].meta == c.shows[tvdbId].meta
    ensures r.shows[tvdbId].seasons == c.shows[tvdbId].seasons[seasonId := entry]
    ensures forall t :: t != tvdbId ==> (t in r.shows <==> t in c.shows) && (t in c.shows ==> r.shows[t] == c.shows[t])
    ensures SameKeys(c, r) && r.sent == c.sent
  {
    var show := c.shows[tvdbId];
    c.(shows := c.shows[tvdbId := show.(seasons := show.seasons[seasonId := entry])])
  }

  /** The cache already answers this (show, season) pair: the show is `{}`, or the season is in its `Seasons`. */
  predicate Settled(c: Cache, tvdbId: string, seasonId: string) {
    tvdbId in c.shows && (c.shows[tvdbId].NoShow? || seasonId in c.shows[tvdbId].seasons)
  }

  /** The episode guid a settled cache gives for (show, season, episode). */
  function CachedEpisodeGuid(c: Cache, tvdbId: string, seasonId: string, episodeId: string): string
    requires Settled(c, tvdbId, seasonId)
  {
    if c.shows[tvdbId].NoShow? then "" else EpisodeIn(c.shows[tvdbId].seasons[seasonId], episodeId)
  }

  /**
   * `_get_episode_guid(tvdb_id, season_id, episode_id)`: the show is fetched (or taken from
   * the cache); the season is taken from its `Seasons`, or looked up by display index and
   * fetched, and then stored even when empty; the result is the guid of the first episode
   * with that display index. A non-200 reply yields "" and stores nothing.
   */
  function EpisodeGuid(svc: Services, c: Cache, tvdbId: string, seasonId: string, episodeId: string): (r: Out<string>)
    ensures Settled(c, tvdbId, seasonId) ==> r == Out(CachedEpisodeGuid(c, tvdbId, seasonId, episodeId), c)
    ensures Settled(r.cache, tvdbId, seasonId) ==> r.value == CachedEpisodeGuid(r.cache, tvdbId, seasonId, episodeId)
    ensures !Settled(r.cache, tvdbId, seasonId) ==> r.value == ""
    ensures SameKeys(c, r.cache) && Extends(c, r.cache)
    ensures forall t :: t in c.shows ==> t in r.cache.shows
  {
    var o := FetchShow(svc, c, tvdbId);
    if o.value.NoShow? then Out("", o.cache)
    else
      var show := o.value;
      if seasonId in show.seasons then Out(EpisodeIn(show.seasons[seasonId], episodeId), o.cache)
      else
        var seasonKey := SeasonKey(show.meta.seasons, seasonId);
        if seasonKey == "" then Out("", StoreSeason(o.cache, tvdbId, seasonId, NoSeason))
        else
          var c1 := o.cache.Send(SeasonDetailsQuery(seasonKey));
          match svc.seasonDetails(seasonKey)
          case NotOk => Out("", c1)
          case Ok200(meta) =>
            Out(EpisodeIn(Season(meta), episodeId), StoreSeason(c1, tvdbId, seasonId, Season(meta)))
  }

  /**
   * A season not yet in the show's `Seasons` is looked up by display index: with no such
   * season `{}` is stored and nothing is sent; otherwise its details are requested, and a
   * 200 reply is stored and searched, while a non-200 reply stores nothing and gives "".
   */
  lemma EpisodeGuidFetchesSeason(svc: Services, c: Cache, tvdbId: string, seasonId: string, episodeId: string)
    requires FetchShow(svc, c, tvdbId).value.Show? && seasonId !in FetchShow(svc, c, tvdbId).value.seasons
    ensures var o := FetchShow(svc, c, tvdbId); var show := o.value; var key := SeasonKey(show.meta.seasons, seasonId);
      var r := EpisodeGuid(svc, c, tvdbId, seasonId, episodeId);
      && (key == "" ==>
            r.value == "" && r.cache.sent == o.cache.sent
            && tvdbId in r.cache.shows && r.cache.shows[tvdbId] == show.(seasons := show.seasons[seasonId := NoSeason]))
      && (key != "" ==> r.cache.sent == o.cache.sent + [SeasonDetailsQuery(key)])
      && (key != "" && svc.seasonDetails(key).NotOk? ==> r.value == "" && r.cache.shows == o.cache.shows)
      && (key != "" && svc.seasonDetails(key).Ok200? ==>
            r.value == EpisodeIn(Season(svc.seasonDetails(key).body), episodeId)
            && tvdbId in r.cache.shows
            && r.cache.shows[tvdbId] == show.(seasons := show.seasons[seasonId := Season(svc.seasonDetails(key).body)]))
  {
  }

  /**
   * Once a (show, season) lookup has been stored, asking again for that pair, with any
   * episode id, sends no request and leaves the cache as it is.
   */
  lemma EpisodeGuidRepeat(svc: Services, c: Cache, tvdbId: string, seasonId: string, first: string, second: string)
    requires Settled(EpisodeGuid(svc, c, tvdbId, seasonId, first).cache, tvdbId, seasonId)
    ensures var c1 := EpisodeGuid(svc, c, tvdbId, seasonId, first).cache;
      EpisodeGuid(svc, c1, tvdbId, seasonId, second) == Out(CachedEpisodeGuid(c1, tvdbId, seasonId, second), c1)
  {
  }

  /** An id written with a leading zero, such as "01", is never `str` of an index, so it matches nothing. */
  lemma {:induction false} ZeroPaddedIdMatchesNothing(episodes: seq<EpisodeStub>, digits: string)
    requires |digits| > 0
    ensures FirstEpisode(episodes, "0" + digits) == -1
    decreases |episodes|
  {
    if |episodes| > 0 {
      var i := episodes[0].index;
      if i >= 0 {
        NoLeadingZero(i);
        if i == 0 {
          assert IntToString(i) == "0";
        }
      }
      assert IntToString(i) != "0" + digits;
      ZeroPaddedIdMatchesNothing(episodes[1..], digits);
    }
  }

  /** What `_convert_to_plex_guid` does with a guid, decided from the guid and the item type alone. */
  datatype Conversion =
    | MovieLookup(tmdbId: string)
    | ShowLookup(tvdbId: string)
    | EpisodeLookup(showId: string, seasonId: string, episodeId: string)
    | Unresolvable
    | PassThrough

  /**
   * The dispatch of `_convert_to_plex_guid`: a themoviedb guid is a movie lookup on its netloc;
   * a thetvdb guid is a show lookup for a show and, for an episode, a lookup of the
   * `/season/episode` path, which must split on '/' into exactly three parts; anything else
   * passes through.
   */
  function Classify(guid: string, kind: Kind): (r: Conversion)
    ensures r.MovieLookup? <==> SchemeOf(guid) == MovieAgent
    ensures r.MovieLookup? ==> r.tmdbId == Parse(guid).netloc
    ensures r.ShowLookup? <==> SchemeOf(guid) == ShowAgent && kind == ShowKind
    ensures r.ShowLookup? ==> r.tvdbId == Parse(guid).netloc
    ensures r.Unresolvable? <==> SchemeOf(guid) == ShowAgent && kind == EpisodeKind && |Split(Parse(guid).path, '/')| != 3
    ensures r.EpisodeLookup? ==>
      (SchemeOf(guid) == ShowAgent && kind == EpisodeKind && r.showId == Parse(guid).netloc
       && Split(Parse(guid).path, '/') == [Split(Parse(guid).path, '/')[0], r.seasonId, r.episodeId])
    ensures r.PassThrough? <==> SchemeOf(guid) != MovieAgent && (SchemeOf(guid) != ShowAgent || kind == MovieKind)
  {
    var u := Parse(guid);
    if u.scheme == MovieAgent then MovieLookup(u.netloc)
    else if u.scheme == ShowAgent then
      match kind
      case ShowKind => ShowLookup(u.netloc)
      case EpisodeKind =>
        var parts := Split(u.path, '/');
        if |parts| != 3 then Unresolvable else EpisodeLookup(u.netloc, parts[1], parts[2])
      case MovieKind => PassThrough
    else PassThrough
  }

  lemma ShowAgentScheme()
    ensures |ShowAgent| > 0 && IsAsciiLetter(ShowAgent[0])
    ensures forall k :: 0 <= k < |ShowAgent| ==> IsSchemeChar(ShowAgent[k]) && !IsUpper(ShowAgent[k])
  {
  }

  /** Text free of the given characters stays free of them after a single other character is put in front. */
  lemma EpisodePathFree(seasonId: string, episodeId: string)
    requires forall k :: 0 <= k < |seasonId| ==> seasonId[k] !in {'/', '?', '#'}
    requires forall k :: 0 <= k < |episodeId| ==> episodeId[k] !in {'/', '?', '#'}
    ensures var path := "/" + seasonId + "/" + episodeId;
      forall k :: 0 <= k < |path| ==> path[k] !in {'?', '#'}
  {
    var path := "/" + seasonId + "/" + episodeId;
    forall k | 0 <= k < |path| ensures path[k] !in {'?', '#'} {
      if 1 <= k < 1 + |seasonId| {
        assert path[k] == seasonId[k - 1];
      } else if k > 1 + |seasonId| {
        assert path[k] == episodeId[k - 2 - |seasonId|];
      }
    }
  }

  /** The path `/season/episode` splits on '/' into "", the season id and the episode id. */
  lemma EpisodePathSplit(seasonId: string, episodeId: string)
    requires '/' !in seasonId && '/' !in episodeId
    ensures Split("/" + seasonId + "/" + episodeId, '/') == ["", seasonId, episodeId]
  {
    var parts := ["", seasonId, episodeId];
    assert parts[1..] == [seasonId, episodeId];
    assert parts[1..][1..] == [episodeId];
    assert Join(parts[1..], '/') == seasonId + "/" + episodeId;
    assert Join(parts, '/') == "" + "/" + (seasonId + "/" + episodeId);
    assert "/" + seasonId + "/" + episodeId == "" + "/" + (seasonId + "/" + episodeId);
    SplitJoin(parts, '/');
  }

  lemma ClassifyParsedEpisode(guid: string, showId: string, seasonId: string, episodeId: string)
    requires Parse(guid) == Url(ShowAgent, showId, "/" + seasonId + "/" + episodeId)
    requires Split("/" + seasonId + "/" + episodeId, '/') == ["", seasonId, episodeId]
    ensures Classify(guid, EpisodeKind) == EpisodeLookup(showId, seasonId, episodeId)
  {
  }

  /**
   * An episode guid written the way the thetvdb agent writes it,
   * `com.plexapp.agents.thetvdb://<show>/<season>/<episode>?lang=en`, is an episode lookup
   * of exactly those three ids.
   */
  lemma ClassifyAgentEpisode(showId: string, seasonId: string, episodeId: string)
    requires forall k :: 0 <= k < |showId| ==> showId[k] !in {'/', '?', '#'}
    requires forall k :: 0 <= k < |seasonId| ==> seasonId[k] !in {'/', '?', '#'}
    requires forall k :: 0 <= k < |episodeId| ==> episodeId[k] !in {'/', '?', '#'}
    ensures Classify(ShowAgent + "://" + showId + ("/" + seasonId + "/" + episodeId) + "?lang=en", EpisodeKind)
      == EpisodeLookup(showId, seasonId, episodeId)
  {
    var path := "/" + seasonId + "/" + episodeId;
    EpisodePathFree(seasonId, episodeId);
    ShowAgentScheme();
    ParseComposed(ShowAgent, showId, path, "?lang=en");
    assert '/' !in seasonId by {
      assert forall k :: 0 <= k < |seasonId| ==> seasonId[k] != '/';
    }
    assert '/' !in episodeId by {
      assert forall k :: 0 <= k < |episodeId| ==> episodeId[k] != '/';
    }
    EpisodePathSplit(seasonId, episodeId);
    ClassifyParsedEpisode(ShowAgent + "://" + showId + path + "?lang=en", showId, seasonId, episodeId);
  }

  /** A thetvdb episode path with other than two '/' (such as "/9", or a missing season) is not resolvable. */
  lemma ClassifyWrongDepth(guid: string)
    requires SchemeOf(guid) == ShowAgent && Count(Parse(guid).path, '/') != 2
    ensures Classify(guid, EpisodeKind) == Unresolvable
  {
    SplitLength(Parse(guid).path, '/');
  }

  /**
   * `_convert_to_plex_guid(guid, item_type)`: the lookup `Classify` chose, "" for an
   * unresolvable episode path (with no request), and the guid itself otherwise.
   */
  function Convert(svc: Services, c: Cache, guid: string, kind: Kind): (r: Out<string>)
    ensures Classify(guid, kind).PassThrough? ==> r == Out(guid, c)
    ensures Classify(guid, kind).Unresolvable? ==> r == Out("", c)
    ensures Classify(guid, kind).MovieLookup? ==> r == MovieGuid(svc, c, Classify(guid, kind).tmdbId)
    ensures Classify(guid, kind).ShowLookup? ==> r == ShowGuid(svc, c, Classify(guid, kind).tvdbId)
    ensures Classify(guid, kind).EpisodeLookup? ==>
      var e := Classify(guid, kind); r == EpisodeGuid(svc, c, e.showId, e.seasonId, e.episodeId)
    ensures SameKeys(c, r.cache) && Extends(c, r.cache)
  {
    match Classify(guid, kind)
    case MovieLookup(tmdbId) => MovieGuid(svc, c, tmdbId)
    case ShowLookup(tvdbId) => ShowGuid(svc, c, tvdbId)
    case EpisodeLookup(showId, seasonId, episodeId) => EpisodeGuid(svc, c, showId, seasonId, episodeId)
    case Unresolvable => Out("", c)
    case PassThrough => Out(guid, c)
  }

  /**
   * Converts a guid, falls back to the item's own guid when the conversion gives "", and
   * stores the result under the item's rating key: the common tail of `_get_guid` and the
   * body of the loops of `_cache_rating_key_guid_mappings`.
   */
  function Resolve(svc: Services, c: Cache, kind: Kind, ratingKey: int, rawGuid: string): (r: Out<string>)
    ensures r.value == "" ==> rawGuid == ""
    ensures r.cache.KeyMap(kind) == c.KeyMap(kind)[ratingKey := r.value]
    ensures forall other :: other != kind ==> r.cache.KeyMap(other) == c.KeyMap(other)
    ensures Extends(c, r.cache)
  {
    var o := Convert(svc, c, rawGuid, kind);
    var guid := if o.value == "" then rawGuid else o.value;
    Out(guid, o.cache.WithKey(kind, ratingKey, guid))
  }

  /**
   * The guid stored and returned is the converted one, or the item's own guid when the
   * conversion gave ""; the show cache and the requests are those the conversion left.
   */
  lemma ResolveFallback(svc: Services, c: Cache, kind: Kind, ratingKey: int, rawGuid: string)
    ensures var o := Convert(svc, c, rawGuid, kind); var r := Resolve(svc, c, kind, ratingKey, rawGuid);
      && (o.value != "" ==> r.value == o.value)
      && (o.value == "" ==> r.value == rawGuid)
      && r.cache.shows == o.cache.shows && r.cache.sent == o.cache.sent
  {
  }

  /**
   * `_get_guid(item_type, item)`: a rating key already in the memo of its type gives the
   * stored guid with no conversion and no request; otherwise the guid is resolved and stored.
   */
  function GetGuid(svc: Services, c: Cache, kind: Kind, ratingKey: int, rawGuid: string): (r: Out<string>)
    ensures ratingKey in c.KeyMap(kind) ==> r == Out(c.KeyMap(kind)[ratingKey], c)
    ensures ratingKey !in c.KeyMap(kind) ==> r == Resolve(svc, c, kind, ratingKey, rawGuid)
    ensures r.cache.KeyMap(kind) == c.KeyMap(kind)[ratingKey := r.value]
    ensures forall other :: other != kind ==> r.cache.KeyMap(other) == c.KeyMap(other)
    ensures Extends(c, r.cache)
  {
    var keys := c.KeyMap(kind);
    if ratingKey in keys then Out(keys[ratingKey], c) else Resolve(svc, c, kind, ratingKey, rawGuid)
  }

  /** Two lookups of the same rating key give the same guid, and the second one changes nothing. */
  lemma GetGuidRepeat(svc: Services, c: Cache, kind: Kind, ratingKey: int, rawGuid: string, again: string)
    ensures var o := GetGuid(svc, c, kind, ratingKey, rawGuid);
      GetGuid(svc, o.cache, kind, ratingKey, again) == o
  {
  }

  /** A listed library item: the attributes `_cache_rating_key_guid_mappings` reads. */
  datatype Listed = Listed(ratingKey: int, guid: string)

  /** A library section as the eager cache sees it: its movies, or its shows and then its episodes. */
  datatype Library =
    | MovieLibrary(movies: seq<Listed>)
    | ShowLibrary(shows: seq<Listed>, episodes: seq<Listed>)
    | OtherLibrary

  /** The rating keys of a listing. */
  function RatingKeys(items: seq<Listed>): (keys: set<int>)
    ensures forall x :: x in items ==> x.ratingKey in keys
    decreases |items|
  {
    if |items| == 0 then {}
    else
      var n := |items| - 1;
      assert forall x :: x in items ==> x in items[..n] || x == items[n];
      RatingKeys(items[..n]) + {items[n].ratingKey}
  }

  /** Resolves and stores every item of a listing, in order, without consulting the memo first. */
  function CacheListing(svc: Services, c: Cache, kind: Kind, items: seq<Listed>): (r: Cache)
    ensures forall other :: other != kind ==> r.KeyMap(other) == c.KeyMap(other)
    ensures r.KeyMap(kind).Keys == c.KeyMap(kind).Keys + RatingKeys(items)
    ensures Extends(c, r)
    decreases |items|
  {
    if |items| == 0 then c
    else
      var before := items[..|items| - 1];
      var last := items[|items| - 1];
      var prev := CacheListing(svc, c, kind, before);
      var r := Resolve(svc, prev, kind, last.ratingKey, last.guid).cache;
      ExtendsTrans(c, prev, r);
      r
  }

  /** The listing one item further is the listing so far with that item resolved and stored. */
  lemma CacheListingStep(svc: Services, c: Cache, kind: Kind, items: seq<Listed>, i: int, prev: Cache, next: Cache)
    requires 0 <= i < |items| && prev == CacheListing(svc, c, kind, items[..i])
    requires next == Resolve(svc, prev, kind, items[i].ratingKey, items[i].guid).cache
    ensures next == CacheListing(svc, c, kind, items[..i + 1])
  {
    assert items[..i + 1][..i] == items[..i];
  }

  /** Item `i` is the last one of the listing with its rating key. */
  predicate LastListing(items: seq<Listed>, i: int) {
    0 <= i < |items| && forall j :: i < j < |items| ==> items[j].ratingKey != items[i].ratingKey
  }

  /** A listing folded with any resolution step: each item resolved and stored, in order. */
  function ListingBy(step: (Cache, Listed) -> Out<string>, c: Cache, items: seq<Listed>): Cache
    decreases |items|
  {
    if |items| == 0 then c
    else
      var n := |items| - 1;
      step(ListingBy(step, c, items[..n]), items[n]).cache
  }

  /** The step stores its result under the item's rating key in the memo of `kind`, and changes no other entry. */
  ghost predicate StoresUnder(step: (Cache, Listed) -> Out<string>, kind: Kind) {
    forall c: Cache, x: Listed :: step(c, x).cache.KeyMap(kind) == c.KeyMap(kind)[x.ratingKey := step(c, x).value]
  }

  /** The step of the eager cache: `Resolve` of the item. */
  function StoreStep(svc: Services, kind: Kind): (Cache, Listed) -> Out<string> {
    (c: Cache, x: Listed) => Resolve(svc, c, kind, x.ratingKey, x.guid)
  }

  lemma StoreStepStores(svc: Services, kind: Kind)
    ensures StoresUnder(StoreStep(svc, kind), kind)
  {
  }

  lemma {:induction false} CacheListingIsListingBy(svc: Services, c: Cache, kind: Kind, items: seq<Listed>)
    ensures CacheListing(svc, c, kind, items) == ListingBy(StoreStep(svc, kind), c, items)
    decreases |items|
  {
    if |items| > 0 {
      CacheListingIsListingBy(svc, c, kind, items[..|items| - 1]);
    }
  }

  lemma {:induction false} ListingLastWins(step: (Cache, Listed) -> Out<string>, kind: Kind, c: Cache, items: seq<Listed>, i: int)
    requires StoresUnder(step, kind) && LastListing(items, i)
    ensures var r := ListingBy(step, c, items);
      items[i].ratingKey in r.KeyMap(kind) && r.KeyMap(kind)[items[i].ratingKey] == step(ListingBy(step, c, items[..i]), items[i]).value
    decreases |items|
  {
    var n := |items| - 1;
    if i < n {
      assert items[..n][..i] == items[..i];
      assert LastListing(items[..n], i);
      ListingLastWins(step, kind, c, items[..n], i);
    } else {
      assert items[..n] == items[..i];
    }
  }

  lemma {:induction false} ListingKeeps(step: (Cache, Listed) -> Out<string>, kind: Kind, c: Cache, items: seq<Listed>, k: int)
    requires StoresUnder(step, kind) && k in c.KeyMap(kind)
    requires forall j :: 0 <= j < |items| ==> items[j].ratingKey != k
    ensures var r := ListingBy(step, c, items); k in r.KeyMap(kind) && r.KeyMap(kind)[k] == c.KeyMap(kind)[k]
    decreases |items|
  {
    if |items| > 0 {
      var n := |items| - 1;
      ListingKeeps(step, kind, c, items[..n], k);
    }
  }

  /**
   * The memo keeps, for each listed rating key, the resolution of its last listing: the
   * converted guid, or the item's own guid when the conversion gave "". The conversion
   * sees the cache the earlier items left.
   */
  lemma CacheListingLastWins(svc: Services, c: Cache, kind: Kind, items: seq<Listed>, i: int)
    requires LastListing(items, i)
    ensures var o := Convert(svc, CacheListing(svc, c, kind, items[..i]), items[i].guid, kind);
      var r := CacheListing(svc, c, kind, items);
      items[i].ratingKey in r.KeyMap(kind)
      && r.KeyMap(kind)[items[i].ratingKey] == if o.value == "" then items[i].guid else o.value
  {
    StoreStepStores(svc, kind);
    CacheListingIsListingBy(svc, c, kind, items);
    CacheListingIsListingBy(svc, c, kind, items[..i]);
    ListingLastWins(StoreStep(svc, kind), kind, c, items, i);
    ResolveFallback(svc, CacheListing(svc, c, kind, items[..i]), kind, items[i].ratingKey, items[i].guid);
  }

  /** A stored rating key that the listing does not name keeps its guid. */
  lemma CacheListingKeeps(svc: Services, c: Cache, kind: Kind, items: seq<Listed>, k: int)
    requires k in c.KeyMap(kind) && forall j :: 0 <= j < |items| ==> items[j].ratingKey != k
    ensures CacheListing(svc, c, kind, items).KeyMap(kind)[k] == c.KeyMap(kind)[k]
  {
    StoreStepStores(svc, kind);
    CacheListingIsListingBy(svc, c, kind, items);
    ListingKeeps(StoreStep(svc, kind), kind, c, items, k);
  }

  /** `item` is listed in `section` under the memo of `kind`. */
  predicate ListedIn(section: Library, kind: Kind, item: Listed) {
    match section
    case MovieLibrary(movies) => kind == MovieKind && item in movies
    case ShowLibrary(shows, episodes) => (kind == ShowKind && item in shows) || (kind == EpisodeKind && item in episodes)
    case OtherLibrary => false
  }

  /**
   * One section of `_cache_rating_key_guid_mappings`: a movie section fills the movie memo;
   * a show section the show memo, then the episode memo. No stored key is lost, and every
   * listed item ends up in the memo of its type.
   */
  function CacheSection(svc: Services, c: Cache, section: Library): (r: Cache)
    ensures Extends(c, r)
    ensures forall kind, k :: k in c.KeyMap(kind) ==> k in r.KeyMap(kind)
    ensures forall kind, item :: ListedIn(section, kind, item) ==> item.ratingKey in r.KeyMap(kind)
  {
    match section
    case MovieLibrary(movies) => CacheListing(svc, c, MovieKind, movies)
    case ShowLibrary(shows, episodes) =>
      var c1 := CacheListing(svc, c, ShowKind, shows);
      var r := CacheListing(svc, c1, EpisodeKind, episodes);
      ExtendsTrans(c, c1, r);
      r
    case OtherLibrary => c
  }

  /** `_cache_rating_key_guid_mappings`: every library section in order. */
  function CacheSections(svc: Services, c: Cache, sections: seq<Library>): (r: Cache)
    ensures Extends(c, r)
    ensures forall kind, k :: k in c.KeyMap(kind) ==> k in r.KeyMap(kind)
    decreases |sections|
  {
    if |sections| == 0 then c
    else
      var n := |sections| - 1;
      var c1 := CacheSections(svc, c, sections[..n]);
      var r := CacheSection(svc, c1, sections[n]);
      ExtendsTrans(c, c1, r);
      r
  }

  lemma CacheSectionsStep(svc: Services, c: Cache, sections: seq<Library>, i: int, prev: Cache, next: Cache)
    requires 0 <= i < |sections| && prev == CacheSections(svc, c, sections[..i])
    requires next == CacheSection(svc, prev, sections[i])
    ensures next == CacheSections(svc, c, sections[..i + 1])
  {
    assert sections[..i + 1][..i] == sections[..i];
  }

  /** After eager caching, every item listed in any section is in the memo of its type. */
  lemma {:induction false} EagerCacheListed(svc: Services, c: Cache, sections: seq<Library>, s: int, kind: Kind, item: Listed)
    requires 0 <= s < |sections| && ListedIn(sections[s], kind, item)
    ensures item.ratingKey in CacheSections(svc, c, sections).KeyMap(kind)
    decreases |sections|
  {
    var n := |sections| - 1;
    if s < n {
      assert sections[..n][s] == sections[s];
      EagerCacheListed(svc, c, sections[..n], s, kind, item);
    }
  }

  /**
   * After eager caching, a later `_get_guid` of any listed item is a hit: it returns the
   * stored guid, does no conversion and sends no request.
   */
  lemma EagerCacheHits(svc: Services, c: Cache, sections: seq<Library>, s: int, kind: Kind, item: Listed, rawGuid: string)
    requires 0 <= s < |sections| && ListedIn(sections[s], kind, item)
    ensures var r := CacheSections(svc, c, sections);
      item.ratingKey in r.KeyMap(kind) && GetGuid(svc, r, kind, item.ratingKey, rawGuid) == Out(r.KeyMap(kind)[item.ratingKey], r)
  {
    EagerCacheListed(svc, c, sections, s, kind, item);
  }
}
