/**
 * The importers as they run: the three guid → rating keys memos and the calls issued so far
 * are fields of an `Importer`, and each method is proved to leave exactly the state that
 * the functions of `Apply` describe.
 */
module Import {
  import opened Wrappers
  import opened PyValues
  import opened Resolver
  import opened History
  import opened Apply

  class Importer {
    /** Whether this is the older script at the top of the repository (no duration check). */
    const legacy: bool
    /** `_MOVIE_`, `_SHOW_` and `_EPISODE_GUID_RATING_KEY_MAPPING`. */
    var movieKeys: map<string, seq<int>>
    var showKeys: map<string, seq<int>>
    var episodeKeys: map<string, seq<int>>
    /** Every guid searched for so far. */
    var searched: seq<string>
    /** Every call issued to a destination item so far. */
    var log: seq<Action>
    /** The exception that ended the import, if any. */
    var failure: Option<Failure>

    function State(): ImportState
      reads this
    {
      ImportState(movieKeys, showKeys, episodeKeys, searched, Progress(log, failure))
    }

    /** The module-level memos start empty when the script starts. */
    constructor(legacy: bool)
      ensures this.legacy == legacy && State() == Start
    {
      this.legacy := legacy;
      movieKeys, showKeys, episodeKeys := map[], map[], map[];
      searched, log, failure := [], [], None;
    }

    /** `_get_rating_keys(server, mapping, guid)`. */
    method GetRatingKeys(server: Server, kind: Kind, guid: string) returns (keys: seq<int>)
      modifies this
      ensures (keys, State()) == Apply.RatingKeys(old(State()), server, kind, guid)
    {
      var mapping := State().KeyMap(kind);
      if guid in mapping {
        return mapping[guid];
      }
      keys := Search(server, guid);
      searched := searched + [guid];
      match kind {
        case MovieKind => movieKeys := movieKeys[guid := keys];
        case ShowKind => showKeys := showKeys[guid := keys];
        case EpisodeKind => episodeKeys := episodeKeys[guid := keys];
      }
    }

    method Issue(a: Action)
      modifies this
      ensures State() == old(State()).(run := Progress(old(log) + [a], old(failure)))
    {
      log := log + [a];
    }

    /** A mark for a watched record on an unwatched item, then `for _ in range(…)` over the missing views. */
    method IssueMarks(watched: bool, viewCount: int, item: DestItem, key: int)
      modifies this
      ensures State() == old(State()).(run := Progress(old(log) + Marks(watched, viewCount, item, key), old(failure)))
    {
      if watched && !item.isWatched {
        Issue(MarkWatched(key));
      }
      ghost var marked := log;
      if viewCount > item.viewCount {
        var n := 0;
        while n < viewCount - item.viewCount
          invariant 0 <= n <= viewCount - item.viewCount
          invariant log == marked + Replay(key, n)
          invariant State() == old(State()).(run := Progress(log, old(failure)))
        {
          Issue(MarkWatched(key));
          n := n + 1;
        }
      }
    }

    /**
     * The body of the loop over a movie's or an episode's rating keys: fetch the item, skip
     * it when its duration is not positive (current script only), then mark, replay the
     * missing views, update the timeline and rate.
     */
    method ApplyItem(server: Server, key: int, rec: ItemRecord)
      modifies this
      ensures State() == old(State()).(run := Apply.ApplyItem(ItemOutcome(legacy), old(State()).run, server, key, rec))
    {
      if failure.Some? {
        return;
      }
      if key !in server.items {
        failure := Some(NotFound(key));
        return;
      }
      ApplyFound(server.items[key], key, rec);
    }

    /** What `fetchItem(rating_key)` found gets: nothing without a positive duration (current script only), else its calls. */
    method ApplyFound(item: DestItem, key: int, rec: ItemRecord)
      requires failure.None?
      modifies this
      ensures State() == old(State()).(run := Progress(old(log) + ItemOutcome(legacy)(rec, item, key).0, ItemOutcome(legacy)(rec, item, key).1))
    {
      OutcomeCases(legacy, rec, item, key);
      if !legacy && !(IntField(item.duration) > 0) {
        assert old(log) + [] == old(log);
        return;
      }
      IssueMarks(rec.watched, rec.viewCount, item, key);
      IssueTail(rec, item, key);
    }

    /** The timeline update and the rating; `None * viewPercent` raises before the update. */
    method IssueTail(rec: ItemRecord, item: DestItem, key: int)
      modifies this
      ensures Percent(rec) > 0 && item.duration.None? ==>
        State() == old(State()).(run := Progress(old(log), Some(NoDuration(key))))
      ensures !(Percent(rec) > 0 && item.duration.None?) ==>
        State() == old(State()).(run := Progress(old(log) + Timeline(rec, IntField(item.duration), key) + Rating(rec.userRating, key), old(failure)))
    {
      var percent := Percent(rec);
      if percent > 0 {
        if item.duration.None? {
          failure := Some(NoDuration(key));
          return;
        }
        Issue(UpdateTimeline(key, Scaled(item.duration.value, percent)));
      } else if rec.viewOffset != 0 {
        Issue(UpdateTimeline(key, Raw(rec.viewOffset)));
      }
      if rec.userRating != "" {
        Issue(Rate(key, rec.userRating));
      }
    }

    /** The body of the loop over a show's rating keys: mark and rate only. */
    method ApplyShowItem(server: Server, key: int, doc: ShowDoc)
      modifies this
      ensures State() == old(State()).(run := Apply.ApplyShowItem(old(State()).run, server, key, doc))
    {
      if failure.Some? {
        return;
      }
      if key !in server.items {
        failure := Some(NotFound(key));
        return;
      }
      var item := server.items[key];
      if doc.watched && !item.isWatched {
        Issue(MarkWatched(key));
      }
      if doc.userRating != "" {
        Issue(Rate(key, doc.userRating));
      }
    }

    /** `for rating_key in rating_keys:` for a movie or an episode. */
    method ApplyKeys(server: Server, keys: seq<int>, rec: ItemRecord)
      modifies this
      ensures State() == old(State()).(run := Apply.ApplyKeys(ItemOutcome(legacy), old(State()).run, server, keys, rec))
    {
      for i := 0 to |keys|
        invariant State() == old(State()).(run := Apply.ApplyKeys(ItemOutcome(legacy), old(State()).run, server, keys[..i], rec))
      {
        ghost var prev := State().run;
        ApplyItem(server, keys[i], rec);
        ApplyKeysStep(ItemOutcome(legacy), old(State()).run, server, keys, rec, i, prev, State().run);
      }
      assert keys[..|keys|] == keys;
    }

    /** `for rating_key in rating_keys:` for a show. */
    method ApplyShowKeys(server: Server, keys: seq<int>, doc: ShowDoc)
      modifies this
      ensures State() == old(State()).(run := Apply.ApplyShowKeys(old(State()).run, server, keys, doc))
    {
      for i := 0 to |keys|
        invariant State() == old(State()).(run := Apply.ApplyShowKeys(old(State()).run, server, keys[..i], doc))
      {
        ghost var prev := State().run;
        ApplyShowItem(server, keys[i], doc);
        ApplyShowKeysStep(old(State()).run, server, keys, doc, i, prev, State().run);
      }
      assert keys[..|keys|] == keys;
    }

    /** One entry of `movie_history.items()` or of a show's `episodes`. */
    method ApplyRecord(server: Server, kind: Kind, guid: string, rec: ItemRecord)
      modifies this
      ensures State() == Apply.ApplyRecord(legacy, old(State()), server, kind, guid, rec)
    {
      if failure.Some? {
        return;
      }
      var keys := GetRatingKeys(server, kind, guid);
      ApplyKeys(server, keys, rec);
    }

    /** The loop of `_set_movie_section_watched_history`, shared with a show's episode loop. */
    method ApplyRecords(server: Server, kind: Kind, entries: seq<(string, ItemRecord)>)
      modifies this
      ensures State() == Apply.ApplyRecords(legacy, old(State()), server, kind, entries)
    {
      for i := 0 to |entries|
        invariant State() == Apply.ApplyRecords(legacy, old(State()), server, kind, entries[..i])
      {
        ghost var prev := State();
        ApplyRecord(server, kind, entries[i].0, entries[i].1);
        ApplyRecordsStep(legacy, old(State()), server, kind, entries, i, prev, State());
      }
      assert entries[..|entries|] == entries;
    }

    /** `_set_movie_section_watched_history(server, movie_history)`. */
    method SetMovieSectionWatchedHistory(server: Server, movies: seq<(string, ItemRecord)>)
      modifies this
      ensures State() == Apply.ApplyRecords(legacy, old(State()), server, MovieKind, movies)
    {
      ApplyRecords(server, MovieKind, movies);
    }

    /** One show of `show_history.items()`: its own rating keys, then its episodes. */
    method ApplyShow(server: Server, guid: string, doc: ShowDoc)
      modifies this
      ensures State() == Apply.ApplyShow(legacy, old(State()), server, guid, doc)
    {
      if failure.Some? {
        return;
      }
      var keys := GetRatingKeys(server, ShowKind, guid);
      ApplyShowKeys(server, keys, doc);
      ApplyRecords(server, EpisodeKind, doc.episodes);
    }

    /** `_set_show_section_watched_history(server, show_history)`. */
    method SetShowSectionWatchedHistory(server: Server, shows: seq<(string, ShowDoc)>)
      modifies this
      ensures State() == Apply.ApplyShows(legacy, old(State()), server, shows)
    {
      for i := 0 to |shows|
        invariant State() == Apply.ApplyShows(legacy, old(State()), server, shows[..i])
      {
        ghost var prev := State();
        ApplyShow(server, shows[i].0, shows[i].1);
        ApplyShowsStep(legacy, old(State()), server, shows, i, prev, State());
      }
      assert shows[..|shows|] == shows;
    }

    /** `_set_user_server_watched_history(server, watched_history)`. */
    method SetUserServerWatchedHistory(server: Server, doc: UserDoc)
      modifies this
      ensures State() == Apply.ApplyUser(legacy, old(State()), server, doc)
    {
      SetMovieSectionWatchedHistory(server, doc.movie);
      SetShowSectionWatchedHistory(server, doc.show);
    }

    /**
     * `main` once the configuration, the account and the history file are read: the owner
     * on the owner's server, then every user the checks let through, on the server as that
     * user sees it.
     */
    method ImportWatchedHistory(checkUsers: seq<string>, history: map<string, UserDoc>, owner: User, server: Server, users: seq<Member>)
      requires State() == Start
      modifies this
      ensures State() == ImportAll(legacy, checkUsers, history, owner, server, users)
    {
      if Allowed(checkUsers, owner) {
        var username := GetUsername(owner);
        if username !in history {
          failure := Some(MissingOwnerHistory(username));
        } else {
          SetUserServerWatchedHistory(server, history[username]);
        }
      }
      ghost var afterOwner := State();
      assert afterOwner == OwnerTurn(legacy, Start, checkUsers, history, owner, server);
      for i := 0 to |users|
        invariant State() == ApplyUsers(legacy, afterOwner, checkUsers, history, users[..i])
      {
        ghost var prev := State();
        var user := users[i];
        if Allowed(checkUsers, user.account) {
          var username := GetUsername(user.account);
          if username != "" && username in history && user.login.Authorized? {
            SetUserServerWatchedHistory(user.login.server, history[username]);
          }
        }
        ApplyUsersStep(legacy, afterOwner, checkUsers, history, users, i, prev, State());
      }
      assert users[..|users|] == users;
    }
  }
}
