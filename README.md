# watched-tools: verified model of the Plex watched-history export and import

The repository's scripts copy watch state between Plex servers:

- **Export.** The exporter walks every movie and show section a user can see and resolves each item's guid to a canonical
  `plex://` guid. Older agent guids (`com.plexapp.agents.themoviedb://…`, `com.plexapp.agents.thetvdb://…`) are looked up on
  the metadata service. It then folds the items into one record per guid.
- **Import.** Each of two importers reads that history back. One is the current `plex/` script and the other is the older
  script at the top of the repository. For every record an importer looks up the destination server's rating keys for the
  guid, then issues mark-watched calls, one timeline update and a rating to each destination item.

This project models the three cores in Dafny and proves what they promise:

1. **Identity resolution on export** (`resolver.dfy`, and the `Export.Exporter` class in `exporter.dfy`).
   - The metadata service is a set of total functions from request argument to reply. Every request sent is logged, so "no
     fetch" can be stated.
   - The show cache with its per-show `Seasons` sub-cache and the three rating key → guid memos are state the exporter
     updates in place.
   - `urlparse` is reduced to the scheme, netloc and path split it needs (`url.dfy`). `str.split` is modelled in `text.dfy`.
2. **Watch-history merge on export** (`history.dfy`, driven by the same class).
   - Items fold into maps keyed by resolved guid.
   - Items whose guid is not `plex` or whose duration is not positive are filtered out.
   - A fully watched entry is never replaced by a partial one.
   - Episode entries are overwritten one by one.
   - `_cast` and `_get_username` are in `pyvalues.dfy`.
3. **Apply engine on import** (`apply.dfy` for the specification functions, the `Import.Importer` class in `importer.dfy` for the
   loops, and `settings.dfy` for reading the `sync.check_users` allow list).
   - Destination items are a map from rating key to `(isWatched, viewCount, duration)`.
   - Each call the importer makes is appended to a log as an `Action`: `MarkWatched`, `UpdateTimeline`, `Rate`.
   - An exception that ends the script is a sticky `Failure`: once set, nothing later happens.
   - One `Importer` class covers both scripts. Its `legacy` flag selects the older script, which has no duration check.

Every state-changing method is proved to leave exactly the state that a specification function of the old state describes.
The properties are proved about those functions as lemmas and as function postconditions.

## Model

| member | source | states |
|---|---|---|
| PyValues.CastToType | plex/plex_export_watched_history.py:375-384 | The type case of `_cast`, which all three scripts share. None gives the type's default (`""`, `0`, `False`). `str` stringifies any value. A non-instance of `int`/`bool` raises ValueError(value), and only then. A matching value comes back unchanged. |
| PyValues.Cast | plex/plex_export_watched_history.py:367-384 | `"date_string"` formats a datetime as `%Y-%m-%dT%H:%M:%SZ`. Any other value, None included, gives `1000-01-01T00:00:00Z`. A type argument casts as `CastToType`. |
| PyValues.SentinelFormat | plex/plex_export_watched_history.py:372-373 | The sentinel datetime 1000-01-01 00:00:00 formats to exactly `1000-01-01T00:00:00Z`. |
| PyValues.CastIdempotent | plex/plex_import_watched_history.py:105-115 | The importers' `_cast` (the exporter's without the date case) maps a value it already returned to itself, so a cast result is a fixed point. |
| PyValues.CastStr | plex_import_watched_history.py:91-95 | `_cast(str, v)` never raises: None gives "" and anything else its `str`. |
| PyValues.FieldCasts | plex/plex_export_watched_history.py:562-573 | Reading an int, string or datetime attribute that may be None through `_cast` never raises. It gives the value, or the default `0`, `""` or the date sentinel. |
| PyValues.GetUsername | plex/plex_export_watched_history.py:387-398 | The username is the cast of one of username, email, title or id. |
| PyValues.FirstNonEmptyIsFirst | plex/plex_export_watched_history.py:387-398 | The first non-empty name of a list is "" exactly when all names are empty. Otherwise it sits at an index before which every name is empty. |
| PyValues.GetUsernameIsFirstNonEmpty | plex/plex_import_watched_history.py:118-129 | The four-step fallback equals the first non-empty of the casts of username, email, title and id, in that order. |
| PyValues.UsernameEmptyIff | plex_import_watched_history.py:103-114 | The username is empty if and only if all four fields cast to "". An account with an integer id always has a non-empty username. |
| Text.SplitLength | plex/plex_export_watched_history.py:307 | `s.split("/")` has one more piece than `s` has separators. |
| Text.SplitPiecesFree | plex/plex_export_watched_history.py:309 | No piece of a split contains the separator. |
| Text.JoinSplit | plex/plex_export_watched_history.py:307-309 | Joining the pieces of a split with the separator gives the string back. |
| Text.SplitJoin | plex/plex_export_watched_history.py:307-309 | Splitting a join of separator-free pieces gives the pieces back. |
| Text.IntToString | plex/plex_export_watched_history.py:263 | `str(index)` is non-empty and starts with `-` exactly for a negative index. |
| Text.NoLeadingZero | plex/plex_export_watched_history.py:263 | The digits of a natural number start with `0` only for zero itself. |
| Url.Parse | plex/plex_export_watched_history.py:294 | The parsed scheme is lower-case and has no `:`. The netloc has no `/`, `?` or `#`. The path has no `?` or `#`. |
| Url.ParseComposed | plex/plex_export_watched_history.py:294 | Parsing `scheme://netloc/path?query`, with parts free of the delimiters, gives back exactly (scheme, netloc, path). |
| Resolver.MovieGuid | plex/plex_export_watched_history.py:184-204 | It sends one matches request. The guid is non-empty if and only if the reply is 200 with a first match whose guid is present and non-empty, and then it is that first match's guid. |
| Resolver.FetchShow | plex/plex_export_watched_history.py:207-245 | A cached show comes back with no request. Otherwise the first request is the show matches query. The result is cached if and only if no reply was non-200. An uncached result is `{}`. A new entry's `Seasons` is empty. The rating-key memos are untouched. |
| Resolver.FetchShowReplies | plex/plex_export_watched_history.py:213-245 | For an uncached show the requests are the matches query, then the details query of the first match's key when there is one. A 200 reply with no match caches and returns `{}`. A 200 details reply caches and returns that show's metadata with an empty `Seasons`. |
| Resolver.FetchShowSettles | plex/plex_export_watched_history.py:244 | After a fetch that did not fail, fetching the same show again is a cache hit that sends nothing. |
| Resolver.ShowGuid | plex/plex_export_watched_history.py:248-249 | A fetched show gives its metadata's `guid`, or "" when that is absent. A `{}` entry gives "". The cache is exactly as `_fetch_show_metadata` leaves it. |
| Resolver.FirstSeason | plex/plex_export_watched_history.py:262-265 | It gives the index of the first season whose `str(index)` equals the season id, or -1 when none does. |
| Resolver.FirstSeasonAt | plex/plex_export_watched_history.py:262-265 | A scan that stopped at position `i` on a match, or ran off the end, agrees with `FirstSeason`. |
| Resolver.FirstEpisode | plex/plex_export_watched_history.py:286-288 | It gives the index of the first episode whose `str(index)` equals the episode id, or -1. |
| Resolver.FirstEpisodeAt | plex/plex_export_watched_history.py:286-288 | A scan that stopped at `i` agrees with `FirstEpisode`. |
| Resolver.EpisodeIn | plex/plex_export_watched_history.py:283-290 | An empty season entry, or a season with no matching episode, gives "". Otherwise it is the guid of the first episode whose `str(index)` is the episode id. |
| Resolver.StoreSeason | plex/plex_export_watched_history.py:279-281 | Storing a season changes only that show's `Seasons` entry. Other shows, the memos and the requests are unchanged. |
| Resolver.EpisodeGuid | plex/plex_export_watched_history.py:252-290 | A show that is `{}`, or a season already in its sub-cache, is answered from the cache with no request. Afterwards the answer is what the cache holds, or "" when the show could not be fetched. Cached shows stay cached, the memos are untouched and requests are only appended. |
| Resolver.EpisodeGuidFetchesSeason | plex/plex_export_watched_history.py:257-290 | For a fetched show whose season is not cached: no matching season stores `{}` under the season id and gives "" with no request. Otherwise the season details query is sent. A non-200 reply gives "" and stores nothing. A 200 reply stores the season and answers from it. |
| Resolver.EpisodeGuidRepeat | plex/plex_export_watched_history.py:257-281 | Once a (show, season) pair has been looked up, a lookup of any episode of it sends no request. |
| Resolver.ZeroPaddedIdMatchesNothing | plex/plex_export_watched_history.py:286-288 | An episode id with a leading zero, such as `"01"`, never equals any `str(index)`, so it resolves to nothing. |
| Resolver.Classify | plex/plex_export_watched_history.py:293-314 | The scheme dispatch, each case as an if-and-only-if. themoviedb means a movie lookup on the netloc. thetvdb with type show means a show lookup on the netloc. thetvdb with type episode and a path that does not split into 3 pieces gives "". thetvdb with type episode and 3 pieces means an episode lookup of (netloc, piece 2, piece 3). Anything else passes through. |
| Resolver.ClassifyWrongDepth | plex/plex_export_watched_history.py:307-308 | A thetvdb episode guid whose path does not have exactly two `/` is unresolvable. |
| Resolver.ClassifyAgentEpisode | plex/plex_export_watched_history.py:306-310 | `com.plexapp.agents.thetvdb://<show>/<season>/<episode>?lang=en` classifies as an episode lookup of exactly those three ids. |
| Resolver.Convert | plex/plex_export_watched_history.py:293-314 | Pass-through returns the guid with no request. An unresolvable guid returns "" with no request. The movie, show and episode lookups are `MovieGuid`, `ShowGuid` and `EpisodeGuid` on the parsed ids. The memos are never touched. |
| Resolver.Resolve | plex/plex_export_watched_history.py:414-424 | The stored guid is empty only when the raw guid is. The memo of the item's type gains exactly that key, the other memos are unchanged, and requests are only appended. |
| Resolver.ResolveFallback | plex/plex_export_watched_history.py:414-424 | The stored guid is the converted one when that is non-empty, and the raw guid when conversion gave "". The show cache and requests are those conversion left. |
| Resolver.GetGuid | plex/plex_export_watched_history.py:401-425 | A memo hit returns the stored guid and changes nothing. A miss returns `Resolve`'s result: the converted guid, or the raw one when conversion gave "". It stores that under the key in the memo of its type only. |
| Resolver.GetGuidRepeat | plex/plex_export_watched_history.py:401-425 | A second call with the same key and type returns the same guid and sends nothing, whatever raw guid it is given. |
| Resolver.CacheListing | plex/plex_export_watched_history.py:345-349 | Caching a listing adds exactly the listed rating keys to the memo of that type. Other memos are unchanged. |
| Resolver.CacheListingLastWins | plex/plex_export_watched_history.py:345-349 | A listed rating key ends up mapped to what its last listing resolved to: the guid converted from the cache the earlier items left, or the raw guid when that gave "". |
| Resolver.CacheListingKeeps | plex/plex_export_watched_history.py:345-349 | A memo entry whose rating key the listing does not name keeps its guid. |
| Resolver.ListingLastWins | plex/plex_export_watched_history.py:345-349 | For any step that stores its value under the item's key, the last listing of a key decides its entry. |
| Resolver.CacheSection | plex/plex_export_watched_history.py:343-362 | No stored key is lost. A movie section's movies land in the movie memo. A show section's shows land in the show memo and its episodes in the episode memo. |
| Resolver.CacheSections | plex/plex_export_watched_history.py:340-364 | Over all sections no stored key is lost, and requests are only appended. |
| Resolver.EagerCacheListed | plex/plex_export_watched_history.py:340-364 | After eager caching, every item listed in any section is in the memo of its type. |
| Resolver.EagerCacheHits | plex/plex_export_watched_history.py:405-412 | After eager caching, `_get_guid` on any listed item is a memo hit that changes nothing. |
| Export.SectionItems | plex/plex_export_watched_history.py:318-333 | A negative initial total means no page is read. Otherwise every item is yielded in order. Page starts are 0, size, 2·size, …, and the last start is at most the total while the next would pass it. |
| Export.FindSeasonKey | plex/plex_export_watched_history.py:261-265 | The season loop returns the rating key of the first season with a matching index, or "". |
| Export.FindEpisodeGuid | plex/plex_export_watched_history.py:283-290 | The episode loop returns the guid of the first matching episode, or "". |
| Export.Exporter.constructor | plex/plex_export_watched_history.py:163-181 | The show metadata cache keeps what was persisted. The three rating-key memos start empty and no request has been sent. |
| Export.Exporter.FetchShowMetadata | plex/plex_export_watched_history.py:207-245 | The returned entry and the new cache are those of `FetchShow`. |
| Export.Exporter.GetMovieGuid | plex/plex_export_watched_history.py:203-204 | The guid and the cache are those of `MovieGuid`. |
| Export.Exporter.GetShowGuid | plex/plex_export_watched_history.py:248-249 | The guid and the cache are those of `ShowGuid`. |
| Export.Exporter.GetEpisodeGuid | plex/plex_export_watched_history.py:252-290 | The guid and the cache are those of `EpisodeGuid`. |
| Export.Exporter.ConvertToPlexGuid | plex/plex_export_watched_history.py:293-314 | The converted guid and the cache are those of `Convert`. |
| Export.Exporter.Store | plex/plex_export_watched_history.py:418-423 | Only the memo of the given type changes, at the given key. |
| Export.Exporter.ResolveAndStore | plex/plex_export_watched_history.py:414-424 | The guid and the cache are those of `Resolve`. |
| Export.Exporter.GetGuid | plex/plex_export_watched_history.py:401-425 | The guid and the cache are those of `GetGuid`. |
| Export.Exporter.CacheItems | plex/plex_export_watched_history.py:345-349 | The loop over one listing leaves the cache of `CacheListing`. |
| Export.Exporter.CacheLibrary | plex/plex_export_watched_history.py:343-362 | One section leaves the cache of `CacheSection`. |
| Export.Exporter.CacheRatingKeyGuidMappings | plex/plex_export_watched_history.py:340-364 | The loop over all sections leaves the cache of `CacheSections`. |
| Export.Exporter.GetMovieSectionWatchedHistory | plex/plex_export_watched_history.py:549-593 | The movie history and the cache are those of `MovieSectionHistory`. |
| Export.Exporter.MergeEpisodePass | plex/plex_export_watched_history.py:614-635 | One episode loop leaves the episode map and the cache of `EpisodePass`. |
| Export.Exporter.ShowWatchedHistory | plex/plex_export_watched_history.py:598-696 | One show leaves the show history and the cache of `ShowStep`. |
| Export.Exporter.GetShowSectionWatchedHistory | plex/plex_export_watched_history.py:596-696 | The show history and the cache are those of `ShowsHistory`. |
| Export.Exporter.GetUserServerWatchedHistory | plex/plex_export_watched_history.py:699-717 | The user history and the cache are those of `SectionsHistory`. |
| History.ViewPercent | plex/plex_export_watched_history.py:428-429 | The percent is the integer number of hundredths nearest to offset/duration, with halves rounded up. |
| History.ViewPercentBounds | plex/plex_export_watched_history.py:428-429 | For 0 ≤ offset ≤ duration the percent lies between 0 and 100 hundredths. |
| History.IsPlexIsSchemeTest | plex/plex_export_watched_history.py:553 | The filter used on guids is exactly `urlparse(guid).scheme == "plex"`. |
| History.RecordOf | plex/plex_export_watched_history.py:562-573 | A record carries the resolved guid, the title, the watched flag, the view count and offset, the rating, both dates and the view percent of the item's offset and duration. |
| History.MergeMovie | plex/plex_export_watched_history.py:553-593 | A non-plex guid or a duration that is not positive leaves the history unchanged. A watched movie overwrites its entry, which is then watched. An unwatched movie leaves a watched entry alone and overwrites any other. No other guid's entry changes. |
| History.MoviesWatchedSticky | plex/plex_export_watched_history.py:576-581 | Over a whole section, an entry that was watched stays present and watched. |
| History.MoviesWatchedWins | plex/plex_export_watched_history.py:560-573 | A watched, eligible movie anywhere in the section leaves its guid watched, whatever follows it. |
| History.EligibleGuidsIff | plex/plex_export_watched_history.py:553-559 | A guid is recorded by a section if and only if some item resolved to it with a plex scheme and a positive duration. |
| History.MoviesKeys | plex/plex_export_watched_history.py:549-593 | The history's keys after a section are the old keys plus exactly the eligible guids. |
| History.MoviesWellKeyed | plex/plex_export_watched_history.py:562-563 | Every key stays a plex guid equal to its record's `guid` field. |
| History.MergeEpisode | plex/plex_export_watched_history.py:616-635 | An ineligible episode changes nothing. An eligible one overwrites its entry unconditionally. |
| History.EpisodesKeep | plex/plex_export_watched_history.py:614-695 | Episode entries from earlier passes or sections are never removed. |
| History.EpisodesLastWins | plex/plex_export_watched_history.py:616-635 | Within one run of episodes, a guid's entry is the record of the last eligible episode resolved to it. |
| History.EpisodesUntouched | plex/plex_export_watched_history.py:616-635 | A guid no eligible episode resolved to keeps its entry, or stays absent. |
| History.MergeEpisodesAppend | plex/plex_export_watched_history.py:614-695 | Merging two runs one after the other is merging their concatenation. |
| History.ResolveAllAppend | plex/plex_export_watched_history.py:614-695 | Resolving two runs one after the other gives the concatenated guids and the cache the second run left. |
| History.EpisodesWellKeyed | plex/plex_export_watched_history.py:624-625 | Episode maps stay keyed by their records' plex guids. |
| History.MovieSectionHistory | plex/plex_export_watched_history.py:549-593 | A movie section keeps the history well keyed, and entries that were watched stay watched. |
| History.WithViewsMembers | plex/plex_export_watched_history.py:614 | `episodes(viewCount__gt=0)` holds exactly the episodes with a positive view count. |
| History.WithViewsAppend | plex/plex_export_watched_history.py:614 | The filter of a concatenation is the concatenation of the filters, so it keeps order. |
| History.WithOffsetMembers | plex/plex_export_watched_history.py:674 | `episodes(viewOffset__gt=0)` holds exactly the episodes with a positive offset. |
| History.WithOffsetAppend | plex/plex_export_watched_history.py:674 | The offset filter distributes over concatenation, so it keeps order. |
| History.EpisodePass | plex/plex_export_watched_history.py:614-635 | One episode pass keeps every existing key and keeps the map well keyed. |
| History.EpisodePassAppend | plex/plex_export_watched_history.py:614-695 | A second pass that starts from the map and cache the first left is one pass over both runs. |
| History.ShowFields | plex/plex_export_watched_history.py:606-613 | The show-level update writes the guid and the watched flag and leaves the episode map as it was. |
| History.ShowEpisodes | plex/plex_export_watched_history.py:614-695 | The episode passes of a show keep every existing episode key and keep the map well keyed. |
| History.ShowEpisodesOneRun | plex/plex_export_watched_history.py:614-695 | A show's episode passes are one pass over the watched episodes followed, for a show not fully watched, by the in-progress ones. |
| History.ShowEpisodesLastWins | plex/plex_export_watched_history.py:614-695 | Across both passes, an episode guid's entry is the record of the last eligible episode of that run, so an in-progress episode overrides the same episode from the watched pass. |
| History.ShowEpisodesUntouched | plex/plex_export_watched_history.py:614-695 | An episode guid that no eligible episode of the show resolved to keeps its entry. |
| History.ShowMerge | plex/plex_export_watched_history.py:600-696 | A non-plex show guid changes nothing. A partial show whose entry is already watched changes neither the history nor the cache. Otherwise the entry is the show-level update followed by `ShowEpisodes` on its episodes, from the cache given. Other shows are untouched, existing episode keys are kept, a watched show stays watched, a watched show ends watched, and the map stays well keyed. |
| History.ShowStep | plex/plex_export_watched_history.py:598-696 | Resolving and merging one show adds at most its resolved guid, keeps every show, its episode keys and its watched flag, and ends with a watched show watched. |
| History.ShowsKeep | plex/plex_export_watched_history.py:596-696 | Over a whole section no show, no episode key and no watched flag is lost. |
| History.ShowsStayWellKeyed | plex/plex_export_watched_history.py:596-696 | A show section keeps every show and episode map keyed by its plex guid. |
| History.UserHistoryWellKeyed | plex/plex_export_watched_history.py:699-717 | Over all sections of a server, the movie and show histories are keyed by plex guids that equal their records' `guid`. |
| Apply.RatingKeys | plex/plex_import_watched_history.py:132-137 | Afterwards the guid is in the mapping and the result is its entry. A hit changes nothing. A miss searches once and logs the search. Other entries are unchanged and no other entry appears. |
| Apply.RatingKeysRepeat | plex_import_watched_history.py:117-122 | A second call with the same guid returns the same list and searches nothing, even against another server. |
| Import.Importer.GetRatingKeys | plex/plex_import_watched_history.py:132-137 | The keys and the new state are those of `RatingKeys`. |
| Apply.ReplayMarks | plex/plex_import_watched_history.py:159-162 | The replay loop issues exactly max(0, n) mark-watched calls, all on the item's key. |
| Apply.MarksShape | plex/plex_import_watched_history.py:156-162 | The marks are one for a watched record on an unwatched item, plus max(0, record views − item views), all on the item's key. |
| Apply.ItemRuns | plex/plex_import_watched_history.py:153-173 | With a positive duration, an item's calls are its marks, then its timeline update, then its rating. |
| Apply.ItemActionsCounts | plex/plex_import_watched_history.py:153-173 | A duration that is not positive gives no calls. Otherwise there are exactly (watched and not yet watched ? 1 : 0) + max(0, view delta) marks. There is one timeline update if and only if the percent is positive or the offset non-zero, and one rating if and only if the rating is non-empty. |
| Apply.ItemActionsOrder | plex/plex_import_watched_history.py:156-173 | Marks come before the timeline update, which comes before the rating, all on the one key. The offset is duration × percent when the percent is positive, else the raw offset. A scaled duration is positive. The rating is the record's. |
| Apply.ImportSettles | plex/plex_import_watched_history.py:156-162 | After the marks take effect the item has at least the record's views and is watched if the record is, so importing again issues no mark. |
| Apply.CurrentNeverFails | plex/plex_import_watched_history.py:153-173 | The current importer's per-item rule never raises. |
| Apply.OutcomeCases | plex/plex_import_watched_history.py:153-173 | The per-item rule of either script: the current one skips a duration that is not positive. A positive percent with no duration raises after the marks. Otherwise it issues marks, timeline and rating. |
| Apply.LegacyAgrees | plex_import_watched_history.py:128-147 | With a positive duration the older script issues the same calls as the current one. It raises if and only if the percent is positive and the duration is None. |
| Apply.LegacyCrashesOnMissingDuration | plex_import_watched_history.py:137-140 | A half-watched record applied to an item with no duration raises in the older script, where the current script skips the item. |
| Apply.ShowActionsShape | plex/plex_import_watched_history.py:189-194 | A show item gets one mark if watched there and not here, and no timeline. It gets a rating if and only if the rating is non-empty, in that order, on its key. |
| Apply.ApplyItem | plex/plex_import_watched_history.py:144-173 | Applying one fetched item only ever appends to the log, and after a failure nothing changes. |
| Apply.ApplyShowItem | plex/plex_import_watched_history.py:180-194 | For a show item the run only appends, and after a failure nothing changes. |
| Apply.ApplyKeys | plex/plex_import_watched_history.py:143-173 | The loop over rating keys only appends, and stops changing at the first failure. |
| Apply.ApplyKeysAllClear | plex/plex_import_watched_history.py:143-173 | When every key is on the server and nothing raises, the loop appends each key's calls in key order. |
| Apply.ApplyKeysMissing | plex/plex_import_watched_history.py:144 | Any rating key missing from the server ends the loop with a failure. |
| Apply.ApplyShowKeys | plex/plex_import_watched_history.py:179-194 | The loop over a show's keys only appends and stops changing at the first failure. |
| Apply.ApplyRecord | plex/plex_import_watched_history.py:141-143 | One record only appends to the run, and after a failure the state is frozen. |
| Apply.ApplyRecords | plex/plex_import_watched_history.py:140-173 | The loop over records only appends, and after a failure the state is frozen. |
| Apply.ApplyShow | plex/plex_import_watched_history.py:177-227 | A show only appends, and after a failure the state is frozen. |
| Apply.ShowWithoutItems | plex/plex_import_watched_history.py:195-197 | A show guid with no rating keys still has its episodes applied. |
| Apply.ApplyShows | plex/plex_import_watched_history.py:176-227 | The loop over shows only appends, and after a failure the state is frozen. |
| Apply.ApplyUser | plex/plex_import_watched_history.py:230-232 | Movies are applied first, and the shows then follow from the state the movies left. |
| Settings.StripBy | plex/plex_import_watched_history.py:50-51 | Stripping a set of characters leaves a string that neither starts nor ends with one of them. |
| Settings.StripByRemovesOnlyEnds | plex/plex_import_watched_history.py:50-51 | The strip is the slice of the input that starts at offset `i`. Every character before `i` and every character after the slice is one of the stripped characters, and the slice's own ends are not. |
| Settings.ConfigStr | plex/plex_import_watched_history.py:50-51 | `_get_config_str` strips quotes, then double quotes, then whitespace, so its result neither starts nor ends with whitespace. |
| Settings.ConfigStrRemovesOnlyEnds | plex/plex_import_watched_history.py:50-51 | The setting as read is a slice of the raw string. Every character around that slice is a single quote, a double quote or whitespace. |
| Settings.ConfigStrQuoted | plex/plex_import_watched_history.py:50-51 | A non-empty name in single quotes or in double quotes, such as `'alice,bob'`, reads as the bare name when its ends are neither quotes nor whitespace. |
| Settings.ConfigStrBlank | plex/plex_import_watched_history.py:50-51 | A setting made only of whitespace reads as "". |
| Settings.MapNonEmptyIff | plex/plex_import_watched_history.py:64 | A name is in the allow list if and only if it is the strip of a non-empty comma-separated piece of the setting. |
| Settings.CheckUsersBlankPiece | plex/plex_import_watched_history.py:50-64 | A setting `x, ,y`, with plain names for `x` and `y` and a blank middle piece, gives the list `[x, "", y]`: the blank piece is non-empty before stripping. |
| Apply.BlankSettingAdmitsEveryone | plex/plex_import_watched_history.py:50-64 | A setting that reads as "", such as `" "`, gives an empty list, which admits every account. |
| Apply.BlankPieceAdmitsEmptyName | plex/plex_import_watched_history.py:62-64 | The list of `x, ,y` admits exactly the accounts whose username, email or title is `x`, `y` or the empty string. |
| Apply.Decide | plex/plex_import_watched_history.py:262-289 | A user who is processed has a history entry. |
| Apply.DecideIff | plex/plex_import_watched_history.py:262-292 | A user is processed if and only if four things hold: the allow list is empty or lists the exact username, email or title; the username is non-empty; the username is in the history; the token is not Unauthorized. A processed user gets their history applied on their own server. Any other user leaves the state unchanged. |
| Apply.UserTurn | plex/plex_import_watched_history.py:262-292 | One user's turn only appends, and after a failure nothing changes. |
| Apply.ApplyUsers | plex/plex_import_watched_history.py:262-292 | The loop over users only appends to the run, and after a failure nothing changes. |
| Apply.OwnerTurn | plex/plex_import_watched_history.py:253-260 | An owner the allow list excludes changes nothing. An allowed owner without a history entry raises KeyError before any call. |
| Apply.ImportAll | plex/plex_import_watched_history.py:235-294 | The users' turns follow the owner's turn: they only append, and nothing changes after a failure. |
| Import.Importer.constructor | plex/plex_import_watched_history.py:43-45 | The three guid → rating keys mappings start empty, with nothing searched or issued. |
| Import.Importer.IssueMarks | plex/plex_import_watched_history.py:156-162 | It appends exactly the marks of `Marks` to the log. |
| Import.Importer.IssueTail | plex/plex_import_watched_history.py:163-173 | It appends the timeline update and the rating. A positive percent with no duration records NoDuration. |
| Import.Importer.ApplyFound | plex/plex_import_watched_history.py:153-173 | It appends exactly the per-item rule's calls and records its failure. |
| Import.Importer.ApplyItem | plex/plex_import_watched_history.py:144-173 | The new state is that of `ApplyItem`. |
| Import.Importer.ApplyShowItem | plex/plex_import_watched_history.py:180-194 | The new state is that of `ApplyShowItem`. |
| Import.Importer.ApplyKeys | plex/plex_import_watched_history.py:143-173 | The new state is that of `ApplyKeys`. |
| Import.Importer.ApplyShowKeys | plex/plex_import_watched_history.py:179-194 | The new state is that of `ApplyShowKeys`. |
| Import.Importer.ApplyRecord | plex/plex_import_watched_history.py:141-143 | The new state is that of `ApplyRecord`. |
| Import.Importer.ApplyRecords | plex/plex_import_watched_history.py:195-227 | The new state is that of `ApplyRecords`. |
| Import.Importer.SetMovieSectionWatchedHistory | plex/plex_import_watched_history.py:140-173 | The new state is that of `ApplyRecords` over the movies. |
| Import.Importer.ApplyShow | plex/plex_import_watched_history.py:177-227 | The new state is that of `ApplyShow`. |
| Import.Importer.SetShowSectionWatchedHistory | plex/plex_import_watched_history.py:176-227 | The new state is that of `ApplyShows`. |
| Import.Importer.SetUserServerWatchedHistory | plex/plex_import_watched_history.py:230-232 | The new state is that of `ApplyUser`. |
| Import.Importer.ImportWatchedHistory | plex/plex_import_watched_history.py:235-294 | From the start state, the import leaves exactly the state of `ImportAll`. With `legacy` set this is the older script's `main` (plex_import_watched_history.py, lines 190-248), which selects users by the same rules. |

## Left out

**Not modelled: I/O, remote systems and libraries.**
- Configuration, logging, HTTP sessions, retries and the plexapi version check. These are I/O and library configuration.
- The diskcache `Index` persistence. The caches are in-memory fields. A persisted show cache is a constructor argument, and the three rating-key memos start empty.
- The music history, which is always `{}`.
- The `search(...)` filters `_tv_item_iterator`, `_movie_item_iterator` and `_batch_get` use, and `reload`. These belong to the Plex server: a section's items are given as the sequence those iterators yield.
- The effect of `markWatched`, `updateTimeline` and `rate` on the destination server. Each call is logged as an `Action`. `Scrobble` states the effect of marks on views, and is used only for `ImportSettles`.
- Destination items are a fixed snapshot. For this reason a key that appears twice is compared against its state as fetched, not against the effect of earlier calls.
- The exporter's `main`: reading the server's users and dumping JSON. Its allow-list test lower-cases the account fields, which the import scripts do not. Only the per-server `_get_user_server_watched_history` is modelled.
- `_fetch_movie_metadata` beyond its one request and its result. Nothing is cached for movies.
- `user.get_token` and other plexapi errors. The model only separates `Unauthorized` from a working server.
- JSON object order. History files are sequences of (guid, record) pairs in file order. The exporter's maps are Dafny maps, which have no order.

**Not in the scripts, so not in the model.**
- Timestamp gating on import. The importers never compare `lastViewedAt` or `lastRatedAt` with the destination's. They issue marks, the timeline update and the rating whatever the dates.
- A case-insensitive allow list on import. Both importers test `username`, `email` and `title` for exact membership in `CHECK_USERS` (plex/plex_import_watched_history.py:253-254 and 264-265).
- Concurrent per-user workers. Both importers handle the owner and then each user one after another in a plain loop.

**Not modelled: Python semantics.**
- Float values. `_get_view_percent` is integer hundredths with halves rounded up, rather than Python's binary `round`. `duration × viewPercent` is kept unevaluated as `Scaled(duration, percent)`. A float attribute is its `repr` string.
- KeyError on a malformed reply or record, such as a reply missing `MediaContainer` or a record missing `watched`. Replies and records are well-formed datatypes. The owner's missing history entry is the one KeyError modelled.
- `urlparse` beyond the scheme, netloc and path split of `scheme://netloc/path?query#fragment`. A scheme that is not valid leaves the whole string in the path.
- `str.strip` beyond the six ASCII whitespace characters.

**Weaker than the source.**
- Export.SectionItems: the total the server reports is `|all|`. The initial `_totalViewSize` only decides whether the loop starts.

**Modelling choices.**
- The history defaultdicts are plain maps. Every place that reads a default entry either overwrites it straight away or finds `watched` false, so an absent guid behaves like the defaultdict's fresh record.
- The merge functions take the guid resolver as a function parameter. The exporter class passes `Resolver.GetGuid` over its own service.

## Findings

| source | as written | input that shows it | evidently intended | confidence | as-written member | corrected member |
|---|---|---|---|---|---|---|
| plex_import_watched_history.py:137-140 | The older importer computes `item.duration * viewPercent` with no duration check. When the destination item has no duration (`None`), that raises TypeError and ends the whole import, after the marks were already sent. | A record with `viewPercent` 0.5, applied to an item whose `duration` is None (`Apply.HalfWatched` on `Apply.NoDurationItem`). | Skip an item whose duration is not positive, as the current script does at plex/plex_import_watched_history.py:153-155. | not executed | Apply.LegacyCrashesOnMissingDuration | Apply.ItemActionsCounts |
