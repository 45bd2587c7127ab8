/**
 * The apply engine of the importers, as functions: which actions a record of the exported
 * history issues against an item of the destination server, the guid → rating keys memo,
 * the passes over movies, shows and episodes, and the choice of users in `main`.
 *
 * Both importers are covered: `legacy` selects the older script at the top of the
 * repository, which neither checks the destination item's duration nor reloads it.
 * An exception ends the whole import; here it is the `failure` of the state, and every
 * step taken once it is set changes nothing.
 */
module Apply {
  import opened Wrappers
  import opened Text
  import opened PyValues
  import opened Resolver
  import opened History
  import opened Settings

  /** A movie, show or episode of the destination server, as `fetchItem` returns it. */
  datatype DestItem = DestItem(isWatched: bool, viewCount: int, duration: Option<int>)

  /**
   * A destination server: its items by rating key, and the rating keys of the items that
   * `library.search(guid=…)` returns for a guid (none for a guid it does not know).
   */
  datatype Server = Server(items: map<int, DestItem>, found: map<string, seq<int>>)

  function Search(server: Server, guid: string): seq<int> {
    if guid in server.found then server.found[guid] else []
  }

  /**
   * The argument of `updateTimeline`: `duration × viewPercent` (the percent in hundredths,
   * the float product left unevaluated), or a raw offset in milliseconds.
   */
  datatype Offset = Scaled(duration: int, percent: int) | Raw(ms: int)

  /** A call on a destination item: `markWatched()`, `updateTimeline(offset)` or `rate(rating)`. */
  datatype Action = MarkWatched(key: int) | UpdateTimeline(key: int, offset: Offset) | Rate(key: int, rating: string)

  /**
   * The exceptions that end an import: `fetchItem` of a rating key the server does not
   * have (NotFound), `None * viewPercent` in the older script (TypeError), and the
   * owner's name missing from the history file (KeyError).
   */
  datatype Failure = NotFound(key: int) | NoDuration(key: int) | MissingOwnerHistory(name: string)

  /** `history.get("viewPercent", 0.0)`. */
  function Percent(rec: ItemRecord): int {
    rec.viewPercent.GetOr(0)
  }

  function Max0(n: int): nat {
    if n > 0 then n else 0
  }

  // ---------------------------------------------------------------------------------------
  // Actions of one item

  /** Marks come first, then the timeline update, then the rating. */
  function Rank(a: Action): nat {
    match a
    case MarkWatched(_) => 0
    case UpdateTimeline(_, _) => 1
    case Rate(_, _) => 2
  }

  predicate Ordered(acts: seq<Action>) {
    forall i, j :: 0 <= i < j < |acts| ==> Rank(acts[i]) <= Rank(acts[j])
  }

  predicate AllRank(acts: seq<Action>, rank: nat) {
    forall k :: 0 <= k < |acts| ==> Rank(acts[k]) == rank
  }

  predicate OnKey(acts: seq<Action>, key: int) {
    forall k :: 0 <= k < |acts| ==> acts[k].key == key
  }

  /** The number of actions of a rank. */
  function Tally(acts: seq<Action>, rank: nat): nat
    decreases |acts|
  {
    if |acts| == 0 then 0
    else Tally(acts[..|acts| - 1], rank) + (if Rank(acts[|acts| - 1]) == rank then 1 else 0)
  }

  lemma {:induction false} TallyAppend(a: seq<Action>, b: seq<Action>, rank: nat)
    ensures Tally(a + b, rank) == Tally(a, rank) + Tally(b, rank)
    decreases |b|
  {
    if |b| == 0 {
      assert a + b == a;
    } else {
      var n := |b| - 1;
      assert (a + b)[..|a + b| - 1] == a + b[..n];
      TallyAppend(a, b[..n], rank);
    }
  }

  lemma {:induction false} TallyUniform(acts: seq<Action>, rank: nat, other: nat)
    requires AllRank(acts, rank)
    ensures Tally(acts, other) == if other == rank then |acts| else 0
    decreases |acts|
  {
    if |acts| > 0 {
      var n := |acts| - 1;
      assert AllRank(acts[..n], rank) by {
        forall k | 0 <= k < n ensures Rank(acts[..n][k]) == rank {
          assert acts[..n][k] == acts[k];
        }
      }
      TallyUniform(acts[..n], rank, other);
    }
  }

  lemma OrderedRuns(a: seq<Action>, b: seq<Action>, c: seq<Action>)
    requires AllRank(a, 0) && AllRank(b, 1) && AllRank(c, 2)
    ensures Ordered(a + b + c)
  {
    var s := a + b + c;
    forall k | 0 <= k < |s| ensures Rank(s[k]) == if k < |a| then 0 else if k < |a| + |b| then 1 else 2 {
      if k < |a| {
        assert s[k] == a[k];
      } else if k < |a| + |b| {
        assert s[k] == b[k - |a|];
      } else {
        assert s[k] == c[k - |a| - |b|];
      }
    }
  }

  /** Runs of marks, timeline updates and ratings hold as many actions of each rank as they are long. */
  lemma TallyRuns(a: seq<Action>, b: seq<Action>, c: seq<Action>, rank: nat)
    requires AllRank(a, 0) && AllRank(b, 1) && AllRank(c, 2)
    ensures Tally(a + b + c, rank) == if rank == 0 then |a| else if rank == 1 then |b| else if rank == 2 then |c| else 0
  {
    TallyAppend(a + b, c, rank);
    TallyAppend(a, b, rank);
    TallyUniform(a, 0, rank);
    TallyUniform(b, 1, rank);
    TallyUniform(c, 2, rank);
  }

  /** The replay `for _ in range(n): item.markWatched()`: n marks, none when n is not positive. */
  function Replay(key: int, n: int): (r: seq<Action>)
    decreases Max0(n)
  {
    if n <= 0 then [] else Replay(key, n - 1) + [MarkWatched(key)]
  }

  lemma {:induction false} ReplayMarks(key: int, n: int)
    ensures |Replay(key, n)| == Max0(n)
    ensures forall k :: 0 <= k < |Replay(key, n)| ==> Replay(key, n)[k] == MarkWatched(key)
    decreases Max0(n)
  {
    if n > 0 {
      ReplayMarks(key, n - 1);
    }
  }

  /** One mark for a watched record whose item is unwatched, then a replay of the view count delta. */
  function Marks(watched: bool, viewCount: int, item: DestItem, key: int): seq<Action> {
    (if watched && !item.isWatched then [MarkWatched(key)] else []) + Replay(key, viewCount - item.viewCount)
  }

  /** At most one timeline update: by percent when it is positive, else by a non-zero raw offset. */
  function Timeline(rec: ItemRecord, duration: int, key: int): seq<Action> {
    if Percent(rec) > 0 then [UpdateTimeline(key, Scaled(duration, Percent(rec)))]
    else if rec.viewOffset != 0 then [UpdateTimeline(key, Raw(rec.viewOffset))]
    else []
  }

  function Rating(rating: string, key: int): seq<Action> {
    if rating != "" then [Rate(key, rating)] else []
  }

  /**
   * What the current importer issues for a movie or an episode record against the item
   * with rating key `key`: nothing when `_cast(int, item.duration)` is not positive.
   */
  function ItemActions(rec: ItemRecord, item: DestItem, key: int): seq<Action> {
    var duration := IntField(item.duration);
    if duration <= 0 then []
    else Marks(rec.watched, rec.viewCount, item, key) + Timeline(rec, duration, key) + Rating(rec.userRating, key)
  }

  lemma MarksShape(watched: bool, viewCount: int, item: DestItem, key: int)
    ensures AllRank(Marks(watched, viewCount, item, key), 0)
    ensures OnKey(Marks(watched, viewCount, item, key), key)
    ensures |Marks(watched, viewCount, item, key)| == (if watched && !item.isWatched then 1 else 0) + Max0(viewCount - item.viewCount)
  {
    var first := if watched && !item.isWatched then [MarkWatched(key)] else [];
    var m := Marks(watched, viewCount, item, key);
    ReplayMarks(key, viewCount - item.viewCount);
    forall k | 0 <= k < |m| ensures m[k] == MarkWatched(key) {
      if k >= |first| {
        assert m[k] == Replay(key, viewCount - item.viewCount)[k - |first|];
      }
    }
  }

  /** The actions of an item with a duration are its marks, its timeline update and its rating, in that order. */
  lemma ItemRuns(rec: ItemRecord, item: DestItem, key: int)
    requires IntField(item.duration) > 0
    ensures ItemActions(rec, item, key)
      == Marks(rec.watched, rec.viewCount, item, key) + Timeline(rec, IntField(item.duration), key) + Rating(rec.userRating, key)
    ensures AllRank(Marks(rec.watched, rec.viewCount, item, key), 0)
    ensures AllRank(Timeline(rec, IntField(item.duration), key), 1)
    ensures AllRank(Rating(rec.userRating, key), 2)
  {
    MarksShape(rec.watched, rec.viewCount, item, key);
  }

  /**
   * How many calls an item gets: none unless the duration is positive; otherwise exactly
   * one mark for a watched record on an unwatched item plus one per missing view, one
   * timeline update exactly when the percent is positive or the raw offset non-zero, and
   * one rating exactly when the record has one.
   */
  lemma ItemActionsCounts(rec: ItemRecord, item: DestItem, key: int)
    ensures IntField(item.duration) <= 0 ==> ItemActions(rec, item, key) == []
    ensures IntField(item.duration) > 0 ==>
      Tally(ItemActions(rec, item, key), 0) == (if rec.watched && !item.isWatched then 1 else 0) + Max0(rec.viewCount - item.viewCount)
    ensures Tally(ItemActions(rec, item, key), 1) ==
      if IntField(item.duration) > 0 && (Percent(rec) > 0 || rec.viewOffset != 0) then 1 else 0
    ensures Tally(ItemActions(rec, item, key), 2) == if IntField(item.duration) > 0 && rec.userRating != "" then 1 else 0
  {
    var duration := IntField(item.duration);
    if duration > 0 {
      var m, t, g := Marks(rec.watched, rec.viewCount, item, key), Timeline(rec, duration, key), Rating(rec.userRating, key);
      ItemRuns(rec, item, key);
      MarksShape(rec.watched, rec.viewCount, item, key);
      TallyRuns(m, t, g, 0);
      TallyRuns(m, t, g, 1);
      TallyRuns(m, t, g, 2);
    }
  }

  /**
   * What the calls of an item are: marks first and the rating last, all on the item's own
   * rating key; the timeline update goes by percent when there is one (then always with a
   * positive duration), else by the raw offset; the rating is the record's.
   */
  lemma ItemActionsOrder(rec: ItemRecord, item: DestItem, key: int)
    ensures Ordered(ItemActions(rec, item, key))
    ensures OnKey(ItemActions(rec, item, key), key)
    ensures forall k :: 0 <= k < |ItemActions(rec, item, key)| && ItemActions(rec, item, key)[k].UpdateTimeline? ==>
      ItemActions(rec, item, key)[k].offset
        == if Percent(rec) > 0 then Scaled(IntField(item.duration), Percent(rec)) else Raw(rec.viewOffset)
    ensures forall k :: 0 <= k < |ItemActions(rec, item, key)| && ItemActions(rec, item, key)[k].UpdateTimeline? ==>
      (ItemActions(rec, item, key)[k].offset.Scaled? ==> ItemActions(rec, item, key)[k].offset.duration > 0)
    ensures forall k :: 0 <= k < |ItemActions(rec, item, key)| && ItemActions(rec, item, key)[k].Rate? ==>
      ItemActions(rec, item, key)[k].rating == rec.userRating
  {
    var duration := IntField(item.duration);
    if duration > 0 {
      var m, t, g := Marks(rec.watched, rec.viewCount, item, key), Timeline(rec, duration, key), Rating(rec.userRating, key);
      var r := m + t + g;
      ItemRuns(rec, item, key);
      MarksShape(rec.watched, rec.viewCount, item, key);
      OrderedRuns(m, t, g);
      forall k | 0 <= k < |r|
        ensures r[k].key == key
        ensures r[k].UpdateTimeline? ==> r[k] == t[0]
        ensures r[k].Rate? ==> r[k] == g[0]
      {
        if k < |m| {
          assert r[k] == m[k];
        } else if k < |m| + |t| {
          assert r[k] == t[k - |m|];
        } else {
          assert r[k] == g[k - |m| - |t|];
        }
      }
    }
  }

  /** The older script issues the same actions but never looks at the duration, so `None * viewPercent` raises. */
  function LegacyItemActions(rec: ItemRecord, item: DestItem, key: int): (seq<Action>, Option<Failure>) {
    var marks := Marks(rec.watched, rec.viewCount, item, key);
    if Percent(rec) > 0 && item.duration.None? then (marks, Some(NoDuration(key)))
    else (marks + Timeline(rec, IntField(item.duration), key) + Rating(rec.userRating, key), None)
  }

  /** On an item with a positive duration the two importers agree; the older one fails exactly on a percent against a missing duration. */
  lemma LegacyAgrees(rec: ItemRecord, item: DestItem, key: int)
    ensures IntField(item.duration) > 0 ==> LegacyItemActions(rec, item, key) == (ItemActions(rec, item, key), None)
    ensures LegacyItemActions(rec, item, key).1.Some? <==> Percent(rec) > 0 && item.duration.None?
    ensures LegacyItemActions(rec, item, key).1.Some? ==> LegacyItemActions(rec, item, key).1 == Some(NoDuration(key))
  {
  }

  /** A record written for a half-watched movie, imported onto a copy whose duration is unknown. */
  const HalfWatched := ItemRecord("plex://movie/5d776b59ad5437001f7c5bd3", "Title", false, 0, 0, "", Some(50), "", "")
  const NoDurationItem := DestItem(false, 0, None)

  /** The older script stops the whole import on that item; the current one passes it by without a call. */
  lemma LegacyCrashesOnMissingDuration()
    ensures LegacyItemActions(HalfWatched, NoDurationItem, 7) == ([], Some(NoDuration(7)))
    ensures ItemActions(HalfWatched, NoDurationItem, 7) == []
  {
    assert Replay(7, 0) == [];
  }

  /** A show's record as the importers read it: its flags and its episodes in file order. */
  datatype ShowDoc = ShowDoc(watched: bool, userRating: string, episodes: seq<(string, ItemRecord)>)

  /** One user's part of the history file: movies and shows by guid, in file order. */
  datatype UserDoc = UserDoc(movie: seq<(string, ItemRecord)>, show: seq<(string, ShowDoc)>)

  /** A show item gets a mark and a rating only: no replay, no timeline and no duration check. */
  function ShowActions(doc: ShowDoc, item: DestItem, key: int): seq<Action> {
    (if doc.watched && !item.isWatched then [MarkWatched(key)] else []) + Rating(doc.userRating, key)
  }

  lemma ShowActionsShape(doc: ShowDoc, item: DestItem, key: int)
    ensures Tally(ShowActions(doc, item, key), 0) == if doc.watched && !item.isWatched then 1 else 0
    ensures Tally(ShowActions(doc, item, key), 1) == 0
    ensures Tally(ShowActions(doc, item, key), 2) == if doc.userRating != "" then 1 else 0
    ensures Ordered(ShowActions(doc, item, key))
    ensures OnKey(ShowActions(doc, item, key), key)
  {
    var m := if doc.watched && !item.isWatched then [MarkWatched(key)] else [];
    var g := Rating(doc.userRating, key);
    assert ShowActions(doc, item, key) == m + [] + g;
    assert AllRank(m, 0) && AllRank([], 1) && AllRank(g, 2);
    OrderedRuns(m, [], g);
    TallyRuns(m, [], g, 0);
    TallyRuns(m, [], g, 1);
    TallyRuns(m, [], g, 2);
  }

  /**
   * What the server makes of the marks: `markWatched` scrobbles, so the item becomes
   * watched and counts one more view. Timeline updates and ratings do not change what the
   * importer reads.
   */
  function Scrobble(item: DestItem, acts: seq<Action>): (r: DestItem)
    ensures r.duration == item.duration
    decreases |acts|
  {
    if |acts| == 0 then item
    else
      var before := Scrobble(item, acts[..|acts| - 1]);
      if acts[|acts| - 1].MarkWatched? then before.(isWatched := true, viewCount := before.viewCount + 1) else before
  }

  lemma {:induction false} ScrobbleTally(item: DestItem, acts: seq<Action>)
    ensures Scrobble(item, acts).viewCount == item.viewCount + Tally(acts, 0)
    ensures Scrobble(item, acts).isWatched == (item.isWatched || Tally(acts, 0) > 0)
    decreases |acts|
  {
    if |acts| > 0 {
      ScrobbleTally(item, acts[..|acts| - 1]);
    }
  }

  /**
   * Importing a record brings an item with a duration up to it: afterwards the item has at
   * least the record's views and is watched when the record is, so importing the same
   * record again issues no mark at all.
   */
  lemma ImportSettles(rec: ItemRecord, item: DestItem, key: int)
    requires IntField(item.duration) > 0
    ensures Scrobble(item, ItemActions(rec, item, key)).viewCount >= rec.viewCount
    ensures rec.watched ==> Scrobble(item, ItemActions(rec, item, key)).isWatched
    ensures Tally(ItemActions(rec, Scrobble(item, ItemActions(rec, item, key)), key), 0) == 0
  {
    var after := Scrobble(item, ItemActions(rec, item, key));
    ItemActionsCounts(rec, item, key);
    ScrobbleTally(item, ItemActions(rec, item, key));
    ItemActionsCounts(rec, after, key);
  }

  // ---------------------------------------------------------------------------------------
  // The import state and the rating-key memo

  /** The calls issued so far, and the exception that ended the import, if any. */
  datatype Progress = Progress(log: seq<Action>, failure: Option<Failure>)

  /** q carries on from p: the log only grows, and a failure, once there, ends everything. */
  predicate Advances(p: Progress, q: Progress) {
    p.log <= q.log && (p.failure.Some? ==> q == p)
  }

  lemma AdvancesTrans(p: Progress, q: Progress, r: Progress)
    requires Advances(p, q) && Advances(q, r)
    ensures Advances(p, r)
  {
  }

  /**
   * The importer's state: the three module-level guid → rating keys memos (shared by the
   * owner and every user), the guids searched so far, and the progress of the import.
   */
  datatype ImportState = ImportState(
    movieKeys: map<string, seq<int>>,
    showKeys: map<string, seq<int>>,
    episodeKeys: map<string, seq<int>>,
    searched: seq<string>,
    run: Progress)
  {
    function KeyMap(kind: Kind): map<string, seq<int>> {
      match kind
      case MovieKind => movieKeys
      case ShowKind => showKeys
      case EpisodeKind => episodeKeys
    }

    function WithKeys(kind: Kind, guid: string, keys: seq<int>): (r: ImportState)
      ensures r.KeyMap(kind) == KeyMap(kind)[guid := keys]
      ensures forall other :: other != kind ==> r.KeyMap(other) == KeyMap(other)
      ensures r.searched == searched && r.run == run
    {
      match kind
      case MovieKind => this.(movieKeys := movieKeys[guid := keys])
      case ShowKind => this.(showKeys := showKeys[guid := keys])
      case EpisodeKind => this.(episodeKeys := episodeKeys[guid := keys])
    }
  }

  const Start := ImportState(map[], map[], map[], [], Progress([], None))

  /** s2 follows s1: its progress carries on from s1's, and after a failure nothing changes at all. */
  predicate Follows(s1: ImportState, s2: ImportState) {
    Advances(s1.run, s2.run) && (s1.run.failure.Some? ==> s2 == s1)
  }

  lemma FollowsTrans(s1: ImportState, s2: ImportState, s3: ImportState)
    requires Follows(s1, s2) && Follows(s2, s3)
    ensures Follows(s1, s3)
  {
  }

  /**
   * `_get_rating_keys(server, mapping, guid)`: a guid already in the memo answers from it
   * without a search; a new guid is searched once on this server and its keys stored.
   * Nothing else in the state changes.
   */
  function RatingKeys(s: ImportState, server: Server, kind: Kind, guid: string): (r: (seq<int>, ImportState))
    ensures guid in r.1.KeyMap(kind) && r.0 == r.1.KeyMap(kind)[guid]
    ensures guid in s.KeyMap(kind) ==> r.1 == s
    ensures guid !in s.KeyMap(kind) ==> r.0 == Search(server, guid) && r.1.searched == s.searched + [guid]
    ensures forall k, g :: g in s.KeyMap(k) ==> g in r.1.KeyMap(k) && r.1.KeyMap(k)[g] == s.KeyMap(k)[g]
    ensures forall k, g :: g in r.1.KeyMap(k) ==> g in s.KeyMap(k) || (k == kind && g == guid)
    ensures r.1.run == s.run
  {
    if guid in s.KeyMap(kind) then (s.KeyMap(kind)[guid], s)
    else
      var keys := Search(server, guid);
      (keys, s.WithKeys(kind, guid, keys).(searched := s.searched + [guid]))
  }

  /** Asking again, on any server, answers from the memo: same keys, no search, same state. */
  lemma RatingKeysRepeat(s: ImportState, server: Server, other: Server, kind: Kind, guid: string)
    ensures RatingKeys(RatingKeys(s, server, kind, guid).1, other, kind, guid) == RatingKeys(s, server, kind, guid)
  {
  }

  // ---------------------------------------------------------------------------------------
  // The passes

  /**
   * The rule an importer applies to one item of a movie or an episode record: the calls it
   * issues, and the exception that stops the import there, if any.
   */
  type Outcome = (ItemRecord, DestItem, int) -> (seq<Action>, Option<Failure>)

  function ItemOutcome(legacy: bool): Outcome {
    (rec: ItemRecord, item: DestItem, key: int) =>
      if legacy then LegacyItemActions(rec, item, key) else (ItemActions(rec, item, key), None)
  }

  /** The current importer's rule never raises. */
  lemma CurrentNeverFails(rec: ItemRecord, item: DestItem, key: int)
    ensures ItemOutcome(false)(rec, item, key) == (ItemActions(rec, item, key), None)
  {
  }

  /** The three cases of either importer's rule on an item. */
  lemma OutcomeCases(legacy: bool, rec: ItemRecord, item: DestItem, key: int)
    ensures !legacy && IntField(item.duration) <= 0 ==> ItemOutcome(legacy)(rec, item, key) == ([], None)
    ensures (legacy || IntField(item.duration) > 0) && Percent(rec) > 0 && item.duration.None? ==>
      ItemOutcome(legacy)(rec, item, key) == (Marks(rec.watched, rec.viewCount, item, key), Some(NoDuration(key)))
    ensures (legacy || IntField(item.duration) > 0) && !(Percent(rec) > 0 && item.duration.None?) ==>
      ItemOutcome(legacy)(rec, item, key) == (Marks(rec.watched, rec.viewCount, item, key) + Timeline(rec, IntField(item.duration), key)
        + Rating(rec.userRating, key), None)
  {
  }

  /** The body of the loop over one guid's rating keys, for a movie or an episode record. */
  function ApplyItem(outcome: Outcome, p: Progress, server: Server, key: int, rec: ItemRecord): (r: Progress)
    ensures Advances(p, r)
  {
    if p.failure.Some? then p
    else if key !in server.items then p.(failure := Some(NotFound(key)))
    else
      var out := outcome(rec, server.items[key], key);
      Progress(p.log + out.0, out.1)
  }

  function ApplyShowItem(p: Progress, server: Server, key: int, doc: ShowDoc): (r: Progress)
    ensures Advances(p, r)
  {
    if p.failure.Some? then p
    else if key !in server.items then p.(failure := Some(NotFound(key)))
    else p.(log := p.log + ShowActions(doc, server.items[key], key))
  }

  /** `for rating_key in rating_keys:` over a movie or an episode record. */
  function ApplyKeys(outcome: Outcome, p: Progress, server: Server, keys: seq<int>, rec: ItemRecord): (r: Progress)
    ensures Advances(p, r)
    decreases |keys|
  {
    if |keys| == 0 then p
    else
      var n := |keys| - 1;
      var prev := ApplyKeys(outcome, p, server, keys[..n], rec);
      var r := ApplyItem(outcome, prev, server, keys[n], rec);
      AdvancesTrans(p, prev, r);
      r
  }

  function ApplyShowKeys(p: Progress, server: Server, keys: seq<int>, doc: ShowDoc): (r: Progress)
    ensures Advances(p, r)
    decreases |keys|
  {
    if |keys| == 0 then p
    else
      var n := |keys| - 1;
      var prev := ApplyShowKeys(p, server, keys[..n], doc);
      var r := ApplyShowItem(prev, server, keys[n], doc);
      AdvancesTrans(p, prev, r);
      r
  }

  lemma ApplyKeysStep(outcome: Outcome, p: Progress, server: Server, keys: seq<int>, rec: ItemRecord, i: int, prev: Progress, next: Progress)
    requires 0 <= i < |keys|
    requires prev == ApplyKeys(outcome, p, server, keys[..i], rec)
    requires next == ApplyItem(outcome, prev, server, keys[i], rec)
    ensures next == ApplyKeys(outcome, p, server, keys[..i + 1], rec)
  {
    assert keys[..i + 1][..i] == keys[..i];
  }

  lemma ApplyShowKeysStep(p: Progress, server: Server, keys: seq<int>, doc: ShowDoc, i: int, prev: Progress, next: Progress)
    requires 0 <= i < |keys|
    requires prev == ApplyShowKeys(p, server, keys[..i], doc)
    requires next == ApplyShowItem(prev, server, keys[i], doc)
    ensures next == ApplyShowKeys(p, server, keys[..i + 1], doc)
  {
    assert keys[..i + 1][..i] == keys[..i];
  }

  /** Every key is on the server and its item's rule does not raise. */
  predicate AllClear(outcome: Outcome, server: Server, keys: seq<int>, rec: ItemRecord) {
    forall k :: 0 <= k < |keys| ==> keys[k] in server.items && outcome(rec, server.items[keys[k]], keys[k]).1.None?
  }

  /** The calls of every key in key order, when all of them are clear. */
  function KeysActions(outcome: Outcome, server: Server, keys: seq<int>, rec: ItemRecord): seq<Action>
    requires AllClear(outcome, server, keys, rec)
    decreases |keys|
  {
    if |keys| == 0 then []
    else
      var n := |keys| - 1;
      assert AllClear(outcome, server, keys[..n], rec) by {
        forall k | 0 <= k < n ensures keys[..n][k] == keys[k] {
        }
      }
      KeysActions(outcome, server, keys[..n], rec) + outcome(rec, server.items[keys[n]], keys[n]).0
  }

  /** When all keys are clear the loop runs through without failing and issues each key's calls in turn. */
  lemma {:induction false} ApplyKeysAllClear(outcome: Outcome, log: seq<Action>, server: Server, keys: seq<int>, rec: ItemRecord)
    requires AllClear(outcome, server, keys, rec)
    ensures ApplyKeys(outcome, Progress(log, None), server, keys, rec) == Progress(log + KeysActions(outcome, server, keys, rec), None)
    decreases |keys|
  {
    if |keys| > 0 {
      var n := |keys| - 1;
      assert AllClear(outcome, server, keys[..n], rec) by {
        forall k | 0 <= k < n ensures keys[..n][k] == keys[k] {
        }
      }
      ApplyKeysAllClear(outcome, log, server, keys[..n], rec);
    }
  }

  /** A rating key the server does not have ends the import: the loop comes out failed. */
  lemma {:induction false} ApplyKeysMissing(outcome: Outcome, p: Progress, server: Server, keys: seq<int>, rec: ItemRecord, i: int)
    requires 0 <= i < |keys| && keys[i] !in server.items
    ensures ApplyKeys(outcome, p, server, keys, rec).failure.Some?
    decreases |keys|
  {
    var n := |keys| - 1;
    if i < n {
      ApplyKeysMissing(outcome, p, server, keys[..n], rec, i);
    }
  }

  /** One movie or episode of the history: its rating keys, then each key's actions. */
  function ApplyRecord(legacy: bool, s: ImportState, server: Server, kind: Kind, guid: string, rec: ItemRecord): (r: ImportState)
    ensures Follows(s, r)
  {
    if s.run.failure.Some? then s
    else
      var found := RatingKeys(s, server, kind, guid);
      found.1.(run := ApplyKeys(ItemOutcome(legacy), found.1.run, server, found.0, rec))
  }

  /** The loop over `movie_history.items()`, and over a show's `episodes` (the same code). */
  function ApplyRecords(legacy: bool, s: ImportState, server: Server, kind: Kind, entries: seq<(string, ItemRecord)>): (r: ImportState)
    ensures Follows(s, r)
    decreases |entries|
  {
    if |entries| == 0 then s
    else
      var n := |entries| - 1;
      var prev := ApplyRecords(legacy, s, server, kind, entries[..n]);
      var r := ApplyRecord(legacy, prev, server, kind, entries[n].0, entries[n].1);
      FollowsTrans(s, prev, r);
      r
  }

  lemma ApplyRecordsStep(legacy: bool, s: ImportState, server: Server, kind: Kind, entries: seq<(string, ItemRecord)>, i: int,
                         prev: ImportState, next: ImportState)
    requires 0 <= i < |entries|
    requires prev == ApplyRecords(legacy, s, server, kind, entries[..i])
    requires next == ApplyRecord(legacy, prev, server, kind, entries[i].0, entries[i].1)
    ensures next == ApplyRecords(legacy, s, server, kind, entries[..i + 1])
  {
    assert entries[..i + 1][..i] == entries[..i];
  }

  /**
   * One show of the history: its rating keys get the show's actions, and then its episodes
   * are applied, whether or not the show's guid found any item.
   */
  function ApplyShow(legacy: bool, s: ImportState, server: Server, guid: string, doc: ShowDoc): (r: ImportState)
    ensures Follows(s, r)
  {
    if s.run.failure.Some? then s
    else
      var found := RatingKeys(s, server, ShowKind, guid);
      var shown := found.1.(run := ApplyShowKeys(found.1.run, server, found.0, doc));
      var r := ApplyRecords(legacy, shown, server, EpisodeKind, doc.episodes);
      FollowsTrans(s, shown, r);
      r
  }

  /** A show whose guid finds no item still has its episodes applied, after only the show's search. */
  lemma ShowWithoutItems(legacy: bool, s: ImportState, server: Server, guid: string, doc: ShowDoc)
    requires s.run.failure.None?
    requires RatingKeys(s, server, ShowKind, guid).0 == []
    ensures ApplyShow(legacy, s, server, guid, doc)
      == ApplyRecords(legacy, RatingKeys(s, server, ShowKind, guid).1, server, EpisodeKind, doc.episodes)
  {
  }

  function ApplyShows(legacy: bool, s: ImportState, server: Server, shows: seq<(string, ShowDoc)>): (r: ImportState)
    ensures Follows(s, r)
    decreases |shows|
  {
    if |shows| == 0 then s
    else
      var n := |shows| - 1;
      var prev := ApplyShows(legacy, s, server, shows[..n]);
      var r := ApplyShow(legacy, prev, server, shows[n].0, shows[n].1);
      FollowsTrans(s, prev, r);
      r
  }

  lemma ApplyShowsStep(legacy: bool, s: ImportState, server: Server, shows: seq<(string, ShowDoc)>, i: int,
                       prev: ImportState, next: ImportState)
    requires 0 <= i < |shows|
    requires prev == ApplyShows(legacy, s, server, shows[..i])
    requires next == ApplyShow(legacy, prev, server, shows[i].0, shows[i].1)
    ensures next == ApplyShows(legacy, s, server, shows[..i + 1])
  {
    assert shows[..i + 1][..i] == shows[..i];
  }

  /** `_set_user_server_watched_history`: all movies first, then all shows. */
  function ApplyUser(legacy: bool, s: ImportState, server: Server, doc: UserDoc): (r: ImportState)
    ensures Follows(s, r)
    ensures Follows(ApplyRecords(legacy, s, server, MovieKind, doc.movie), r)
  {
    var movies := ApplyRecords(legacy, s, server, MovieKind, doc.movie);
    var r := ApplyShows(legacy, movies, server, doc.show);
    FollowsTrans(s, movies, r);
    r
  }

  // ---------------------------------------------------------------------------------------
  // The choice of users in `main`

  /** `value in CHECK_USERS`: only a string can be in a list of strings, and only exactly. */
  predicate Listed(v: Value, checkUsers: seq<string>) {
    v.Str? && v.s in checkUsers
  }

  /** The allow list admits everyone when empty, else an account whose username, email or title is on it. */
  predicate Allowed(checkUsers: seq<string>, a: User) {
    |checkUsers| == 0 || Listed(a.username, checkUsers) || Listed(a.email, checkUsers) || Listed(a.title, checkUsers)
  }

  /** A setting that is blank once stripped leaves the allow list empty, so every account is admitted. */
  lemma BlankSettingAdmitsEveryone(raw: string)
    requires ConfigStr(raw) == ""
    ensures CheckUsers(raw) == []
    ensures forall a: User :: Allowed(CheckUsers(raw), a)
  {
    assert IndexOf("", ',') == -1;
    assert Split("", ',') == [""];
  }

  /** The list of a setting like `"a, ,b"` admits, besides `a` and `b`, any account with an empty username, email or title. */
  lemma BlankPieceAdmitsEmptyName(x: string, blank: string, y: string, a: User)
    requires PlainName(x) && Blank(blank) && PlainName(y)
    ensures var names := {Str(x), Str(""), Str(y)};
      Allowed(CheckUsers(x + [','] + blank + [','] + y), a) <==> a.username in names || a.email in names || a.title in names
  {
    CheckUsersBlankPiece(x, blank, y);
    AllowedThree(CheckUsers(x + [','] + blank + [','] + y), x, y, a);
  }

  lemma AllowedThree(checkUsers: seq<string>, x: string, y: string, a: User)
    requires checkUsers == [x, "", y]
    ensures var names := {Str(x), Str(""), Str(y)};
      Allowed(checkUsers, a) <==> a.username in names || a.email in names || a.title in names
  {
  }

  /** Whether `PlexServer(url, user_token)` lets the user in: Unauthorized when no library is shared. */
  datatype Login = Unauthorized | Authorized(server: Server)

  /** A user of the owner's account, and the server as that user sees it. */
  datatype Member = Member(account: User, login: Login)

  datatype SkipReason = NotAllowed | EmptyUsername | MissingHistory | NoLibrariesShared

  datatype Decision = Skip(reason: SkipReason) | Process(name: string, server: Server)

  /** The checks of the user loop, in their order. */
  function Decide(checkUsers: seq<string>, history: map<string, UserDoc>, m: Member): (d: Decision)
    ensures d.Process? ==> d.name in history
  {
    var name := GetUsername(m.account);
    if !Allowed(checkUsers, m.account) then Skip(NotAllowed)
    else if name == "" then Skip(EmptyUsername)
    else if name !in history then Skip(MissingHistory)
    else if m.login.Unauthorized? then Skip(NoLibrariesShared)
    else Process(name, m.login.server)
  }

  /** One turn of the user loop: a skipped user is passed by, the next one still comes. */
  function UserTurn(legacy: bool, s: ImportState, checkUsers: seq<string>, history: map<string, UserDoc>, m: Member): (r: ImportState)
    ensures Follows(s, r)
  {
    match Decide(checkUsers, history, m)
    case Skip(_) => s
    case Process(name, server) => ApplyUser(legacy, s, server, history[name])
  }

  /**
   * A user is imported exactly when the allow list admits them, their name is non-empty and
   * in the history, and the server lets them in; it is imported under that name on the
   * server it sees, and a user who is not imported changes nothing.
   */
  lemma DecideIff(legacy: bool, s: ImportState, checkUsers: seq<string>, history: map<string, UserDoc>, m: Member)
    ensures Decide(checkUsers, history, m).Process? <==>
      Allowed(checkUsers, m.account) && GetUsername(m.account) != "" && GetUsername(m.account) in history && m.login.Authorized?
    ensures Decide(checkUsers, history, m).Process? ==>
      UserTurn(legacy, s, checkUsers, history, m) == ApplyUser(legacy, s, m.login.server, history[GetUsername(m.account)])
    ensures !Decide(checkUsers, history, m).Process? ==> UserTurn(legacy, s, checkUsers, history, m) == s
  {
  }

  function ApplyUsers(legacy: bool, s: ImportState, checkUsers: seq<string>, history: map<string, UserDoc>, users: seq<Member>): (r: ImportState)
    ensures Follows(s, r)
    decreases |users|
  {
    if |users| == 0 then s
    else
      var n := |users| - 1;
      var prev := ApplyUsers(legacy, s, checkUsers, history, users[..n]);
      var r := UserTurn(legacy, prev, checkUsers, history, users[n]);
      FollowsTrans(s, prev, r);
      r
  }

  lemma ApplyUsersStep(legacy: bool, s: ImportState, checkUsers: seq<string>, history: map<string, UserDoc>, users: seq<Member>, i: int,
                       prev: ImportState, next: ImportState)
    requires 0 <= i < |users|
    requires prev == ApplyUsers(legacy, s, checkUsers, history, users[..i])
    requires next == UserTurn(legacy, prev, checkUsers, history, users[i])
    ensures next == ApplyUsers(legacy, s, checkUsers, history, users[..i + 1])
  {
    assert users[..i + 1][..i] == users[..i];
  }

  /** The owner comes first, on the owner's own server, and without the empty-name or missing-history skips. */
  function OwnerTurn(legacy: bool, s: ImportState, checkUsers: seq<string>, history: map<string, UserDoc>, owner: User, server: Server): (r: ImportState)
    ensures Follows(s, r)
    ensures !Allowed(checkUsers, owner) ==> r == s
    ensures s.run.failure.None? && Allowed(checkUsers, owner) && GetUsername(owner) !in history ==>
      r == s.(run := Progress(s.run.log, Some(MissingOwnerHistory(GetUsername(owner)))))
  {
    if s.run.failure.Some? || !Allowed(checkUsers, owner) then s
    else
      var name := GetUsername(owner);
      if name !in history then s.(run := Progress(s.run.log, Some(MissingOwnerHistory(name))))
      else ApplyUser(legacy, s, server, history[name])
  }

  /** `main` after the configuration is read: the owner, then every user in the account's order. */
  function ImportAll(legacy: bool, checkUsers: seq<string>, history: map<string, UserDoc>, owner: User, server: Server, users: seq<Member>): (r: ImportState)
    ensures Follows(OwnerTurn(legacy, Start, checkUsers, history, owner, server), r)
  {
    ApplyUsers(legacy, OwnerTurn(legacy, Start, checkUsers, history, owner, server), checkUsers, history, users)
  }
}
