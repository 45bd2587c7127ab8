/**
 * The settings of the importers as `_get_config_str` and `_load_config` read them: the
 * raw string stripped of quotes and whitespace, and the `sync.check_users` allow list
 * split on commas.
 */
module Settings {
  import opened Text

  /** Six of the ASCII characters Python's `str.strip()` removes: space, tab, LF, CR, VT and FF. */
  function IsSpace(c: char): bool {
    c == ' ' || c == '\t' || c == '\n' || c == '\r' || c as int == 11 || c as int == 12
  }

  function IsSingleQuote(c: char): bool {
    c == '\''
  }

  function IsDoubleQuote(c: char): bool {
    c == '"'
  }

  /** `s` without the leading characters that `drop` holds of. */
  function StripStart(s: string, drop: char -> bool): (r: string)
    ensures |r| <= |s| && r == s[|s| - |r|..]
    ensures |r| > 0 ==> !drop(r[0])
    decreases |s|
  {
    if |s| > 0 && drop(s[0]) then StripStart(s[1..], drop) else s
  }

  /** `s` without the trailing characters that `drop` holds of. */
  function StripEnd(s: string, drop: char -> bool): (r: string)
    ensures |r| <= |s| && r == s[..|r|]
    ensures |r| > 0 ==> !drop(r[|r| - 1])
    decreases |s|
  {
    if |s| > 0 && drop(s[|s| - 1]) then StripEnd(s[..|s| - 1], drop) else s
  }

  /** Stripping the front removes only droppable characters. */
  lemma {:induction false} StripStartDrops(s: string, drop: char -> bool)
    ensures forall k :: 0 <= k < |s| - |StripStart(s, drop)| ==> drop(s[k])
    decreases |s|
  {
    if |s| > 0 && drop(s[0]) {
      var t := s[1..];
      StripStartDrops(t, drop);
      assert forall k :: 1 <= k < |s| - |StripStart(t, drop)| ==> s[k] == t[k - 1];
    }
  }

  /** Stripping the back removes only droppable characters. */
  lemma {:induction false} StripEndDrops(s: string, drop: char -> bool)
    ensures forall k :: |StripEnd(s, drop)| <= k < |s| ==> drop(s[k])
    decreases |s|
  {
    if |s| > 0 && drop(s[|s| - 1]) {
      var t := s[..|s| - 1];
      StripEndDrops(t, drop);
      assert forall k :: |StripEnd(t, drop)| <= k < |t| ==> s[k] == t[k];
    }
  }

  /** `str.strip(chars)`: both ends stripped of the characters that `drop` holds of. */
  function StripBy(s: string, drop: char -> bool): (r: string)
    ensures |r| > 0 ==> !drop(r[0]) && !drop(r[|r| - 1])
    ensures |r| <= |s|
  {
    var t := StripStart(s, drop);
    var r := StripEnd(t, drop);
    assert |r| > 0 ==> r[0] == t[0];
    r
  }

  /** `str.strip()`, restricted to the six characters of `IsSpace`. */
  function Strip(s: string): string {
    StripBy(s, IsSpace)
  }

  /** `_get_config_str`: the raw setting stripped of single quotes, then of double quotes, then of whitespace. */
  function ConfigStr(raw: string): (r: string)
    ensures |r| > 0 ==> !IsSpace(r[0]) && !IsSpace(r[|r| - 1])
    ensures |r| <= |raw|
  {
    Strip(StripBy(StripBy(raw, IsSingleQuote), IsDoubleQuote))
  }

  /** `[f(piece) for piece in pieces if piece]`. */
  function MapNonEmpty(pieces: seq<string>, f: string -> string): (r: seq<string>)
    ensures |r| <= |pieces|
    decreases |pieces|
  {
    if |pieces| == 0 then []
    else
      var n := |pieces| - 1;
      MapNonEmpty(pieces[..n], f) + (if pieces[n] != "" then [f(pieces[n])] else [])
  }

  /**
   * `CHECK_USERS` from the configured `sync.check_users` string:
   * `[user.strip() for user in _get_config_str(…).split(",") if user]`.
   */
  function CheckUsers(raw: string): seq<string> {
    MapNonEmpty(Split(ConfigStr(raw), ','), Strip)
  }

  lemma MapNonEmptySnoc(pieces: seq<string>, piece: string, f: string -> string)
    ensures MapNonEmpty(pieces + [piece], f) == MapNonEmpty(pieces, f) + (if piece != "" then [f(piece)] else [])
  {
    assert (pieces + [piece])[..|pieces|] == pieces;
  }

  /** The list holds exactly the images of the non-empty pieces; an all-blank piece is kept, and becomes "". */
  lemma {:induction false} MapNonEmptyIff(pieces: seq<string>, f: string -> string, name: string)
    ensures name in MapNonEmpty(pieces, f) <==> exists k :: 0 <= k < |pieces| && pieces[k] != "" && f(pieces[k]) == name
    decreases |pieces|
  {
    if |pieces| > 0 {
      var n := |pieces| - 1;
      var init := pieces[..n];
      MapNonEmptyIff(init, f, name);
      if name in MapNonEmpty(init, f) {
        var k :| 0 <= k < n && init[k] != "" && f(init[k]) == name;
        assert pieces[k] == init[k];
      }
      if exists k :: 0 <= k < |pieces| && pieces[k] != "" && f(pieces[k]) == name {
        var k :| 0 <= k < |pieces| && pieces[k] != "" && f(pieces[k]) == name;
        if k < n {
          assert init[k] == pieces[k];
        }
      }
    }
  }

  /**
   * `str.strip(chars)` removes droppable characters at the ends and nothing else: the result is the
   * slice of `s` from some `i` on, and everything before `i` and after the slice is droppable.
   */
  lemma StripByRemovesOnlyEnds(s: string, drop: char -> bool)
    ensures var r := StripBy(s, drop); var i := |s| - |StripStart(s, drop)|;
      && (|r| > 0 ==> !drop(r[0]) && !drop(r[|r| - 1]))
      && i + |r| <= |s|
      && (forall k :: 0 <= k < i ==> drop(s[k]))
      && (forall k :: 0 <= k < |r| ==> r[k] == s[i + k])
      && (forall k :: i + |r| <= k < |s| ==> drop(s[k]))
  {
    StripStartDrops(s, drop);
    StripBySlice(s, drop);
    StripByTail(s, drop);
  }

  /** The strip of `s` sits in `s` right after the characters `StripStart` removed. */
  lemma StripBySlice(s: string, drop: char -> bool)
    ensures var r := StripBy(s, drop); var i := |s| - |StripStart(s, drop)|;
      i + |r| <= |s| && forall k :: 0 <= k < |r| ==> r[k] == s[i + k]
  {
    var t := StripStart(s, drop);
    var r := StripEnd(t, drop);
    var i := |s| - |t|;
    forall k | 0 <= k < |r|
      ensures r[k] == s[i + k]
    {
      calc {
        r[k];
        t[..|r|][k];
        t[k];
        s[i..][k];
      }
    }
  }

  /** Everything after the strip of `s` is droppable. */
  lemma StripByTail(s: string, drop: char -> bool)
    ensures var r := StripBy(s, drop); var i := |s| - |StripStart(s, drop)|;
      forall k :: i + |r| <= k < |s| ==> drop(s[k])
  {
    var t := StripStart(s, drop);
    var i := |s| - |t|;
    StripEndDrops(t, drop);
    forall k | i + |StripEnd(t, drop)| <= k < |s|
      ensures drop(s[k])
    {
      assert s[k] == t[k - i];
    }
  }

  /** A quote or whitespace character: what `_get_config_str` may remove. */
  predicate QuoteOrSpace(c: char) {
    c == '\'' || c == '"' || IsSpace(c)
  }

  /** `r` is `s[i..i + |r|]`, and every character of `s` around it is a quote or whitespace. */
  predicate Framed(s: string, r: string, i: nat) {
    && i + |r| <= |s|
    && (forall k :: 0 <= k < i ==> QuoteOrSpace(s[k]))
    && (forall k :: 0 <= k < |r| ==> r[k] == s[i + k])
    && (forall k :: i + |r| <= k < |s| ==> QuoteOrSpace(s[k]))
  }

  /** Framing composes: a framed piece of a framed piece is framed in the whole. */
  lemma FramedTrans(s: string, t: string, i: nat, r: string, j: nat, n: nat)
    requires Framed(s, t, i) && Framed(t, r, j) && n == i + j
    ensures Framed(s, r, n)
  {
    forall k | i <= k < i + j
      ensures QuoteOrSpace(s[k])
    {
      assert s[k] == t[k - i];
    }
    forall k | i + j + |r| <= k < i + |t|
      ensures QuoteOrSpace(s[k])
    {
      assert s[k] == t[k - i];
    }
  }

  /** A strip by quotes or by whitespace is framed. */
  lemma StripByFramed(s: string, drop: char -> bool) returns (i: nat)
    requires forall c :: drop(c) ==> QuoteOrSpace(c)
    ensures Framed(s, StripBy(s, drop), i)
  {
    StripByRemovesOnlyEnds(s, drop);
    i := |s| - |StripStart(s, drop)|;
  }

  /**
   * `_get_config_str` removes only surrounding quotes and whitespace: the setting as read
   * is a slice of the raw string, and every character around that slice is a quote or whitespace.
   */
  lemma ConfigStrRemovesOnlyEnds(raw: string) returns (i: nat)
    ensures Framed(raw, ConfigStr(raw), i)
  {
    var b := StripBy(StripBy(raw, IsSingleQuote), IsDoubleQuote);
    var i12 := QuotesFramed(raw);
    var i3 := StripByFramed(b, IsSpace);
    i := i12 + i3;
    FramedTrans(raw, b, i12, StripBy(b, IsSpace), i3, i);
    ConfigStrIsThreeStrips(raw);
  }

  /** The two quote strips together are framed. */
  lemma QuotesFramed(raw: string) returns (i: nat)
    ensures Framed(raw, StripBy(StripBy(raw, IsSingleQuote), IsDoubleQuote), i)
  {
    var a := StripBy(raw, IsSingleQuote);
    var i1 := StripByFramed(raw, IsSingleQuote);
    var i2 := StripByFramed(a, IsDoubleQuote);
    i := i1 + i2;
    FramedTrans(raw, a, i1, StripBy(a, IsDoubleQuote), i2, i);
  }

  /** `ConfigStr` is the three strips in a row. */
  lemma ConfigStrIsThreeStrips(raw: string)
    ensures ConfigStr(raw) == StripBy(StripBy(StripBy(raw, IsSingleQuote), IsDoubleQuote), IsSpace)
  {
  }

  /** A name in single or in double quotes reads as the bare name, as in `'alice,bob'`. */
  lemma ConfigStrQuoted(name: string)
    requires |name| > 0 && !QuoteOrSpace(name[0]) && !QuoteOrSpace(name[|name| - 1])
    ensures ConfigStr(['\''] + name + ['\'']) == name
    ensures ConfigStr(['"'] + name + ['"']) == name
  {
    UnquoteOne(name, '\'', IsSingleQuote);
    UnquoteOne(name, '"', IsDoubleQuote);
    StripByKeeps(name, IsSingleQuote);
    StripByKeeps(name, IsDoubleQuote);
    StripByKeeps(name, IsSpace);
  }

  /** Stripping `q` from `q + name + q` gives `name` when `name` neither starts nor ends with `q`. */
  lemma UnquoteOne(name: string, q: char, drop: char -> bool)
    requires forall c :: drop(c) <==> c == q
    requires |name| > 0 && name[0] != q && name[|name| - 1] != q
    ensures StripBy([q] + name + [q], drop) == name
  {
    var s := [q] + name + [q];
    assert s[1..] == name + [q];
    assert StripStart(s, drop) == name + [q];
    assert (name + [q])[..|name|] == name;
    assert StripEnd(name + [q], drop) == name;
  }

  /** A string that starts and ends with a character `drop` does not hold of is its own `StripBy`. */
  lemma StripByKeeps(s: string, drop: char -> bool)
    requires |s| > 0 && !drop(s[0]) && !drop(s[|s| - 1])
    ensures StripBy(s, drop) == s
  {
    assert StripStart(s, drop) == s;
    assert StripEnd(s, drop) == s;
  }

  /** A setting with no quote or whitespace at either end reaches the split unchanged. */
  lemma ConfigStrKeeps(raw: string)
    requires |raw| > 0
    requires raw[0] != '\'' && raw[0] != '"' && !IsSpace(raw[0])
    requires raw[|raw| - 1] != '\'' && raw[|raw| - 1] != '"' && !IsSpace(raw[|raw| - 1])
    ensures ConfigStr(raw) == raw
  {
    StripByKeeps(raw, IsSingleQuote);
    StripByKeeps(raw, IsDoubleQuote);
    StripByKeeps(raw, IsSpace);
  }

  /** A string with no whitespace at either end is its own strip. */
  lemma StripKeeps(s: string)
    requires |s| > 0 && !IsSpace(s[0]) && !IsSpace(s[|s| - 1])
    ensures Strip(s) == s
  {
    StripByKeeps(s, IsSpace);
  }

  /** A piece that is all whitespace strips to "". */
  lemma {:induction false} StripBlank(s: string)
    requires forall k :: 0 <= k < |s| ==> IsSpace(s[k])
    ensures StripStart(s, IsSpace) == "" && Strip(s) == ""
    decreases |s|
  {
    if |s| > 0 {
      StripBlank(s[1..]);
    }
  }

  lemma BlankIsCommaFree(blank: string)
    requires forall k :: 0 <= k < |blank| ==> IsSpace(blank[k])
    ensures ',' !in blank
  {
    forall k | 0 <= k < |blank|
      ensures blank[k] != ','
    {
      var c := blank[k];
      if c as int == 11 || c as int == 12 {
        assert c as int != ',' as int;
      }
    }
  }

  /** A non-empty piece of whitespace only. */
  predicate Blank(s: string) {
    |s| > 0 && forall k :: 0 <= k < |s| ==> IsSpace(s[k])
  }

  /** A setting of whitespace only, `" "` say, reads as "". */
  lemma ConfigStrBlank(raw: string)
    requires Blank(raw)
    ensures ConfigStr(raw) == ""
  {
    assert raw[0] != '\'' && raw[|raw| - 1] != '\'' && raw[0] != '"' && raw[|raw| - 1] != '"' by {
      assert IsSpace(raw[0]) && IsSpace(raw[|raw| - 1]);
    }
    StripByKeeps(raw, IsSingleQuote);
    StripByKeeps(raw, IsDoubleQuote);
    StripBlank(raw);
  }

  /** A name as one would write it in the setting: no comma, and no whitespace or quote at either end. */
  predicate PlainName(s: string) {
    && |s| > 0 && ',' !in s
    && s[0] != '\'' && s[0] != '"' && !IsSpace(s[0])
    && s[|s| - 1] != '\'' && s[|s| - 1] != '"' && !IsSpace(s[|s| - 1])
  }

  lemma SplitBlankPiece(x: string, blank: string, y: string)
    requires PlainName(x) && Blank(blank) && PlainName(y)
    ensures Split(x + [','] + blank + [','] + y, ',') == [x, blank, y]
  {
    BlankIsCommaFree(blank);
    assert Join([y], ',') == y;
    JoinCons(blank, [y], ',');
    assert [blank] + [y] == [blank, y];
    JoinCons(x, [blank, y], ',');
    assert [x] + [blank, y] == [x, blank, y];
    assert Join([x, blank, y], ',') == x + [','] + blank + [','] + y;
    SplitJoin([x, blank, y], ',');
  }

  lemma StripBlankPiece(x: string, blank: string, y: string)
    requires PlainName(x) && Blank(blank) && PlainName(y)
    ensures MapNonEmpty([x, blank, y], Strip) == [x, "", y]
  {
    StripKeeps(x);
    StripKeeps(y);
    StripBlank(blank);
    MapNonEmptySnoc([], x, Strip);
    assert [] + [x] == [x];
    MapNonEmptySnoc([x], blank, Strip);
    assert [x] + [blank] == [x, blank];
    MapNonEmptySnoc([x, blank], y, Strip);
    assert [x, blank] + [y] == [x, blank, y];
  }

  /** A setting with no quote or whitespace at either end is split and stripped as it stands. */
  lemma CheckUsersPlain(raw: string, parts: seq<string>, names: seq<string>)
    requires |raw| > 0
    requires raw[0] != '\'' && raw[0] != '"' && !IsSpace(raw[0])
    requires raw[|raw| - 1] != '\'' && raw[|raw| - 1] != '"' && !IsSpace(raw[|raw| - 1])
    requires Split(raw, ',') == parts && MapNonEmpty(parts, Strip) == names
    ensures CheckUsers(raw) == names
  {
    ConfigStrKeeps(raw);
  }

  /** A blank piece between commas is kept, and becomes "": a setting like `"a, ,b"` gives the list `["a", "", "b"]`. */
  lemma CheckUsersBlankPiece(x: string, blank: string, y: string)
    requires PlainName(x) && Blank(blank) && PlainName(y)
    ensures CheckUsers(x + [','] + blank + [','] + y) == [x, "", y]
  {
    var raw := x + [','] + blank + [','] + y;
    SplitBlankPiece(x, blank, y);
    StripBlankPiece(x, blank, y);
    assert raw[0] == x[0] && raw[|raw| - 1] == y[|y| - 1];
    CheckUsersPlain(raw, [x, blank, y], [x, "", y]);
  }
}
