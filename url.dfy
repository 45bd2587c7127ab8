/**
 * The part of Python's `urllib.parse.urlparse` the scripts look at: the scheme, the
 * network location and the path of an agent guid such as
 * `com.plexapp.agents.thetvdb://79349/1/3?lang=en` or `plex://episode/5d9c...`.
 */
module Url {
  import opened Text

  datatype Url = Url(scheme: string, netloc: string, path: string)

  /** The characters urllib accepts in a scheme. */
  predicate IsSchemeChar(c: char) {
    IsAsciiLetter(c) || '0' <= c <= '9' || c == '+' || c == '-' || c == '.'
  }

  predicate IsUpper(c: char) {
    'A' <= c <= 'Z'
  }

  /** urllib recognises a scheme ending at index `i` of `url`. */
  predicate SchemeEndsAt(url: string, i: int) {
    0 < i < |url| && IsAsciiLetter(url[0]) && forall k :: 0 <= k < i ==> IsSchemeChar(url[k])
  }

  /** The scheme (lower-cased) and what follows its ':', or no scheme and the whole text. */
  function SplitScheme(url: string): (r: (string, string))
    ensures ':' !in r.0
    ensures forall k :: 0 <= k < |r.0| ==> !IsUpper(r.0[k])
  {
    var i := IndexOf(url, ':');
    if SchemeEndsAt(url, i) then
      assert forall k :: 0 <= k < i ==> IsSchemeChar(url[k]) && Lower(url[..i])[k] == LowerChar(url[k]);
      (Lower(url[..i]), url[i + 1..])
    else ("", url)
  }

  /** After a leading "//", the network location runs to the first '/', '?' or '#'. */
  function SplitNetloc(rest: string): (r: (string, string))
    ensures forall k :: 0 <= k < |r.0| ==> r.0[k] !in {'/', '?', '#'}
  {
    if |rest| >= 2 && rest[..2] == "//" then
      var after := rest[2..];
      var n := FirstOf(after, {'/', '?', '#'});
      (after[..n], after[n..])
    else ("", rest)
  }

  /** The path ends where the query ('?') or the fragment ('#') begins. */
  function PathPart(rest: string): (path: string)
    ensures forall k :: 0 <= k < |path| ==> path[k] !in {'?', '#'}
  {
    rest[..FirstOf(rest, {'?', '#'})]
  }

  /**
   * `urlparse(url)` restricted to scheme, netloc and path: the scheme is the text before
   * the first ':' when it starts with an ASCII letter and holds only scheme characters
   * (lower-cased); a netloc follows a leading "//" up to the first '/', '?' or '#'; the
   * path runs up to the query or fragment.
   */
  function Parse(url: string): (u: Url)
    ensures ':' !in u.scheme
    ensures forall k :: 0 <= k < |u.scheme| ==> !IsUpper(u.scheme[k])
    ensures forall k :: 0 <= k < |u.netloc| ==> u.netloc[k] !in {'/', '?', '#'}
    ensures forall k :: 0 <= k < |u.path| ==> u.path[k] !in {'?', '#'}
  {
    var (scheme, rest) := SplitScheme(url);
    var (netloc, remainder) := SplitNetloc(rest);
    Url(scheme, netloc, PathPart(remainder))
  }

  /** The scheme of a guid, as `urlparse(guid).scheme`. */
  function SchemeOf(guid: string): string {
    Parse(guid).scheme
  }

  lemma {:induction false} FirstOfStopsAt(a: string, b: string, stops: set<char>)
    requires forall k :: 0 <= k < |a| ==> a[k] !in stops
    requires b == [] || b[0] in stops
    ensures FirstOf(a + b, stops) == |a|
    decreases |a|
  {
    if |a| > 0 {
      assert (a + b)[0] == a[0];
      assert (a + b)[1..] == a[1..] + b;
      FirstOfStopsAt(a[1..], b, stops);
    } else {
      assert a + b == b;
    }
  }

  lemma LowerOfLower(s: string)
    requires forall k :: 0 <= k < |s| ==> !IsUpper(s[k])
    ensures Lower(s) == s
  {
  }

  lemma SplitSchemeComposed(scheme: string, rest: string)
    requires |scheme| > 0 && IsAsciiLetter(scheme[0])
    requires forall k :: 0 <= k < |scheme| ==> IsSchemeChar(scheme[k]) && !IsUpper(scheme[k])
    ensures SplitScheme(scheme + [':'] + rest) == (scheme, rest)
  {
    var url := scheme + [':'] + rest;
    assert ':' !in scheme by {
      assert forall k :: 0 <= k < |scheme| ==> scheme[k] != ':';
    }
    IndexOfAfterFree(scheme, rest, ':');
    assert url[..|scheme|] == scheme;
    assert url[|scheme| + 1..] == rest;
    assert SchemeEndsAt(url, |scheme|);
    LowerOfLower(scheme);
  }

  lemma SplitNetlocComposed(netloc: string, rest: string)
    requires forall k :: 0 <= k < |netloc| ==> netloc[k] !in {'/', '?', '#'}
    requires rest == [] || rest[0] in {'/', '?', '#'}
    ensures SplitNetloc("//" + netloc + rest) == (netloc, rest)
  {
    var s := "//" + netloc + rest;
    assert s[..2] == "//";
    assert s[2..] == netloc + rest;
    FirstOfStopsAt(netloc, rest, {'/', '?', '#'});
    assert (netloc + rest)[..|netloc|] == netloc;
    assert (netloc + rest)[|netloc|..] == rest;
  }

  lemma PathPartComposed(path: string, tail: string)
    requires forall k :: 0 <= k < |path| ==> path[k] !in {'?', '#'}
    requires tail == [] || tail[0] in {'?', '#'}
    ensures PathPart(path + tail) == path
  {
    FirstOfStopsAt(path, tail, {'?', '#'});
    assert (path + tail)[..|path|] == path;
  }

  /**
   * A guid written as `scheme://netloc/path?query` parses into exactly those parts,
   * whatever the query or fragment that follows the path.
   */
  lemma ParseComposed(scheme: string, netloc: string, path: string, tail: string)
    requires |scheme| > 0 && IsAsciiLetter(scheme[0])
    requires forall k :: 0 <= k < |scheme| ==> IsSchemeChar(scheme[k]) && !IsUpper(scheme[k])
    requires forall k :: 0 <= k < |netloc| ==> netloc[k] !in {'/', '?', '#'}
    requires path == [] || path[0] == '/'
    requires forall k :: 0 <= k < |path| ==> path[k] !in {'?', '#'}
    requires tail == [] || tail[0] in {'?', '#'}
    ensures Parse(scheme + "://" + netloc + path + tail) == Url(scheme, netloc, path)
  {
    var rest := "//" + netloc + (path + tail);
    assert scheme + "://" + netloc + path + tail == scheme + [':'] + rest;
    SplitSchemeComposed(scheme, rest);
    assert path + tail == [] || (path + tail)[0] in {'/', '?', '#'};
    SplitNetlocComposed(netloc, path + tail);
    PathPartComposed(path, tail);
  }
}
