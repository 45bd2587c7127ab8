/**
 * The Python values the scripts read from Plex objects, the `_cast` helper that turns
 * them into JSON-ready values, and `_get_username`.
 */
module PyValues {
  import opened Wrappers
  import opened Text

  /** A `datetime.datetime` down to the second. */
  datatype DateTime = DateTime(year: nat, month: nat, day: nat, hour: nat, minute: nat, second: nat)

  /** A Python value as far as `_cast` can tell values apart (a float is kept as its `repr`). */
  datatype Value =
    | NoneValue
    | Str(s: string)
    | Int(i: int)
    | Bool(b: bool)
    | Float(repr: string)
    | Date(d: DateTime)

  /** The three types the scripts pass to `_cast`: `str`, `int` and `bool`. */
  datatype PyType = StrType | IntType | BoolType

  /** The first argument of the exporter's `_cast`: a type, or the marker "date_string". */
  datatype CastFunc = Type(t: PyType) | DateString

  datatype CastError = ValueError(value: Value)

  /** `strftime("%Y-%m-%dT%H:%M:%SZ")`. */
  function FormatIso(d: DateTime): string {
    PadNat(d.year, 4) + "-" + PadNat(d.month, 2) + "-" + PadNat(d.day, 2) + "T"
      + PadNat(d.hour, 2) + ":" + PadNat(d.minute, 2) + ":" + PadNat(d.second, 2) + "Z"
  }

  /** The date written for an item that was never rated or viewed. */
  const SentinelDate := DateTime(1000, 1, 1, 0, 0, 0)

  /** `str(value)`. */
  function Stringify(v: Value): string {
    match v
    case NoneValue => "None"
    case Str(s) => s
    case Int(i) => IntToString(i)
    case Bool(b) => if b then "True" else "False"
    case Float(r) => r
    case Date(d) =>
      PadNat(d.year, 4) + "-" + PadNat(d.month, 2) + "-" + PadNat(d.day, 2) + " "
        + PadNat(d.hour, 2) + ":" + PadNat(d.minute, 2) + ":" + PadNat(d.second, 2)
  }

  /** `func()`: the value a type's constructor gives without arguments. */
  function Default(t: PyType): Value {
    match t
    case StrType => Str("")
    case IntType => Int(0)
    case BoolType => Bool(false)
  }

  /** `isinstance(v, t)`; a `bool` is an instance of `int`. */
  predicate IsInstance(v: Value, t: PyType) {
    match t
    case StrType => v.Str?
    case IntType => v.Int? || v.Bool?
    case BoolType => v.Bool?
  }

  /**
   * `_cast(func, value)` for a type `func`, shared word for word by the exporter and both
   * importers: None becomes the type's default, `str` stringifies anything, any other
   * mismatch raises ValueError, and a matching value comes back unchanged.
   */
  function CastToType(t: PyType, v: Value): (r: Result<Value, CastError>)
    ensures r.Err? <==> !v.NoneValue? && t != StrType && !IsInstance(v, t)
    ensures r.Err? ==> r.error == ValueError(v)
    ensures r.Ok? ==> IsInstance(r.value, t)
    ensures v.NoneValue? ==> r == Ok(Default(t))
    ensures t == StrType && !v.NoneValue? ==> r == Ok(Str(Stringify(v)))
    ensures t != StrType && IsInstance(v, t) ==> r == Ok(v)
  {
    if v.NoneValue? then Ok(Default(t))
    else if t == StrType then Ok(Str(Stringify(v)))
    else if !IsInstance(v, t) then Err(ValueError(v))
    else Ok(v)
  }

  /**
   * The exporter's `_cast`: "date_string" formats a datetime and turns anything else
   * (None included) into the sentinel `1000-01-01T00:00:00Z`; a type casts as above.
   */
  function Cast(f: CastFunc, v: Value): (r: Result<Value, CastError>)
    ensures f.DateString? && v.Date? ==> r == Ok(Str(FormatIso(v.d)))
    ensures f.DateString? && !v.Date? ==> r == Ok(Str("1000-01-01T00:00:00Z"))
    ensures f.Type? ==> r == CastToType(f.t, v)
  {
    SentinelFormat();
    if f.DateString? then Ok(Str(if v.Date? then FormatIso(v.d) else FormatIso(SentinelDate)))
    else CastToType(f.t, v)
  }

  /** Casting a value that `_cast` already produced gives it back: a cast result is a fixed point. */
  lemma CastIdempotent(t: PyType, v: Value)
    requires CastToType(t, v).Ok?
    ensures CastToType(t, CastToType(t, v).value) == CastToType(t, v)
  {
    var r := CastToType(t, v).value;
    if t == StrType {
      assert r.Str?;
    }
  }

  lemma YearDigits()
    ensures PadNat(1000, 4) == "1000"
  {
    assert NatToString(1) == "1";
    assert NatToString(10) == NatToString(1) + "0";
    assert NatToString(100) == NatToString(10) + "0";
    assert NatToString(1000) == NatToString(100) + "0";
  }

  lemma TwoDigits(n: nat)
    requires n < 10
    ensures PadNat(n, 2) == ['0', DigitChar(n)]
  {
    assert NatToString(n) == [DigitChar(n)];
    assert seq(1, _ => '0') == "0";
  }

  /** The sentinel date is exactly what `strftime` makes of 1000-01-01 00:00:00. */
  lemma SentinelFormat()
    ensures FormatIso(SentinelDate) == "1000-01-01T00:00:00Z"
  {
    YearDigits();
    TwoDigits(1);
    TwoDigits(0);
  }

  /** An optional integer attribute as the Python value it is. */
  function IntValue(o: Option<int>): Value {
    if o.Some? then Int(o.value) else NoneValue
  }

  function StrValue(o: Option<string>): Value {
    if o.Some? then Str(o.value) else NoneValue
  }

  function DateValue(o: Option<DateTime>): Value {
    if o.Some? then Date(o.value) else NoneValue
  }

  /** `_cast(int, attribute)` on an attribute that is an int or None (see `FieldCasts`). */
  function IntField(o: Option<int>): int {
    o.GetOr(0)
  }

  /** `_cast(str, attribute)` on an attribute that is a string (a float's repr) or None. */
  function StrField(o: Option<string>): string {
    o.GetOr("")
  }

  /** `_cast("date_string", attribute)` on a datetime attribute that may be None. */
  function DateField(o: Option<DateTime>): string {
    if o.Some? then FormatIso(o.value) else "1000-01-01T00:00:00Z"
  }

  /** The three field readers are `_cast` on the attribute's Python value, and none of them raises. */
  lemma FieldCasts(i: Option<int>, s: Option<string>, d: Option<DateTime>)
    ensures Cast(Type(IntType), IntValue(i)) == Ok(Int(IntField(i)))
    ensures Cast(Type(StrType), StrValue(s)) == Ok(Str(StrField(s)))
    ensures Cast(DateString, DateValue(d)) == Ok(Str(DateField(d)))
  {
    SentinelFormat();
  }

  /** `_cast(str, value)`, which cannot fail. */
  function CastStr(v: Value): (r: string)
    ensures CastToType(StrType, v) == Ok(Str(r))
  {
    if v.NoneValue? then "" else Stringify(v)
  }

  /** The account fields `_get_username` reads, as the Python values they are. */
  datatype User = User(username: Value, email: Value, title: Value, id: Value)

  /**
   * `_get_username(user)`: the username, else the email, else the title, else the id,
   * each passed through `_cast(str, ·)`.
   */
  function GetUsername(u: User): (name: string)
    ensures name in [CastStr(u.username), CastStr(u.email), CastStr(u.title), CastStr(u.id)]
  {
    var username := CastStr(u.username);
    var username := if username == "" then CastStr(u.email) else username;
    var username := if username == "" then CastStr(u.title) else username;
    if username == "" then CastStr(u.id) else username
  }

  /** The first non-empty string of `names`, or "" when they are all empty. */
  function FirstNonEmpty(names: seq<string>): (r: string)
    decreases |names|
  {
    if |names| == 0 then "" else if names[0] != "" then names[0] else FirstNonEmpty(names[1..])
  }

  /** `FirstNonEmpty` picks the entry at the first non-empty index, and is "" exactly when all are. */
  lemma {:induction false} FirstNonEmptyIsFirst(names: seq<string>)
    ensures FirstNonEmpty(names) == "" <==> forall k :: 0 <= k < |names| ==> names[k] == ""
    ensures FirstNonEmpty(names) != "" ==>
      exists j :: 0 <= j < |names| && names[j] == FirstNonEmpty(names) && forall k :: 0 <= k < j ==> names[k] == ""
    decreases |names|
  {
    if |names| > 0 && names[0] == "" {
      FirstNonEmptyIsFirst(names[1..]);
      if FirstNonEmpty(names) != "" {
        var j :| 0 <= j < |names[1..]| && names[1..][j] == FirstNonEmpty(names[1..])
          && forall k :: 0 <= k < j ==> names[1..][k] == "";
        assert names[j + 1] == FirstNonEmpty(names);
        assert forall k :: 0 <= k < j + 1 ==> names[k] == "" by {
          forall k | 0 <= k < j + 1 ensures names[k] == "" {
            if k > 0 {
              assert names[k] == names[1..][k - 1];
            }
          }
        }
      } else {
        forall k | 0 <= k < |names| ensures names[k] == "" {
          if k > 0 {
            assert names[k] == names[1..][k - 1];
          }
        }
      }
    }
  }

  /** The four-step fallback of `_get_username` is the first non-empty field in that order. */
  lemma GetUsernameIsFirstNonEmpty(u: User)
    ensures GetUsername(u) == FirstNonEmpty([CastStr(u.username), CastStr(u.email), CastStr(u.title), CastStr(u.id)])
  {
    var names := [CastStr(u.username), CastStr(u.email), CastStr(u.title), CastStr(u.id)];
    var n1 := [CastStr(u.email), CastStr(u.title), CastStr(u.id)];
    var n2 := [CastStr(u.title), CastStr(u.id)];
    var n3 := [CastStr(u.id)];
    assert names[1..] == n1 && n1[1..] == n2 && n2[1..] == n3 && n3[1..] == [];
    assert FirstNonEmpty(n3) == CastStr(u.id);
    assert FirstNonEmpty(n2) == if CastStr(u.title) != "" then CastStr(u.title) else FirstNonEmpty(n3);
    assert FirstNonEmpty(n1) == if CastStr(u.email) != "" then CastStr(u.email) else FirstNonEmpty(n2);
  }

  /** The username is empty only when all four fields cast to "": a user with an integer id always has one. */
  lemma UsernameEmptyIff(u: User)
    ensures GetUsername(u) == "" <==>
      CastStr(u.username) == "" && CastStr(u.email) == "" && CastStr(u.title) == "" && CastStr(u.id) == ""
    ensures u.id.Int? ==> GetUsername(u) != ""
  {
    if u.id.Int? {
      assert CastStr(u.id) == IntToString(u.id.i);
      assert |CastStr(u.id)| >= 1;
    }
  }
}
