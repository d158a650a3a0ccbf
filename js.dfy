/** The handful of JavaScript and Mongoose built-ins the handlers lean on,
    restated over Dafny values: optional values, truthiness, ASCII case
    mapping, `String.prototype.trim`, `Math.round`, `String(n)` for integers
    and the ObjectId cast that every by-id query performs. */
module Js {

  datatype Option<+T> = None | Some(value: T)

  datatype Result<+T, +E> = Ok(value: T) | Err(error: E)

  /** A Mongo `_id`, carried as the text the client sends. */
  type Oid = string

  // ---------------- truthiness ----------------

  /** `!!s` for a string that may be absent: undefined, null and "" are falsy. */
  predicate Present(s: Option<string>)
  {
    s.Some? && s.value != ""
  }

  /** `!!x` for a number that may be absent: undefined, null and 0 are falsy. */
  predicate NonZero(x: Option<real>)
  {
    x.Some? && x.value != 0.0
  }

  /** `x || 0` for a number that may be absent. */
  function OrZero(x: Option<real>): (r: real)
    ensures NonZero(x) ==> r == x.value
    ensures !NonZero(x) ==> r == 0.0
  {
    if x.Some? then x.value else 0.0
  }

  /** `s || fallback` for a string that may be absent. */
  function OrElse(s: Option<string>, fallback: string): (r: string)
    ensures Present(s) ==> r == s.value
    ensures !Present(s) ==> r == fallback
  {
    if Present(s) then s.value else fallback
  }

  // ---------------- case mapping (ASCII letters) ----------------

  predicate IsLowerLetter(c: char) { 'a' <= c <= 'z' }

  predicate IsUpperLetter(c: char) { 'A' <= c <= 'Z' }

  predicate IsLetter(c: char) { IsLowerLetter(c) || IsUpperLetter(c) }

  predicate IsDigit(c: char) { '0' <= c <= '9' }

  function UpperChar(c: char): char
  {
    if IsLowerLetter(c) then (c as int - 32) as char else c
  }

  function LowerChar(c: char): char
  {
    if IsUpperLetter(c) then (c as int + 32) as char else c
  }

  /** Applies a character map to every character of a string. */
  function MapChars(s: string, f: char -> char): (r: string)
    ensures |r| == |s|
    ensures forall i :: 0 <= i < |s| ==> r[i] == f(s[i])
  {
    seq(|s|, i requires 0 <= i < |s| => f(s[i]))
  }

  /** `s.toUpperCase()` */
  function Upper(s: string): (r: string)
    ensures |r| == |s|
    ensures forall i :: 0 <= i < |r| ==> !IsLowerLetter(r[i])
  {
    MapChars(s, UpperChar)
  }

  /** `s.toLowerCase()` */
  function Lower(s: string): (r: string)
    ensures |r| == |s|
    ensures forall i :: 0 <= i < |r| ==> !IsUpperLetter(r[i])
  {
    MapChars(s, LowerChar)
  }

  /** No character of the string is a lower-case letter. */
  predicate IsUpperCase(s: string)
  {
    forall i :: 0 <= i < |s| ==> !IsLowerLetter(s[i])
  }

  lemma UpperIdempotent(s: string)
    ensures Upper(Upper(s)) == Upper(s)
  {
  }

  /** Upper-casing forgets whether the input was lower-cased first. */
  lemma UpperOfLower(s: string)
    ensures Upper(Lower(s)) == Upper(s)
  {
  }

  // ---------------- trim ----------------

  /** The white space `trim` removes, restricted to the ASCII range:
      space, tab, line feed, vertical tab, form feed, carriage return. */
  predicate IsSpace(c: char)
  {
    c == ' ' || '\t' <= c <= '\r'
  }

  function TrimStart(s: string): (r: string)
    ensures |r| <= |s| && r == s[|s| - |r|..]
    ensures r == [] || !IsSpace(r[0])
    ensures forall i :: 0 <= i < |s| - |r| ==> IsSpace(s[i])
  {
    if |s| > 0 && IsSpace(s[0]) then TrimStart(s[1..]) else s
  }

  function TrimEnd(s: string): (r: string)
    ensures |r| <= |s| && r == s[..|r|]
    ensures r == [] || !IsSpace(r[|r| - 1])
    ensures forall i :: |r| <= i < |s| ==> IsSpace(s[i])
  {
    if |s| > 0 && IsSpace(s[|s| - 1]) then TrimEnd(s[..|s| - 1]) else s
  }

  /** `s.trim()`: the longest infix that neither starts nor ends with space. */
  function Trim(s: string): (r: string)
    ensures r == [] || (!IsSpace(r[0]) && !IsSpace(r[|r| - 1]))
    ensures |r| <= |s|
  {
    TrimEnd(TrimStart(s))
  }

  /** A character map that neither creates nor destroys white space
      commutes with trimming. */
  lemma {:induction false} TrimStartMap(s: string, f: char -> char)
    requires forall c :: IsSpace(f(c)) == IsSpace(c)
    ensures TrimStart(MapChars(s, f)) == MapChars(TrimStart(s), f)
    decreases |s|
  {
    if |s| > 0 && IsSpace(s[0]) {
      assert MapChars(s, f)[1..] == MapChars(s[1..], f);
      TrimStartMap(s[1..], f);
    }
  }

  lemma {:induction false} TrimEndMap(s: string, f: char -> char)
    requires forall c :: IsSpace(f(c)) == IsSpace(c)
    ensures TrimEnd(MapChars(s, f)) == MapChars(TrimEnd(s), f)
    decreases |s|
  {
    if |s| > 0 && IsSpace(s[|s| - 1]) {
      assert MapChars(s, f)[..|s| - 1] == MapChars(s[..|s| - 1], f);
      TrimEndMap(s[..|s| - 1], f);
    }
  }

  lemma TrimLower(s: string)
    ensures Trim(Lower(s)) == Lower(Trim(s))
  {
    TrimStartMap(s, LowerChar);
    TrimEndMap(TrimStart(s), LowerChar);
  }

  lemma TrimUpper(s: string)
    ensures Trim(Upper(s)) == Upper(Trim(s))
  {
    TrimStartMap(s, UpperChar);
    TrimEndMap(TrimStart(s), UpperChar);
  }

  /** Leading white space never survives `trim`. */
  lemma {:induction false} TrimDropsLeadingSpace(c: char, s: string)
    requires IsSpace(c)
    ensures Trim([c] + s) == Trim(s)
  {
    assert ([c] + s)[1..] == s;
  }

  /** Stripping the front of a string with one more character at the end. */
  lemma {:induction false} TrimStartSnoc(s: string, c: char)
    ensures TrimStart(s + [c]) == if TrimStart(s) == [] && IsSpace(c) then [] else TrimStart(s) + [c]
    decreases |s|
  {
    if |s| == 0 {
      assert s + [c] == [c];
      assert [c][1..] == [];
    } else if IsSpace(s[0]) {
      assert (s + [c])[1..] == s[1..] + [c];
      TrimStartSnoc(s[1..], c);
    }
  }

  /** Trailing white space never survives `trim`. */
  lemma TrimDropsTrailingSpace(s: string, c: char)
    requires IsSpace(c)
    ensures Trim(s + [c]) == Trim(s)
  {
    TrimStartSnoc(s, c);
    if TrimStart(s) != [] {
      var t := TrimStart(s) + [c];
      assert t[..|t| - 1] == TrimStart(s);
    }
  }

  // ---------------- numbers ----------------

  /** `Math.round(x)`: the nearest integer, halves rounded up. */
  function Round(x: real): (r: int)
    ensures r as real - 0.5 <= x < r as real + 0.5
  {
    (x + 0.5).Floor
  }

  lemma RoundOfInteger(n: int)
    ensures Round(n as real) == n
  {
  }

  lemma RoundMonotone(x: real, y: real)
    requires x <= y
    ensures Round(x) <= Round(y)
  {
  }

  function DigitChar(d: int): (c: char)
    requires 0 <= d < 10
    ensures IsDigit(c)
  {
    ('0' as int + d) as char
  }

  function NatToString(n: nat): (s: string)
    ensures |s| > 0
    ensures forall i :: 0 <= i < |s| ==> IsDigit(s[i])
    decreases n
  {
    if n < 10 then [DigitChar(n)] else NatToString(n / 10) + [DigitChar(n % 10)]
  }

  /** `String(n)` for an integer `n`. */
  function IntToString(n: int): (s: string)
    ensures s != ""
    ensures n >= 0 ==> forall i :: 0 <= i < |s| ==> IsDigit(s[i])
    ensures n < 0 ==> s[0] == '-'
  {
    if n < 0 then "-" + NatToString(-n) else NatToString(n)
  }

  // ---------------- searching ----------------

  /** The position of the first element whose key is `k`, if any: the
      first-match search behind `findOne`, `findById` and `indexOf`. */
  function FirstIndex<T, K(==)>(s: seq<T>, key: T -> K, k: K): (r: Option<nat>)
    ensures r.Some? ==> r.value < |s| && key(s[r.value]) == k
    ensures r.Some? ==> forall j :: 0 <= j < r.value ==> key(s[j]) != k
    ensures r.None? ==> forall j :: 0 <= j < |s| ==> key(s[j]) != k
  {
    if |s| == 0 then None
    else if key(s[0]) == k then Some(0)
    else match FirstIndex(s[1..], key, k)
      case None => None
      case Some(i) => Some(i + 1)
  }

  /** The first position of `c`, if any. */
  function IndexOfChar(s: string, c: char): (r: Option<nat>)
    ensures r.None? ==> forall k :: 0 <= k < |s| ==> s[k] != c
    ensures r.Some? ==> r.value < |s| && s[r.value] == c && forall k :: 0 <= k < r.value ==> s[k] != c
  {
    FirstIndex(s, (x: char) => x, c)
  }

  /** A position holding `c` with no `c` before it is the one found. */
  lemma IndexOfCharFirst(s: string, c: char, i: nat)
    requires i < |s| && s[i] == c && c !in s[..i]
    ensures IndexOfChar(s, c) == Some(i)
  {
    var r := IndexOfChar(s, c);
    assert r.Some? && r.value <= i;
  }

  // ---------------- ObjectId cast ----------------

  predicate IsHexDigit(c: char)
  {
    IsDigit(c) || 'a' <= c <= 'f' || 'A' <= c <= 'F'
  }

  /** Whether Mongoose can cast the text to an ObjectId (24 hexadecimal
      digits); any other key makes a by-id query throw a CastError. */
  predicate CastsToObjectId(s: string)
  {
    |s| == 24 && forall i :: 0 <= i < |s| ==> IsHexDigit(s[i])
  }
}
