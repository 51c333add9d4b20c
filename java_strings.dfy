/** The few `java.lang.String` and `java.lang.Long` operations the policy
    subsystem relies on, with Java's own edge cases: `trim` strips every
    character up to U+0020, `split` drops trailing empty strings unless a
    limit is given, and `Long.parseLong` rejects signs without digits and
    values outside the 64-bit range. */
module JavaStrings {
  import opened Wrappers

  const MinLong: int := -0x8000_0000_0000_0000
  const MaxLong: int := 0x7FFF_FFFF_FFFF_FFFF

  // ---------------------------------------------------------------- trim

  /** The characters `String.trim` removes: every code point up to U+0020. */
  predicate IsTrimmable(c: char) {
    c <= ' '
  }

  /** Neither the first nor the last character is trimmable. */
  predicate Unpadded(s: string) {
    s == [] || (!IsTrimmable(s[0]) && !IsTrimmable(s[|s| - 1]))
  }

  /** `String.trim`: drops trimmable characters from both ends, so the result
      is unpadded. */
  function Trim(s: string): (r: string)
    ensures |r| <= |s| && Unpadded(r)
  {
    if |s| > 0 && IsTrimmable(s[0]) then Trim(s[1..])
    else if |s| > 0 && IsTrimmable(s[|s| - 1]) then Trim(s[..|s| - 1])
    else s
  }

  /** The trim is empty exactly when every character is trimmable. */
  lemma {:induction false} TrimEmpty(s: string)
    ensures Trim(s) == [] <==> forall i :: 0 <= i < |s| ==> IsTrimmable(s[i])
  {
    if |s| > 0 && IsTrimmable(s[0]) {
      TrimEmpty(s[1..]);
      assert forall i :: 1 <= i < |s| ==> s[i] == s[1..][i - 1];
    } else if |s| > 0 && IsTrimmable(s[|s| - 1]) {
      TrimEmpty(s[..|s| - 1]);
    }
  }

  /** A string without surrounding trimmable characters is its own trim. */
  lemma TrimOfTrimmed(s: string)
    requires Unpadded(s)
    ensures Trim(s) == s
  {
  }

  lemma TrimIdempotent(s: string)
    ensures Trim(Trim(s)) == Trim(s)
  {
    TrimOfTrimmed(Trim(s));
  }

  /** `s.trim().isEmpty()`, the blank test used throughout the source. */
  predicate IsBlank(s: string) {
    Trim(s) == []
  }

  lemma NotBlankAt(s: string, i: int)
    requires 0 <= i < |s| && !IsTrimmable(s[i])
    ensures !IsBlank(s)
  {
    TrimEmpty(s);
  }

  // ------------------------------------------------------- case mapping

  function LowerChar(c: char): char {
    if 'A' <= c <= 'Z' then (c as int + 32) as char else c
  }

  function UpperChar(c: char): char {
    if 'a' <= c <= 'z' then (c as int - 32) as char else c
  }

  /** `String.toLowerCase`, restricted to the ASCII letters. */
  function ToLowerCase(s: string): (r: string)
    ensures |r| == |s|
  {
    if s == [] then [] else [LowerChar(s[0])] + ToLowerCase(s[1..])
  }

  /** `String.toUpperCase`, restricted to the ASCII letters. */
  function ToUpperCase(s: string): (r: string)
    ensures |r| == |s|
  {
    if s == [] then [] else [UpperChar(s[0])] + ToUpperCase(s[1..])
  }

  /** Upper-casing cannot produce a capital letter that occurs in neither case. */
  lemma {:induction false} UpperCaseAvoids(s: string, c: char)
    requires 'A' <= c <= 'Z' && c !in s && LowerChar(c) !in s
    ensures c !in ToUpperCase(s)
  {
    if s != [] {
      UpperCaseAvoids(s[1..], c);
      assert ToUpperCase(s) == [UpperChar(s[0])] + ToUpperCase(s[1..]);
    }
  }

  lemma {:induction false} ToLowerCaseAt(s: string, i: int)
    requires 0 <= i < |s|
    ensures ToLowerCase(s)[i] == LowerChar(s[i])
  {
    if i > 0 {
      ToLowerCaseAt(s[1..], i - 1);
    }
  }

  lemma {:induction false} ToLowerCaseIdempotent(s: string)
    ensures ToLowerCase(ToLowerCase(s)) == ToLowerCase(s)
  {
    if s != [] {
      var t := ToLowerCase(s);
      ToLowerCaseIdempotent(s[1..]);
      assert t[1..] == ToLowerCase(s[1..]);
    }
  }

  /** Lower-casing then trimming then lower-casing again changes nothing:
      a normalised name is its own normal form. */
  lemma NormalFormStable(s: string)
    ensures ToLowerCase(Trim(ToLowerCase(Trim(s)))) == ToLowerCase(Trim(s))
  {
    var t := Trim(s);
    var l := ToLowerCase(t);
    if l != [] {
      ToLowerCaseAt(t, 0);
      ToLowerCaseAt(t, |t| - 1);
    }
    TrimOfTrimmed(l);
    ToLowerCaseIdempotent(t);
  }

  // ----------------------------------------------- prefixes and search

  predicate StartsWith(s: string, prefix: string) {
    |prefix| <= |s| && s[..|prefix|] == prefix
  }

  /** `String.contains`: `t` occurs in `s` at some offset. */
  predicate Contains(s: string, t: string)
    decreases |s|
  {
    StartsWith(s, t) || (|s| > 0 && Contains(s[1..], t))
  }

  /** A text without the first character of `t` does not contain `t`. */
  lemma {:induction false} ContainsNeedsHead(s: string, t: string)
    requires t != [] && t[0] !in s
    ensures !Contains(s, t)
    decreases |s|
  {
    if s != [] {
      ContainsNeedsHead(s[1..], t);
    }
  }

  /** Number of occurrences of `c` in `s`. */
  function Count(c: char, s: string): nat {
    if s == [] then 0 else (if s[0] == c then 1 else 0) + Count(c, s[1..])
  }

  lemma CountAppend(c: char, a: string, b: string)
    ensures Count(c, a + b) == Count(c, a) + Count(c, b)
  {
    if a != [] {
      CountAppend(c, a[1..], b);
      assert a + b == [a[0]] + (a[1..] + b);
      assert (a + b)[1..] == a[1..] + b;
    } else {
      assert a + b == b;
    }
  }

  /** Occurrences of `c` around a stretch that holds none of them. */
  lemma CountAround(c: char, a: string, b: string, d: string)
    requires c !in b
    ensures Count(c, a + b + d) == Count(c, a) + Count(c, d)
  {
    CountAbsent(c, b);
    CountAppend(c, a, b);
    CountAppend(c, a + b, d);
  }

  /** Occurrences of `c` in a stretch framed by text without any. */
  lemma CountSandwich(c: char, a: string, p: string, b: string)
    requires c !in a && c !in b
    ensures Count(c, a + p + b) == Count(c, p)
  {
    CountAbsent(c, a);
    CountAbsent(c, b);
    CountAppend(c, a, p);
    CountAppend(c, a + p, b);
  }

  /** `String.indexOf(char)`: the first position of `c`, or -1. */
  function IndexOf(s: string, c: char): (i: int)
    ensures i == -1 <==> c !in s
    ensures 0 <= i ==> i < |s| && s[i] == c && c !in s[..i]
  {
    if |s| == 0 then -1
    else if s[0] == c then 0
    else
      var j := IndexOf(s[1..], c);
      assert s[1..][..if j < 0 then 0 else j] == s[1..if j < 0 then 1 else j + 1];
      if j < 0 then -1 else j + 1
  }

  /** The first `c` of `a + [c] + b` is the one after `a` when `a` has none. */
  lemma {:induction false} IndexOfAfter(a: string, c: char, b: string)
    requires c !in a
    ensures IndexOf(a + [c] + b, c) == |a|
  {
    if a != [] {
      assert (a + [c] + b)[1..] == a[1..] + [c] + b;
      IndexOfAfter(a[1..], c, b);
    }
  }

  // ------------------------------------------------------------- split

  /** `s.split(c, 2)`: without `c` the whole string, otherwise the text
      before and after the FIRST `c`; the second part may contain `c`. */
  function SplitOnce(s: string, c: char): (parts: seq<string>)
    ensures c !in s ==> parts == [s]
    ensures c in s ==> |parts| == 2 && s == parts[0] + [c] + parts[1] && c !in parts[0]
    ensures c in s ==> parts[0] == s[..IndexOf(s, c)] && parts[1] == s[IndexOf(s, c) + 1..]
  {
    var i := IndexOf(s, c);
    if i < 0 then [s] else
      assert s == s[..i] + [c] + s[i + 1..];
      [s[..i], s[i + 1..]]
  }

  /** The fields between the occurrences of `c`, empty ones included. */
  function Pieces(s: string, c: char): (ps: seq<string>)
    ensures ps != []
    decreases |s|
  {
    var i := IndexOf(s, c);
    if i < 0 then [s] else [s[..i]] + Pieces(s[i + 1..], c)
  }

  /** One field per occurrence of `c`, plus one. */
  lemma {:induction false} PiecesCount(s: string, c: char)
    ensures |Pieces(s, c)| == Count(c, s) + 1
    decreases |s|
  {
    var i := IndexOf(s, c);
    if i < 0 {
      CountAbsent(c, s);
    } else {
      assert s == s[..i] + ([c] + s[i + 1..]);
      CountAppend(c, s[..i], [c] + s[i + 1..]);
      CountAbsent(c, s[..i]);
      PiecesCount(s[i + 1..], c);
    }
  }

  /** No field holds the separator. */
  lemma {:induction false} PiecesFree(s: string, c: char)
    ensures forall k :: 0 <= k < |Pieces(s, c)| ==> c !in Pieces(s, c)[k]
    decreases |s|
  {
    var i := IndexOf(s, c);
    if i >= 0 {
      PiecesFree(s[i + 1..], c);
    }
  }

  lemma CountAbsent(c: char, s: string)
    requires c !in s
    ensures Count(c, s) == 0
  {
    if s != [] {
      CountAbsent(c, s[1..]);
    }
  }

  /** `String.join(sep, xs)`. */
  function Join(sep: string, xs: seq<string>): string {
    if |xs| == 0 then ""
    else if |xs| == 1 then xs[0]
    else xs[0] + sep + Join(sep, xs[1..])
  }

  lemma JoinCons(sep: string, x: string, xs: seq<string>)
    requires xs != []
    ensures Join(sep, [x] + xs) == x + sep + Join(sep, xs)
  {
    assert ([x] + xs)[1..] == xs;
  }

  /** Joining the fields back with the separator gives the original text. */
  lemma {:induction false} JoinPieces(s: string, c: char)
    ensures Join([c], Pieces(s, c)) == s
    decreases |s|
  {
    var i := IndexOf(s, c);
    if i >= 0 {
      var head, rest := s[..i], s[i + 1..];
      JoinPieces(rest, c);
      JoinCons([c], head, Pieces(rest, c));
      assert s == head + [c] + rest;
    }
  }

  /** Splitting a join recovers the list, provided no element holds the separator. */
  lemma {:induction false} PiecesJoin(xs: seq<string>, c: char)
    requires xs != []
    requires forall k :: 0 <= k < |xs| ==> c !in xs[k]
    ensures Pieces(Join([c], xs), c) == xs
  {
    if |xs| > 1 {
      var s := Join([c], xs);
      var tail := Join([c], xs[1..]);
      assert s == xs[0] + [c] + tail;
      assert s[|xs[0]|] == c;
      assert s[..|xs[0]|] == xs[0];
      assert IndexOf(s, c) == |xs[0]|;
      assert s[|xs[0]| + 1..] == tail;
      PiecesJoin(xs[1..], c);
      assert [xs[0]] + xs[1..] == xs;
    }
  }

  /** Java drops trailing empty strings from an unlimited `split`. */
  function DropTrailingEmpty(xs: seq<string>): (r: seq<string>)
    ensures |r| <= |xs| && r == xs[..|r|]
    ensures r == [] || r[|r| - 1] != []
  {
    if |xs| > 0 && xs[|xs| - 1] == [] then DropTrailingEmpty(xs[..|xs| - 1]) else xs
  }

  /** `s.split(c)` for a one-character, non-special regex `c`: the whole
      string when `c` does not occur (even if empty), otherwise the fields
      with trailing empty ones removed. */
  function Split(s: string, c: char): (parts: seq<string>)
    ensures c !in s ==> parts == [s]
  {
    if c !in s then [s] else DropTrailingEmpty(Pieces(s, c))
  }

  /** No field of a split holds the separator. */
  lemma SplitFieldsFree(s: string, c: char)
    ensures forall k :: 0 <= k < |Split(s, c)| ==> c !in Split(s, c)[k]
  {
    PiecesFree(s, c);
  }

  /** An unlimited split undoes a join when no element holds the separator
      and the last element is not empty. */
  lemma SplitJoin(xs: seq<string>, c: char)
    requires xs != [] && xs[|xs| - 1] != []
    requires forall k :: 0 <= k < |xs| ==> c !in xs[k]
    ensures Split(Join([c], xs), c) == xs
  {
    PiecesJoin(xs, c);
    if |xs| > 1 {
      var s := Join([c], xs);
      assert s == xs[0] + [c] + Join([c], xs[1..]);
      assert s[|xs[0]|] == c;
    }
  }

  // ---------------------------------------------------------- integers

  predicate IsDigit(c: char) {
    '0' <= c <= '9'
  }

  predicate AllDigits(s: string) {
    forall i :: 0 <= i < |s| ==> IsDigit(s[i])
  }

  function DigitChar(d: nat): char
    requires d < 10
  {
    ('0' as int + d) as char
  }

  /** Decimal value of a digit string, read left to right. */
  function DigitsValue(s: string): nat
    requires AllDigits(s)
  {
    if s == [] then 0 else DigitsValue(s[..|s| - 1]) * 10 + (s[|s| - 1] as int - '0' as int)
  }

  /** `Long.parseLong` with ASCII digits: an optional sign, at least one
      digit, nothing else, and a value in the signed 64-bit range. */
  function ParseLong(s: string): (r: Option<int>)
    ensures r.Some? ==> MinLong <= r.value <= MaxLong
    ensures r.Some? ==> s != [] && s != "-" && s != "+"
  {
    if s == [] then None
    else
      var signed := s[0] == '-' || s[0] == '+';
      var digits := if signed then s[1..] else s;
      if digits == [] || !AllDigits(digits) then None
      else
        var v: int := if s[0] == '-' then -(DigitsValue(digits) as int) else DigitsValue(digits);
        if MinLong <= v <= MaxLong then Some(v) else None
  }

  /** Shortest decimal spelling of `n`. */
  function DecimalString(n: nat): (s: string)
    ensures s != [] && AllDigits(s) && s[0] != '-' && s[0] != '+'
  {
    if n < 10 then [DigitChar(n)] else DecimalString(n / 10) + [DigitChar(n % 10)]
  }

  /** `Long.toString`. */
  function LongToString(v: int): string {
    if v < 0 then "-" + DecimalString(-v) else DecimalString(v)
  }

  /** `Long.toString` writes a sign and digits only, so it holds no
      separator and needs no trimming. */
  lemma LongToStringShape(v: int)
    ensures LongToString(v) != []
    ensures ',' !in LongToString(v) && '\n' !in LongToString(v) && ':' !in LongToString(v)
    ensures Trim(LongToString(v)) == LongToString(v)
  {
    var s := LongToString(v);
    var d := DecimalString(if v < 0 then -v else v);
    assert s[|s| - 1] == d[|d| - 1];
    assert forall k :: 0 <= k < |s| ==> s[k] == '-' || IsDigit(s[k]);
    TrimOfTrimmed(s);
  }

  lemma {:induction false} DecimalStringValue(n: nat)
    ensures DigitsValue(DecimalString(n)) == n
  {
    if n >= 10 {
      var s := DecimalString(n);
      DecimalStringValue(n / 10);
      assert s[..|s| - 1] == DecimalString(n / 10);
    }
  }

  /** `Long.parseLong` inverts `Long.toString` on the whole 64-bit range. */
  lemma ParseLongToString(v: int)
    requires MinLong <= v <= MaxLong
    ensures ParseLong(LongToString(v)) == Some(v)
  {
    if v < 0 {
      DecimalStringValue(-v);
      assert LongToString(v)[1..] == DecimalString(-v);
    } else {
      DecimalStringValue(v);
    }
  }
}
