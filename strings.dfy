/** The Python `str` operations the bot relies on: `strip()`, `upper()`/`lower()`,
    `in`, `endswith`, `split(sep)`, `sep.join(...)`, `replace(pat, "")` and `int()`,
    stated over `seq<char>`. */
module Strings {

  datatype Option<+T> = None | Some(value: T) {
    function GetOr(default: T): T {
      match this
      case Some(v) => v
      case None => default
    }
  }

  /** Python truthiness of an optional text: present and not empty. */
  predicate Truthy(s: Option<string>) {
    s.Some? && s.value != ""
  }

  // ---------------------------------------------------------------------------
  // Whitespace and strip()

  /** The characters for which Python's `str.isspace()` holds; `strip()` with no
      argument removes exactly these from both ends. */
  predicate IsSpace(c: char) {
    c == ' ' || ('\t' <= c <= '\r') || ('\U{1C}' <= c <= '\U{1F}') ||
    c == '\U{85}' || c == '\U{A0}' || c == '\U{1680}' ||
    ('\U{2000}' <= c <= '\U{200A}') || c == '\U{2028}' || c == '\U{2029}' ||
    c == '\U{202F}' || c == '\U{205F}' || c == '\U{3000}'
  }

  function TrimLeft(s: string): (r: string)
    ensures |r| <= |s| && r == s[|s| - |r|..]
    ensures forall i :: 0 <= i < |s| - |r| ==> IsSpace(s[i])
    ensures r == [] || !IsSpace(r[0])
  {
    if s != [] && IsSpace(s[0]) then TrimLeft(s[1..]) else s
  }

  function TrimRight(s: string): (r: string)
    ensures |r| <= |s| && r == s[..|r|]
    ensures forall i :: |r| <= i < |s| ==> IsSpace(s[i])
    ensures r == [] || !IsSpace(r[|r| - 1])
  {
    if s != [] && IsSpace(s[|s| - 1]) then TrimRight(s[..|s| - 1]) else s
  }

  /** Python's `s.strip()`. */
  function Strip(s: string): string {
    TrimRight(TrimLeft(s))
  }

  lemma TrimLeftOfTrimmed(s: string)
    requires s == [] || !IsSpace(s[0])
    ensures TrimLeft(s) == s
  {
  }

  /** Stripping twice is stripping once. */
  lemma {:induction false} StripIdempotent(s: string)
    ensures Strip(Strip(s)) == Strip(s)
  {
    var t := TrimLeft(s);
    var u := TrimRight(t);
    if u != [] {
      assert u[0] == t[0];
    }
    TrimLeftOfTrimmed(u);
    assert TrimRight(u) == u;
  }

  // ---------------------------------------------------------------------------
  // Case mapping (ASCII letters only; Arabic text is unaffected by Python's as well)

  function UpperChar(c: char): char {
    if 'a' <= c <= 'z' then (c as int - 32) as char else c
  }

  function LowerChar(c: char): char {
    if 'A' <= c <= 'Z' then (c as int + 32) as char else c
  }

  /** Python's `s.upper()` on ASCII letters. */
  function Upper(s: string): (r: string)
    ensures |r| == |s| && forall i :: 0 <= i < |s| ==> r[i] == UpperChar(s[i])
  {
    seq(|s|, i requires 0 <= i < |s| => UpperChar(s[i]))
  }

  /** Python's `s.lower()` on ASCII letters. */
  function Lower(s: string): (r: string)
    ensures |r| == |s| && forall i :: 0 <= i < |s| ==> r[i] == LowerChar(s[i])
  {
    seq(|s|, i requires 0 <= i < |s| => LowerChar(s[i]))
  }

  /** A lower-case letter absent from a text in both cases is absent from its
      lower-cased form. */
  lemma LowerAvoids(s: string, c: char)
    requires 'a' <= c <= 'z' && c !in s && UpperChar(c) !in s
    ensures c !in Lower(s)
  {
    forall i | 0 <= i < |s| ensures Lower(s)[i] != c {
      assert s[i] != c && s[i] != UpperChar(c);
    }
  }

  lemma UpperCharSpace(c: char)
    ensures IsSpace(UpperChar(c)) == IsSpace(c)
  {
  }

  lemma {:induction false} TrimLeftUpper(s: string)
    ensures TrimLeft(Upper(s)) == Upper(TrimLeft(s))
    decreases |s|
  {
    if s != [] {
      var u := Upper(s);
      assert u[0] == UpperChar(s[0]);
      UpperCharSpace(s[0]);
      if IsSpace(s[0]) {
        assert u[1..] == Upper(s[1..]);
        TrimLeftUpper(s[1..]);
      }
    }
  }

  lemma {:induction false} TrimRightUpper(s: string)
    ensures TrimRight(Upper(s)) == Upper(TrimRight(s))
    decreases |s|
  {
    if s != [] {
      var u := Upper(s);
      assert u[|s| - 1] == UpperChar(s[|s| - 1]);
      UpperCharSpace(s[|s| - 1]);
      if IsSpace(s[|s| - 1]) {
        assert u[..|s| - 1] == Upper(s[..|s| - 1]);
        TrimRightUpper(s[..|s| - 1]);
      }
    }
  }

  /** `upper()` and `strip()` commute, because upper-casing neither creates nor
      removes whitespace. */
  lemma UpperStripCommute(s: string)
    ensures Strip(Upper(s)) == Upper(Strip(s))
  {
    TrimLeftUpper(s);
    TrimRightUpper(TrimLeft(s));
  }

  lemma UpperIdempotent(s: string)
    ensures Upper(Upper(s)) == Upper(s)
  {
  }

  // ---------------------------------------------------------------------------
  // Searching

  predicate StartsWith(s: string, prefix: string) {
    |prefix| <= |s| && s[..|prefix|] == prefix
  }

  predicate EndsWith(s: string, suffix: string) {
    |suffix| <= |s| && s[|s| - |suffix|..] == suffix
  }

  lemma NotStartsWith(s: string, prefix: string, i: nat)
    requires i < |s| && i < |prefix| && s[i] != prefix[i]
    ensures !StartsWith(s, prefix)
  {
    if |prefix| <= |s| {
      assert s[..|prefix|][i] != prefix[i];
    }
  }

  /** Python's `sub in s` for strings. */
  predicate ContainsSub(s: string, sub: string)
    decreases |s|
  {
    StartsWith(s, sub) || (s != [] && ContainsSub(s[1..], sub))
  }

  lemma {:induction false} ContainsSubAt(s: string, sub: string, k: nat)
    requires k + |sub| <= |s| && s[k..k + |sub|] == sub
    ensures ContainsSub(s, sub)
    decreases k
  {
    if k > 0 {
      assert s[1..][k - 1..k - 1 + |sub|] == sub;
      ContainsSubAt(s[1..], sub, k - 1);
    }
  }

  /** Python's `s.replace(pat, "")`: a single left-to-right pass removing
      non-overlapping occurrences of `pat`. */
  function RemoveAll(s: string, pat: string): (r: string)
    requires pat != []
    ensures |r| <= |s|
    decreases |s|
  {
    if |s| < |pat| then s
    else if s[..|pat|] == pat then RemoveAll(s[|pat|..], pat)
    else [s[0]] + RemoveAll(s[1..], pat)
  }

  /** A text that lacks the first character of `sub` does not contain `sub`. */
  lemma {:induction false} NotContainsSub(s: string, sub: string)
    requires sub != [] && sub[0] !in s
    ensures !ContainsSub(s, sub)
    decreases |s|
  {
    if s != [] {
      assert s[0] != sub[0];
      assert sub[0] !in s[1..] by { assert forall i :: 0 <= i < |s| - 1 ==> s[1..][i] == s[i + 1]; }
      NotContainsSub(s[1..], sub);
    }
  }

  /** Removing a pattern the text does not contain leaves the text as it is. */
  lemma {:induction false} RemoveAllAbsent(s: string, pat: string)
    requires pat != [] && !ContainsSub(s, pat)
    ensures RemoveAll(s, pat) == s
    decreases |s|
  {
    if |s| >= |pat| {
      assert !StartsWith(s, pat);
      RemoveAllAbsent(s[1..], pat);
      assert [s[0]] + s[1..] == s;
    }
  }

  /** `(pat + rest).replace(pat, "")` is `rest` when `rest` does not contain `pat`. */
  lemma RemoveAllPrefix(pat: string, rest: string)
    requires pat != [] && !ContainsSub(rest, pat)
    ensures RemoveAll(pat + rest, pat) == rest
  {
    assert (pat + rest)[..|pat|] == pat;
    assert (pat + rest)[|pat|..] == rest;
    RemoveAllAbsent(rest, pat);
  }

  // ---------------------------------------------------------------------------
  // split and join

  /** The position of the first `c` in `s`, or `|s|` when there is none. */
  function IndexOf(s: string, c: char): (k: nat)
    ensures k <= |s| && (k < |s| ==> s[k] == c) && c !in s[..k]
    ensures c in s <==> k < |s|
  {
    if s == [] then 0 else if s[0] == c then 0 else 1 + IndexOf(s[1..], c)
  }

  /** Python's `s.split(sep)` for a one-character separator: always at least one
      piece, and no piece contains the separator. */
  function Split(s: string, sep: char): (r: seq<string>)
    ensures |r| >= 1
    ensures sep in s ==> |r| >= 2
    ensures forall i :: 0 <= i < |r| ==> sep !in r[i]
    decreases |s|
  {
    var k := IndexOf(s, sep);
    if k == |s| then [s]
    else [s[..k]] + Split(s[k + 1..], sep)
  }

  /** The piece after the first separator, when the text before it has none. */
  lemma SplitAfterPrefix(head: string, sep: char, rest: string)
    requires sep !in head
    ensures Split(head + [sep] + rest, sep) == [head] + Split(rest, sep)
  {
    var s := head + [sep] + rest;
    IndexOfPrefix(head, sep, rest);
    assert s[..|head|] == head && s[|head| + 1..] == rest;
  }

  lemma {:induction false} IndexOfPrefix(head: string, c: char, rest: string)
    requires c !in head
    ensures c in head + [c] + rest && IndexOf(head + [c] + rest, c) == |head|
    decreases |head|
  {
    var s := head + [c] + rest;
    assert s[|head|] == c;
    if head != [] {
      assert s[1..] == head[1..] + [c] + rest;
      IndexOfPrefix(head[1..], c, rest);
    }
  }

  /** Python's `sep.join(parts)`. */
  function Join(parts: seq<string>, sep: string): string
    decreases |parts|
  {
    if parts == [] then ""
    else if |parts| == 1 then parts[0]
    else parts[0] + sep + Join(parts[1..], sep)
  }

  /** Splitting on a character and joining with the same character gives the text back. */
  lemma {:induction false} JoinSplit(s: string, sep: char)
    ensures Join(Split(s, sep), [sep]) == s
    decreases |s|
  {
    var k := IndexOf(s, sep);
    if k < |s| {
      var head, tail := s[..k], s[k + 1..];
      JoinSplit(tail, sep);
      JoinCons(head, Split(tail, sep), [sep]);
      assert s == head + [sep] + tail;
    }
  }

  lemma JoinCons(head: string, rest: seq<string>, sep: string)
    requires rest != []
    ensures Join([head] + rest, sep) == head + sep + Join(rest, sep)
  {
    assert ([head] + rest)[1..] == rest;
  }

  lemma JoinStartsWithFirst(parts: seq<string>, sep: string)
    requires parts != []
    ensures StartsWith(Join(parts, sep), parts[0])
  {
    var j := Join(parts, sep);
    if |parts| > 1 {
      assert j == parts[0] + (sep + Join(parts[1..], sep));
      assert j[..|parts[0]|] == parts[0];
    }
  }

  /** A join of pieces that are all non-empty is empty exactly when there are no pieces. */
  lemma {:induction false} JoinEmptyIff(parts: seq<string>, sep: string)
    requires forall i :: 0 <= i < |parts| ==> parts[i] != ""
    ensures Join(parts, sep) == "" <==> parts == []
  {
    if |parts| > 1 {
      assert |Join(parts, sep)| >= |parts[0]| > 0;
    }
  }

  // ---------------------------------------------------------------------------
  // int() on text

  /** Decimal digits `int()` accepts: ASCII, Arabic-Indic and Extended Arabic-Indic. */
  predicate IsDigit(c: char) {
    ('0' <= c <= '9') || ('\U{0660}' <= c <= '\U{0669}') || ('\U{06F0}' <= c <= '\U{06F9}')
  }

  function DigitValue(c: char): (d: nat)
    requires IsDigit(c)
    ensures d < 10
  {
    if '0' <= c <= '9' then c as int - '0' as int
    else if '\U{0660}' <= c <= '\U{0669}' then c as int - 0x660
    else c as int - 0x6F0
  }

  predicate AllDigits(s: string) {
    forall i :: 0 <= i < |s| ==> IsDigit(s[i])
  }

  /** The value of a run of decimal digits, most significant first. */
  function DigitsValue(s: string): nat
    requires AllDigits(s)
  {
    if s == [] then 0 else DigitsValue(s[..|s| - 1]) * 10 + DigitValue(s[|s| - 1])
  }

  /** Python's `int(s)` on a string, base 10: surrounding whitespace, an optional sign
      and at least one digit; `None` is the `ValueError`. */
  function ParseInt(s: string): (r: Option<int>)
    ensures r.Some? ==> Strip(s) != []
  {
    ParseStripped(Strip(s))
  }

  /** `int()` once the surrounding whitespace is gone. */
  function ParseStripped(t: string): (r: Option<int>)
    ensures r.Some? ==> t != []
  {
    if t != [] && (t[0] == '+' || t[0] == '-') then
      var digits := t[1..];
      if digits != [] && AllDigits(digits) then
        var v: int := DigitsValue(digits);
        Some(if t[0] == '-' then -v else v)
      else None
    else if t != [] && AllDigits(t) then Some(DigitsValue(t))
    else None
  }

  function DigitChar(d: nat): (c: char)
    requires d < 10
    ensures IsDigit(c) && DigitValue(c) == d
  {
    ('0' as int + d) as char
  }

  function NatToString(n: nat): (r: string)
    ensures r != [] && AllDigits(r)
  {
    if n < 10 then [DigitChar(n)] else NatToString(n / 10) + [DigitChar(n % 10)]
  }

  /** Python's `str(n)` (and `f"{n}"`) for an integer. */
  function IntToString(n: int): string {
    if n < 0 then "-" + NatToString(-n) else NatToString(n)
  }

  lemma {:induction false} NatToStringValue(n: nat)
    ensures DigitsValue(NatToString(n)) == n
  {
    if n >= 10 {
      var s := NatToString(n);
      NatToStringValue(n / 10);
      assert s[..|s| - 1] == NatToString(n / 10);
    }
  }

  lemma NoSpaceTrims(s: string)
    requires forall i :: 0 <= i < |s| ==> !IsSpace(s[i])
    ensures Strip(s) == s
  {
    TrimLeftOfTrimmed(s);
  }

  /** `int(str(n)) == n`: the decimal rendering parses back to the same integer. */
  lemma ParseIntToString(n: int)
    ensures ParseInt(IntToString(n)) == Some(n)
  {
    if n < 0 {
      var m: nat := -n;
      assert IntToString(n) == "-" + NatToString(m);
      ParseNegative(m);
    } else {
      ParseNatural(n);
    }
  }

  lemma ParseNatural(m: nat)
    ensures ParseInt(NatToString(m)) == Some(m as int)
  {
    var t := NatToString(m);
    NatToStringValue(m);
    assert t[0] != '+' && t[0] != '-';
    assert ParseStripped(t) == Some(m as int);
    NoSpaceTrims(t);
  }

  lemma ParseNegative(m: nat)
    ensures ParseInt("-" + NatToString(m)) == Some(-(m as int))
  {
    MinusNoSpace(NatToString(m));
    ParseStrippedMinus(m);
  }

  lemma ParseStrippedMinus(m: nat)
    ensures ParseStripped("-" + NatToString(m)) == Some(-(m as int))
  {
    var t := NatToString(m);
    NatToStringValue(m);
    assert ("-" + t)[1..] == t;
  }

  lemma MinusNoSpace(t: string)
    requires AllDigits(t)
    ensures Strip("-" + t) == "-" + t
  {
    var s := "-" + t;
    forall i | 0 <= i < |s|
      ensures !IsSpace(s[i])
    {
      if i > 0 {
        assert s[i] == t[i - 1];
      }
    }
    NoSpaceTrims(s);
  }
}
