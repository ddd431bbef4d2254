/** The heartbeat timestamp of the leader lock: `utc_now_iso` renders a clock reading
    with `strftime("%Y-%m-%dT%H:%M:%SZ")` and `parse_iso` reads it back with
    `strptime` of the same format (cluster_runner.py:22-29).

    Clock readings are whole seconds counted from 0001-01-01T00:00:00Z on the
    proleptic Gregorian calendar (Python's `datetime` calendar). `strptime` is more
    lenient than the format suggests: CPython matches the format with a
    case-insensitive regular expression in which `%m %d %H %M %S` also accept one
    digit (and `%d` a space then a digit), so `ParseIso` accepts more than
    `FormatIso` produces; the calendar checks that `datetime` makes afterwards
    (a day that exists in its month, second at most 59, year at least 1) turn the
    remaining bad dates into `None`. */
module IsoTime {
  import opened Strings

  datatype DateTime = DateTime(year: int, month: int, day: int, hour: int, minute: int, second: int)

  // ---------------------------------------------------------------------------
  // Calendar

  predicate IsLeap(y: int) {
    y % 4 == 0 && (y % 100 != 0 || y % 400 == 0)
  }

  function DaysInYear(y: int): int {
    if IsLeap(y) then 366 else 365
  }

  function DaysInMonth(y: int, m: int): int
    requires 1 <= m <= 12
  {
    if m == 2 then (if IsLeap(y) then 29 else 28)
    else if m == 4 || m == 6 || m == 9 || m == 11 then 30
    else 31
  }

  /** Days in the months of year `y` before month `m`. */
  function DaysBeforeMonth(y: int, m: int): int
    requires 1 <= m <= 12
  {
    (if m == 1 then 0 else if m == 2 then 31 else if m == 3 then 59
     else if m == 4 then 90 else if m == 5 then 120 else if m == 6 then 151
     else if m == 7 then 181 else if m == 8 then 212 else if m == 9 then 243
     else if m == 10 then 273 else if m == 11 then 304 else 334)
    + (if m > 2 && IsLeap(y) then 1 else 0)
  }

  /** Days from 0001-01-01 to the first day of year `y`. */
  function DaysBeforeYear(y: int): int
    requires y >= 1
  {
    var p := y - 1;
    365 * p + p / 4 - p / 100 + p / 400
  }

  lemma DaysBeforeYearStep(y: int)
    requires y >= 1
    ensures DaysBeforeYear(y + 1) == DaysBeforeYear(y) + DaysInYear(y)
  {
    var a := StepDiv4(y);
    var b := StepDiv100(y);
    var c := StepDiv400(y);
    CenturiesAreLeapCandidates(y);
    assert DaysInYear(y) == 365 + a - b + c;
  }

  /** Every multiple of 400 is one of 100, and every multiple of 100 one of 4. */
  lemma CenturiesAreLeapCandidates(y: int)
    ensures y % 400 == 0 ==> y % 100 == 0
    ensures y % 100 == 0 ==> y % 4 == 0
  {
    if y % 400 == 0 {
      Mod400Mod100(y);
    }
    if y % 100 == 0 {
      Mod100Mod4(y);
    }
  }

  lemma Mod400Mod100(y: int)
    requires y % 400 == 0
    ensures y % 100 == 0
  {
    var q := y / 400;
    assert y == 100 * (4 * q);
  }

  lemma Mod100Mod4(y: int)
    requires y % 100 == 0
    ensures y % 4 == 0
  {
    var q := y / 100;
    assert y == 4 * (25 * q);
  }

  /** How many multiples of 4 the year `y` adds to those below it. */
  lemma StepDiv4(y: int) returns (d: int)
    requires y >= 1
    ensures d == y / 4 - (y - 1) / 4 && d == (if y % 4 == 0 then 1 else 0)
  {
    var q, r := (y - 1) / 4, (y - 1) % 4;
    assert y == 4 * q + r + 1;
    d := y / 4 - q;
  }

  lemma StepDiv100(y: int) returns (d: int)
    requires y >= 1
    ensures d == y / 100 - (y - 1) / 100 && d == (if y % 100 == 0 then 1 else 0)
  {
    var q, r := (y - 1) / 100, (y - 1) % 100;
    assert y == 100 * q + r + 1;
    d := y / 100 - q;
  }

  lemma StepDiv400(y: int) returns (d: int)
    requires y >= 1
    ensures d == y / 400 - (y - 1) / 400 && d == (if y % 400 == 0 then 1 else 0)
  {
    var q, r := (y - 1) / 400, (y - 1) % 400;
    assert y == 400 * q + r + 1;
    d := y / 400 - q;
  }

  lemma DaysBeforeYearMonotonic(a: int, b: int)
    requires 1 <= a <= b
    ensures DaysBeforeYear(a) + 365 * (b - a) <= DaysBeforeYear(b)
  {
    var p, q := a - 1, b - 1;
    // Every multiple of 100 is one of 4, so (p, q] holds at least as many multiples
    // of 4 as of 100.
    var p4, q4, p100, q100 := p / 4, q / 4, p / 100, q / 100;
    assert 4 * q4 > q - 4 && q >= 100 * q100;
    assert q4 >= 25 * q100;
    assert 4 * p4 <= p && p < 100 * p100 + 100;
    assert p4 <= 25 * p100 + 24;
    assert q4 >= p4 && q100 >= p100;
    assert q / 400 >= p / 400;
  }

  predicate Valid(dt: DateTime) {
    1 <= dt.year && 1 <= dt.month <= 12 && 1 <= dt.day <= DaysInMonth(dt.year, dt.month) &&
    0 <= dt.hour < 24 && 0 <= dt.minute < 60 && 0 <= dt.second < 60
  }

  /** The clock reading of a calendar date and time. */
  function ToSeconds(dt: DateTime): int
    requires Valid(dt)
  {
    (DaysBeforeYear(dt.year) + DaysBeforeMonth(dt.year, dt.month) + dt.day - 1) * 86400
    + dt.hour * 3600 + dt.minute * 60 + dt.second
  }

  /** The year holding day number `d` when counting starts at year `y`, and the day
      of that year. */
  function YearOf(d: int, y: int): (r: (int, int))
    requires y >= 1 && d >= 0
    ensures y <= r.0 && 0 <= r.1 < DaysInYear(r.0)
    ensures DaysBeforeYear(r.0) + r.1 == DaysBeforeYear(y) + d
    decreases d
  {
    if d < DaysInYear(y) then (y, d)
    else DaysBeforeYearStep(y); YearOf(d - DaysInYear(y), y + 1)
  }

  /** The month holding day `d` of year `y` when counting starts at month `m`, and the
      day of that month. */
  function MonthOf(y: int, d: int, m: int): (r: (int, int))
    requires 1 <= m <= 12 && 0 <= d && DaysBeforeMonth(y, m) + d < DaysInYear(y)
    ensures m <= r.0 <= 12 && 0 <= r.1 < DaysInMonth(y, r.0)
    ensures DaysBeforeMonth(y, r.0) + r.1 == DaysBeforeMonth(y, m) + d
    decreases 12 - m
  {
    if d < DaysInMonth(y, m) then (m, d)
    else MonthOf(y, d - DaysInMonth(y, m), m + 1)
  }

  /** The earliest and the first excluded clock reading whose year has four digits. */
  const MinClock: int := 364877 * 86400
  const MaxClock: int := 3652059 * 86400

  lemma ClockBounds()
    ensures MinClock == DaysBeforeYear(1000) * 86400
    ensures MaxClock == DaysBeforeYear(10000) * 86400
  {
  }

  /** The calendar date and time of a clock reading. */
  function FromSeconds(t: int): (dt: DateTime)
    requires MinClock <= t < MaxClock
    ensures Valid(dt) && 1000 <= dt.year <= 9999
    ensures ToSeconds(dt) == t
  {
    var days, rem := t / 86400, t % 86400;
    var (y, doy) := YearOf(days, 1);
    var (m, dom) := MonthOf(y, doy, 1);
    var dt := DateTime(y, m, dom + 1, rem / 3600, rem % 3600 / 60, rem % 60);
    ClockBounds();
    YearBounds(days, y, doy);
    TimeOfDay(t);
    assert DaysBeforeYear(y) + DaysBeforeMonth(y, m) + dom == days;
    dt
  }

  /** A clock reading is its day number, hours, minutes and seconds. */
  lemma TimeOfDay(t: int)
    ensures var rem := t % 86400;
            0 <= rem / 3600 < 24 && 0 <= rem % 3600 / 60 < 60 && 0 <= rem % 60 < 60 &&
            t == t / 86400 * 86400 + rem / 3600 * 3600 + rem % 3600 / 60 * 60 + rem % 60
  {
    var rem := t % 86400;
    assert t == t / 86400 * 86400 + rem;
    var r2 := rem % 3600;
    assert rem == rem / 3600 * 3600 + r2;
    assert r2 == r2 / 60 * 60 + r2 % 60;
    assert r2 % 60 == rem % 60;
  }

  lemma YearBounds(days: int, y: int, doy: int)
    requires y >= 1 && 0 <= doy < DaysInYear(y)
    requires DaysBeforeYear(y) + doy == days
    requires DaysBeforeYear(1000) <= days < DaysBeforeYear(10000)
    ensures 1000 <= y <= 9999
  {
    DaysBeforeYearStep(y);
    if y < 1000 {
      DaysBeforeYearMonotonic(y + 1, 1000);
    }
    if y > 9999 {
      DaysBeforeYearMonotonic(10000, y);
    }
  }

  // ---------------------------------------------------------------------------
  // strftime("%Y-%m-%dT%H:%M:%SZ")

  function Pad2(n: int): (s: string)
    requires 0 <= n < 100
    ensures |s| == 2 && AllDigits(s)
  {
    [DigitChar(n / 10), DigitChar(n % 10)]
  }

  function Pad4(n: int): (s: string)
    requires 0 <= n < 10000
    ensures |s| == 4 && AllDigits(s)
  {
    Pad2(n / 100) + Pad2(n % 100)
  }

  /** The fields `fs`, each followed by its separator in `seps`. */
  function Interleave(fs: seq<string>, seps: string): string
    requires |fs| == |seps|
  {
    if fs == [] then "" else fs[0] + [seps[0]] + Interleave(fs[1..], seps[1..])
  }

  /** `%Y-%m-%dT%H:%M:%SZ` with every field zero-padded. */
  function Render(dt: DateTime): string
    requires 0 <= dt.year < 10000 && 0 <= dt.month < 100 && 0 <= dt.day < 100
    requires 0 <= dt.hour < 100 && 0 <= dt.minute < 100 && 0 <= dt.second < 100
  {
    Pad4(dt.year) + "-" +
    Interleave([Pad2(dt.month), Pad2(dt.day), Pad2(dt.hour), Pad2(dt.minute), Pad2(dt.second)], "-T::Z")
  }

  /** `utc_now_iso()` for the clock reading `now`. */
  function FormatIso(now: int): string
    requires MinClock <= now < MaxClock
  {
    Render(FromSeconds(now))
  }

  // ---------------------------------------------------------------------------
  // strptime(s, "%Y-%m-%dT%H:%M:%SZ")

  /** `%m`: `1[0-2]|0[1-9]|[1-9]` */
  predicate MonthText(f: string) {
    (|f| == 2 && ((f[0] == '1' && '0' <= f[1] <= '2') || (f[0] == '0' && '1' <= f[1] <= '9'))) ||
    (|f| == 1 && '1' <= f[0] <= '9')
  }

  /** `%d`: `3[01]|[12]\d|0[1-9]|[1-9]| [1-9]` */
  predicate DayText(f: string) {
    (|f| == 2 && ((f[0] == '3' && (f[1] == '0' || f[1] == '1')) ||
                  ((f[0] == '1' || f[0] == '2') && IsDigit(f[1])) ||
                  (f[0] == '0' && '1' <= f[1] <= '9') ||
                  (f[0] == ' ' && '1' <= f[1] <= '9'))) ||
    (|f| == 1 && '1' <= f[0] <= '9')
  }

  /** `%H`: `2[0-3]|[0-1]\d|\d` */
  predicate HourText(f: string) {
    (|f| == 2 && ((f[0] == '2' && '0' <= f[1] <= '3') || ((f[0] == '0' || f[0] == '1') && IsDigit(f[1])))) ||
    (|f| == 1 && IsDigit(f[0]))
  }

  /** `%M`: `[0-5]\d|\d` */
  predicate MinuteText(f: string) {
    (|f| == 2 && '0' <= f[0] <= '5' && IsDigit(f[1])) || (|f| == 1 && IsDigit(f[0]))
  }

  /** `%S`: `6[0-1]|[0-5]\d|\d` */
  predicate SecondText(f: string) {
    (|f| == 2 && ((f[0] == '6' && (f[1] == '0' || f[1] == '1')) || ('0' <= f[0] <= '5' && IsDigit(f[1])))) ||
    (|f| == 1 && IsDigit(f[0]))
  }

  predicate IsDash(c: char) { c == '-' }
  predicate IsColon(c: char) { c == ':' }
  predicate IsT(c: char) { c == 'T' || c == 't' }
  predicate IsZ(c: char) { c == 'Z' || c == 'z' }

  /** A numeric directive of the format: the texts it matches and the literal that
      must follow it. */
  datatype Directive = Directive(text: string -> bool, sep: char -> bool)

  /** `%m-%dT%H:%M:%SZ`, the part of the format after `%Y-`. */
  const AfterYear: seq<Directive> := [Directive(MonthText, IsDash), Directive(DayText, IsT),
                                      Directive(HourText, IsColon), Directive(MinuteText, IsColon),
                                      Directive(SecondText, IsZ)]

  /** One directive followed by its separator: the two-character alternatives are
      tried before the one-character ones, as the regular expression does (at most one
      of them can be followed by the separator). */
  function Field(s: string, d: Directive): Option<(string, string)> {
    if |s| >= 3 && d.text(s[..2]) && d.sep(s[2]) then Some((s[..2], s[3..]))
    else if |s| >= 2 && d.text(s[..1]) && d.sep(s[1]) then Some((s[..1], s[2..]))
    else None
  }

  /** `int()` of a matched field (a leading space is only possible for `%d`). */
  function FieldValue(f: string): int {
    var g := if f != [] && f[0] == ' ' then f[1..] else f;
    if AllDigits(g) then DigitsValue(g) else 0
  }

  /** The values of the directives `ds` matched against the whole of `s`. */
  function Directives(s: string, ds: seq<Directive>): (r: Option<seq<int>>)
    ensures r.Some? ==> |r.value| == |ds|
    decreases |ds|
  {
    if ds == [] then (if s == [] then Some([]) else None)
    else
      match Field(s, ds[0])
      case None => None
      case Some((f, rest)) =>
        match Directives(rest, ds[1..])
        case None => None
        case Some(vs) => Some([FieldValue(f)] + vs)
  }

  /** The fields that the regular expression of `strptime` extracts, before the
      calendar checks. */
  function ParseFields(s: string): Option<DateTime> {
    if |s| < 5 || !AllDigits(s[..4]) || s[4] != '-' then None
    else
      match Directives(s[5..], AfterYear)
      case None => None
      case Some(vs) => Some(DateTime(DigitsValue(s[..4]), vs[0], vs[1], vs[2], vs[3], vs[4]))
  }

  /** `parse_iso(s)`: the clock reading the text denotes, or `None` where `strptime`
      or the `datetime` constructor raises. */
  function ParseIso(s: string): (r: Option<int>)
    ensures r.Some? ==> ParseFields(s).Some? && Valid(ParseFields(s).value) &&
                        r.value == ToSeconds(ParseFields(s).value)
  {
    match ParseFields(s)
    case None => None
    case Some(dt) =>
      if 1 <= dt.year && 1 <= dt.month <= 12 && 1 <= dt.day <= DaysInMonth(dt.year, dt.month)
         && dt.hour < 24 && dt.minute < 60 && dt.second < 60
         && dt.hour >= 0 && dt.minute >= 0 && dt.second >= 0
      then Some(ToSeconds(dt))
      else None
  }

  // ---------------------------------------------------------------------------
  // What the grammar accepts

  lemma Pad2Value(n: int)
    requires 0 <= n < 100
    ensures FieldValue(Pad2(n)) == n
  {
    var s := Pad2(n);
    assert s[..1] == [s[0]];
    assert DigitsValue(s[..1]) == n / 10;
  }

  lemma Pad4Value(n: int)
    requires 0 <= n < 10000
    ensures DigitsValue(Pad4(n)) == n
  {
    var s := Pad4(n);
    var a, b := Pad2(n / 100), Pad2(n % 100);
    assert s[..3] == a + [b[0]];
    assert s[..2] == a;
    assert (a + [b[0]])[..2] == a;
    assert a[..1] == [a[0]];
    Pad2Value(n / 100);
    assert DigitsValue(a) == n / 100;
  }

  /** The field texts the directives match: one or two characters, the second one a
      decimal digit. */
  predicate FieldShape(f: string) {
    (|f| == 1 || |f| == 2) && (|f| == 2 ==> IsDigit(f[1]))
  }

  /** What a directive of `AfterYear` needs of the field text `f` and the separator
      `c`: `f` matches, `c` is its literal, and `f` with `c` appended does not also
      match (so the two-character alternative cannot steal the separator). */
  predicate Matches(d: Directive, f: string, c: char) {
    d.text(f) && d.sep(c) && FieldShape(f) && !d.text(f + [c])
  }

  lemma FieldOf(f: string, c: char, rest: string, d: Directive)
    requires Matches(d, f, c)
    ensures Field(f + [c] + rest, d) == Some((f, rest))
  {
    var s := f + [c] + rest;
    if |f| == 2 {
      assert s[..2] == f && s[3..] == rest;
    } else {
      assert s[..1] == f && s[2..] == rest;
      assert s[..2] == f + [c];
    }
  }

  /** The `int()` values of matched field texts. */
  function Values(fs: seq<string>): (vs: seq<int>)
    ensures |vs| == |fs| && forall i :: 0 <= i < |fs| ==> vs[i] == FieldValue(fs[i])
  {
    if fs == [] then [] else [FieldValue(fs[0])] + Values(fs[1..])
  }

  /** Matching field texts, each followed by its literal, yield the fields' values. */
  lemma {:induction false} DirectivesOf(fs: seq<string>, seps: string, ds: seq<Directive>)
    requires |fs| == |seps| == |ds|
    requires forall i :: 0 <= i < |ds| ==> Matches(ds[i], fs[i], seps[i])
    ensures Directives(Interleave(fs, seps), ds) == Some(Values(fs))
    decreases |ds|
  {
    if ds != [] {
      var rest := Interleave(fs[1..], seps[1..]);
      assert Interleave(fs, seps) == fs[0] + [seps[0]] + rest;
      assert Matches(ds[0], fs[0], seps[0]);
      FieldOf(fs[0], seps[0], rest, ds[0]);
      DirectivesOf(fs[1..], seps[1..], ds[1..]);
    }
  }

  /** No directive of `AfterYear` matches a field text followed by a non-digit. */
  lemma AfterYearMatches(fs: seq<string>, seps: string)
    requires |fs| == |seps| == 5
    requires MonthText(fs[0]) && DayText(fs[1]) && HourText(fs[2]) && MinuteText(fs[3]) && SecondText(fs[4])
    requires seps[0] == '-' && IsT(seps[1]) && seps[2] == ':' && seps[3] == ':' && IsZ(seps[4])
    ensures forall i :: 0 <= i < 5 ==> Matches(AfterYear[i], fs[i], seps[i])
  {
  }

  /** Any four-digit year and any field texts the directives match, with any spelling
      of the `T` and `Z` separators, parse to the date made of their values. */
  lemma ParseFieldsOf(y4: string, fs: seq<string>, seps: string)
    requires |y4| == 4 && AllDigits(y4) && |fs| == |seps| == 5
    requires MonthText(fs[0]) && DayText(fs[1]) && HourText(fs[2]) && MinuteText(fs[3]) && SecondText(fs[4])
    requires seps[0] == '-' && IsT(seps[1]) && seps[2] == ':' && seps[3] == ':' && IsZ(seps[4])
    ensures ParseFields(y4 + "-" + Interleave(fs, seps)) ==
            Some(DateTime(DigitsValue(y4), FieldValue(fs[0]), FieldValue(fs[1]),
                          FieldValue(fs[2]), FieldValue(fs[3]), FieldValue(fs[4])))
  {
    var s := y4 + "-" + Interleave(fs, seps);
    assert s[..4] == y4 && s[4] == '-' && s[5..] == Interleave(fs, seps);
    AfterYearMatches(fs, seps);
    DirectivesOf(fs, seps, AfterYear);
  }

  // ---------------------------------------------------------------------------
  // Round trip

  /** The canonical rendering of a valid date parses back to that date. */
  lemma ParseFieldsRender(dt: DateTime)
    requires Valid(dt) && dt.year < 10000
    ensures ParseFields(Render(dt)) == Some(dt)
  {
    ParseFieldsOf(Pad4(dt.year), [Pad2(dt.month), Pad2(dt.day), Pad2(dt.hour), Pad2(dt.minute), Pad2(dt.second)], "-T::Z");
    Pad4Value(dt.year);
    Pad2Value(dt.month);
    Pad2Value(dt.day);
    Pad2Value(dt.hour);
    Pad2Value(dt.minute);
    Pad2Value(dt.second);
  }

  /** `parse_iso(utc_now_iso())` recovers the clock reading to the second. */
  lemma ParseFormatIso(now: int)
    requires MinClock <= now < MaxClock
    ensures ParseIso(FormatIso(now)) == Some(now)
  {
    ParseFieldsRender(FromSeconds(now));
  }

  lemma OneDigitValue(n: nat)
    requires n < 10
    ensures FieldValue([DigitChar(n)]) == n && FieldValue([' ', DigitChar(n)]) == n
  {
    var c := DigitChar(n);
    assert [c][..0] == [];
    assert DigitsValue([c]) == n;
    assert [' ', c][0] == ' ' && [' ', c][1..] == [c];
  }

  /** The lenient spellings that `strptime` also accepts: one-digit fields, a space
      before a one-digit day and lower-case `t` and `z` denote the same instant as the
      zero-padded text. */
  lemma LenientSpellingsAgree(y4: string, mo: nat, d: nat, h: nat, mi: nat, sec: nat)
    requires |y4| == 4 && AllDigits(y4)
    requires 1 <= mo <= 9 && 1 <= d <= 9 && h <= 9 && mi <= 9 && sec <= 9
    ensures ParseIso(y4 + "-" + Interleave([[DigitChar(mo)], [' ', DigitChar(d)], [DigitChar(h)],
                                            [DigitChar(mi)], [DigitChar(sec)]], "-t::z")) ==
            ParseIso(y4 + "-" + Interleave([Pad2(mo), Pad2(d), Pad2(h), Pad2(mi), Pad2(sec)], "-T::Z"))
  {
    ShortSpelling(y4, mo, d, h, mi, sec);
    PaddedSpelling(y4, mo, d, h, mi, sec);
  }

  /** The short spelling of `LenientSpellingsAgree` yields the fields' values. */
  lemma ShortSpelling(y4: string, mo: nat, d: nat, h: nat, mi: nat, sec: nat)
    requires |y4| == 4 && AllDigits(y4)
    requires 1 <= mo <= 9 && 1 <= d <= 9 && h <= 9 && mi <= 9 && sec <= 9
    ensures ParseFields(y4 + "-" + Interleave([[DigitChar(mo)], [' ', DigitChar(d)], [DigitChar(h)],
                                               [DigitChar(mi)], [DigitChar(sec)]], "-t::z")) ==
            Some(DateTime(DigitsValue(y4), mo, d, h, mi, sec))
  {
    var short := [[DigitChar(mo)], [' ', DigitChar(d)], [DigitChar(h)], [DigitChar(mi)], [DigitChar(sec)]];
    assert MonthText(short[0]) && DayText(short[1]) && HourText(short[2]);
    assert MinuteText(short[3]) && SecondText(short[4]);
    ParseFieldsOf(y4, short, "-t::z");
    OneDigitValue(mo); OneDigitValue(d); OneDigitValue(h); OneDigitValue(mi); OneDigitValue(sec);
  }

  lemma Pad2Small(n: nat)
    requires n < 10
    ensures Pad2(n) == ['0', DigitChar(n)]
  {
  }

  /** The zero-padded spelling of `LenientSpellingsAgree` yields the fields' values. */
  lemma PaddedSpelling(y4: string, mo: nat, d: nat, h: nat, mi: nat, sec: nat)
    requires |y4| == 4 && AllDigits(y4)
    requires 1 <= mo <= 9 && 1 <= d <= 9 && h <= 9 && mi <= 9 && sec <= 9
    ensures ParseFields(y4 + "-" + Interleave([Pad2(mo), Pad2(d), Pad2(h), Pad2(mi), Pad2(sec)], "-T::Z")) ==
            Some(DateTime(DigitsValue(y4), mo, d, h, mi, sec))
  {
    var padded := [Pad2(mo), Pad2(d), Pad2(h), Pad2(mi), Pad2(sec)];
    Pad2Small(mo); Pad2Small(d); Pad2Small(h); Pad2Small(mi); Pad2Small(sec);
    assert MonthText(padded[0]) && DayText(padded[1]) && HourText(padded[2]);
    assert MinuteText(padded[3]) && SecondText(padded[4]);
    ParseFieldsOf(y4, padded, "-T::Z");
    Pad2Value(mo); Pad2Value(d); Pad2Value(h); Pad2Value(mi); Pad2Value(sec);
  }

  /** A well-formed text naming a day its month does not have (30 February) is
      rejected by the calendar check of `datetime`. */
  lemma NoThirtiethOfFebruary(y4: string, h: string, mi: string)
    requires |y4| == 4 && AllDigits(y4) && HourText(h) && MinuteText(mi)
    ensures ParseIso(y4 + "-" + Interleave([Pad2(2), Pad2(30), h, mi, Pad2(0)], "-T::Z")) == None
  {
    Pad2Value(2); Pad2Value(30); Pad2Value(0);
    var fs := [Pad2(2), Pad2(30), h, mi, Pad2(0)];
    assert Pad2(2) == "02" && Pad2(30) == "30" && Pad2(0) == "00";
    ParseFieldsOf(y4, fs, "-T::Z");
  }

  /** A well-formed text naming second 60 (a leap second) is rejected by `datetime`. */
  lemma NoLeapSecond(y4: string, h: string, mi: string)
    requires |y4| == 4 && AllDigits(y4) && HourText(h) && MinuteText(mi)
    ensures ParseIso(y4 + "-" + Interleave([Pad2(1), Pad2(5), h, mi, Pad2(60)], "-T::Z")) == None
  {
    Pad2Value(1); Pad2Value(5); Pad2Value(60);
    var fs := [Pad2(1), Pad2(5), h, mi, Pad2(60)];
    assert Pad2(1) == "01" && Pad2(5) == "05" && Pad2(60) == "60";
    ParseFieldsOf(y4, fs, "-T::Z");
  }
}
