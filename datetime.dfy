/**
 * The date handling shared by both revisions of the customer request:
 *  - the recogniser `^\d{4}-\d{2}-\d{2}T\d{2}:\d{2}:\d{2}\.\d{3}Z$` applied with
 *    Java's `String.matches` (the whole string must match), a profile of the
 *    date-time format of section 5.6 of RFC 3339 with exactly three fraction
 *    digits and the `Z` offset only;
 *  - `LocalDateTime.parse(s, DateTimeFormatter.ISO_DATE_TIME)`, whose STRICT
 *    resolver checks the month, the day of that month in the proleptic Gregorian
 *    calendar, the hour, the minute and the second; modelled on strings the
 *    recogniser accepts, every other string being unparseable;
 *  - `LocalDateTime.isAfter`.
 * The main result is that for two strings that parse, chronological order is
 * the lexicographic order of the strings themselves.
 */
module DateTime {
  import opened Wrappers

  // ---------------------------------------------------------------------------
  // Decimal digits
  // ---------------------------------------------------------------------------

  /** Java's `\d` without UNICODE_CHARACTER_CLASS: the ASCII digits only. */
  predicate IsDigit(c: char) {
    '0' <= c <= '9'
  }

  predicate AllDigits(s: string) {
    forall i :: 0 <= i < |s| ==> IsDigit(s[i])
  }

  function DigitValue(c: char): (v: nat)
    requires IsDigit(c)
    ensures v < 10
  {
    c as int - '0' as int
  }

  function DigitChar(v: nat): (c: char)
    requires v < 10
    ensures IsDigit(c) && DigitValue(c) == v
  {
    ('0' as int + v) as char
  }

  function Pow10(n: nat): (p: nat)
    ensures p >= 1
  {
    if n == 0 then 1 else 10 * Pow10(n - 1)
  }

  /** The value of a zero-padded decimal field, most significant digit first. */
  function Number(d: string): (n: nat)
    requires AllDigits(d)
    ensures n < Pow10(|d|)
  {
    if d == [] then 0 else 10 * Number(d[..|d| - 1]) + DigitValue(d[|d| - 1])
  }

  lemma AllDigitsPrefix(d: string, k: nat)
    requires AllDigits(d) && k <= |d|
    ensures AllDigits(d[..k])
  {
    forall i | 0 <= i < k ensures IsDigit(d[..k][i]) { assert d[..k][i] == d[i]; }
  }

  /** `n` written with exactly `w` digits, padded with leading zeros. */
  function PadDigits(n: nat, w: nat): (d: string)
    requires n < Pow10(w)
    ensures |d| == w && AllDigits(d) && Number(d) == n
  {
    if w == 0 then []
    else
      var d := PadDigits(n / 10, w - 1) + [DigitChar(n % 10)];
      assert d[..|d| - 1] == PadDigits(n / 10, w - 1);
      d
  }

  /** A digit string is the padded form of its own value: the digits determine the number and back. */
  lemma {:induction false} PadDigitsOfNumber(d: string)
    requires AllDigits(d)
    ensures PadDigits(Number(d), |d|) == d
  {
    if d != [] {
      var init, last := d[..|d| - 1], d[|d| - 1];
      AllDigitsPrefix(d, |d| - 1);
      PadDigitsOfNumber(init);
      var n := Number(d);
      assert n == 10 * Number(init) + DigitValue(last);
      assert n / 10 == Number(init) && n % 10 == DigitValue(last);
      assert DigitChar(DigitValue(last)) == last;
      assert PadDigits(n, |d|) == PadDigits(Number(init), |init|) + [last];
      assert d == init + [last];
    }
  }

  // ---------------------------------------------------------------------------
  // The recogniser
  // ---------------------------------------------------------------------------

  /** One element of an anchored regular expression without alternation: `\d{n}` or a literal character. */
  datatype Atom = Digits(count: nat) | Literal(c: char)

  /** A sequence of atoms, matched left to right. */
  datatype Pattern = Empty | Cat(atom: Atom, rest: Pattern)

  /** `\d{4}-\d{2}-\d{2}T\d{2}:\d{2}:\d{2}\.\d{3}Z` */
  const DatePattern: Pattern :=
    Cat(Digits(4), Cat(Literal('-'), Cat(Digits(2), Cat(Literal('-'), Cat(Digits(2), Cat(Literal('T'),
    Cat(Digits(2), Cat(Literal(':'), Cat(Digits(2), Cat(Literal(':'), Cat(Digits(2), Cat(Literal('.'),
    Cat(Digits(3), Cat(Literal('Z'), Empty))))))))))))))

  /** `String.matches` with the pattern `^p$`: the atoms must consume the whole string in order. */
  predicate FullMatch(p: Pattern, s: string) {
    match p
    case Empty => s == []
    case Cat(Digits(n), rest) => n <= |s| && AllDigits(s[..n]) && FullMatch(rest, s[n..])
    case Cat(Literal(c), rest) => 1 <= |s| && s[0] == c && FullMatch(rest, s[1..])
  }

  /** `s.matches("^\\d{4}-\\d{2}-\\d{2}T\\d{2}:\\d{2}:\\d{2}\\.\\d{3}Z$")` */
  predicate Matches(s: string) {
    FullMatch(DatePattern, s)
  }

  /** The number of characters a pattern matches. */
  function Length(p: Pattern): nat {
    match p
    case Empty => 0
    case Cat(Digits(n), rest) => n + Length(rest)
    case Cat(Literal(_), rest) => 1 + Length(rest)
  }

  /** The widths of the digit groups, in order. */
  function Widths(p: Pattern): seq<nat> {
    match p
    case Empty => []
    case Cat(Digits(n), rest) => [n] + Widths(rest)
    case Cat(Literal(_), rest) => Widths(rest)
  }

  /** The values of the digit groups of a matched string, in order. */
  function Values(p: Pattern, s: string): (vs: seq<nat>)
    requires FullMatch(p, s)
    ensures |vs| == |Widths(p)|
  {
    match p
    case Empty => []
    case Cat(Digits(n), rest) => [Number(s[..n])] + Values(rest, s[n..])
    case Cat(Literal(_), rest) => Values(rest, s[1..])
  }

  /** Every value fits the width of its group. */
  predicate Fit(ws: seq<nat>, vs: seq<nat>) {
    |vs| == |ws| && forall k :: 0 <= k < |vs| ==> vs[k] < Pow10(ws[k])
  }

  lemma {:induction false} ValuesFit(p: Pattern, s: string)
    requires FullMatch(p, s)
    ensures Fit(Widths(p), Values(p, s))
  {
    match p
    case Empty =>
    case Cat(Digits(n), rest) =>
      ValuesFit(rest, s[n..]);
      var vs, ws := Values(rest, s[n..]), Widths(rest);
      assert Values(p, s) == [Number(s[..n])] + vs && Widths(p) == [n] + ws;
      forall k | 1 <= k < |vs| + 1 ensures ([Number(s[..n])] + vs)[k] < Pow10(([n] + ws)[k]) {
        assert vs[k - 1] < Pow10(ws[k - 1]);
      }
    case Cat(Literal(_), rest) =>
      ValuesFit(rest, s[1..]);
  }

  /** The inverse of `Values`: the pattern's literals with the values written zero-padded in its digit groups. */
  function Render(p: Pattern, vs: seq<nat>): (s: string)
    requires Fit(Widths(p), vs)
    ensures |s| == Length(p)
    ensures FullMatch(p, s) && Values(p, s) == vs
  {
    match p
    case Empty => []
    case Cat(Digits(n), rest) =>
      assert Fit(Widths(rest), vs[1..]) by {
        forall k | 0 <= k < |vs| - 1 ensures vs[1..][k] < Pow10(Widths(rest)[k]) {
          assert vs[k + 1] < Pow10(Widths(p)[k + 1]);
        }
      }
      var s := PadDigits(vs[0], n) + Render(rest, vs[1..]);
      assert s[..n] == PadDigits(vs[0], n) && s[n..] == Render(rest, vs[1..]);
      assert vs == [vs[0]] + vs[1..];
      s
    case Cat(Literal(c), rest) =>
      var s := [c] + Render(rest, vs);
      assert s[1..] == Render(rest, vs);
      s
  }

  /** A matched string is the rendering of its own values: matching and extracting lose nothing. */
  lemma {:induction false} RenderValues(p: Pattern, s: string)
    requires FullMatch(p, s)
    ensures Fit(Widths(p), Values(p, s)) && Render(p, Values(p, s)) == s
  {
    ValuesFit(p, s);
    match p
    case Empty =>
    case Cat(Digits(n), rest) =>
      var head, tail := s[..n], s[n..];
      RenderValues(rest, tail);
      PadDigitsOfNumber(head);
      RenderDigitsStep(n, rest, Number(head), Values(rest, tail));
      assert Values(p, s) == [Number(head)] + Values(rest, tail);
      assert s == head + tail;
    case Cat(Literal(c), rest) =>
      RenderValues(rest, s[1..]);
      assert s == [c] + s[1..];
  }

  /** One step of `Render` on a digit group. */
  lemma RenderDigitsStep(n: nat, rest: Pattern, v: nat, vs: seq<nat>)
    requires v < Pow10(n) && Fit(Widths(rest), vs)
    ensures Fit(Widths(Cat(Digits(n), rest)), [v] + vs)
    ensures Render(Cat(Digits(n), rest), [v] + vs) == PadDigits(v, n) + Render(rest, vs)
  {
    var ws := Widths(Cat(Digits(n), rest));
    assert ws == [n] + Widths(rest);
    forall k | 1 <= k < |vs| + 1 ensures ([v] + vs)[k] < Pow10(ws[k]) {
      assert vs[k - 1] < Pow10(Widths(rest)[k - 1]);
    }
    assert ([v] + vs)[0] == v && ([v] + vs)[1..] == vs;
  }

  /** The recogniser accepts only strings of the pattern's fixed length. */
  lemma {:induction false} FullMatchLength(p: Pattern, s: string)
    requires FullMatch(p, s)
    ensures |s| == Length(p)
  {
    match p
    case Empty =>
    case Cat(Digits(n), rest) => FullMatchLength(rest, s[n..]);
    case Cat(Literal(c), rest) => FullMatchLength(rest, s[1..]);
  }

  /** Every string the date recogniser accepts has exactly 24 characters and seven digit groups. */
  lemma MatchesShape(s: string)
    requires Matches(s)
    ensures |s| == 24 && Widths(DatePattern) == [4, 2, 2, 2, 2, 2, 3]
  {
    FullMatchLength(DatePattern, s);
  }

  // ---------------------------------------------------------------------------
  // LocalDateTime and the strict resolver
  // ---------------------------------------------------------------------------

  /**
   * A `java.time.LocalDateTime`: a date in the proleptic Gregorian calendar and a time of day.
   * Every string this model parses has exactly three fraction digits, so the nano-of-second
   * is always a whole number of milliseconds and the model keeps the milliseconds.
   */
  datatype LocalDateTime = LocalDateTime(year: int, month: int, day: int, hour: int, minute: int, second: int, milli: int)
  {
    /** The field ranges the STRICT resolver of ISO_DATE_TIME enforces. */
    predicate Valid() {
      && 1 <= month <= 12
      && 1 <= day <= DaysInMonth(year, month)
      && 0 <= hour <= 23
      && 0 <= minute <= 59
      && 0 <= second <= 59
      && 0 <= milli <= 999
    }

    /** Writable in the 24-character layout: a year of at most four digits. */
    predicate Representable() {
      0 <= year <= 9999
    }

    /** Every field fits its digit group, whether or not the fields name a real date-time. */
    predicate FitsLayout() {
      && Representable()
      && 0 <= month < 100 && 0 <= day < 100
      && 0 <= hour < 100 && 0 <= minute < 100 && 0 <= second < 100
      && 0 <= milli < 1000
    }

    /** The fields in the order `compareTo` looks at them. */
    function FieldValues(): seq<int> {
      [year, month, day, hour, minute, second, milli]
    }
  }

  /** `IsoChronology.isLeapYear`. */
  predicate IsLeapYear(year: int) {
    year % 4 == 0 && (year % 100 != 0 || year % 400 == 0)
  }

  function DaysInMonth(year: int, month: int): (n: int)
    requires 1 <= month <= 12
    ensures 28 <= n <= 31
    ensures n == 29 <==> month == 2 && IsLeapYear(year)
  {
    if month == 2 then (if IsLeapYear(year) then 29 else 28)
    else if month == 4 || month == 6 || month == 9 || month == 11 then 30
    else 31
  }

  /** The fields of a recognised string, read as numbers but not yet range-checked. */
  function Fields(s: string): (dt: LocalDateTime)
    requires Matches(s)
    ensures dt.Representable() && 0 <= dt.milli <= 999
  {
    MatchesShape(s);
    ValuesFit(DatePattern, s);
    var vs := Values(DatePattern, s);
    assert vs[0] < Pow10(4) == 10000 && vs[6] < Pow10(3) == 1000;
    LocalDateTime(vs[0], vs[1], vs[2], vs[3], vs[4], vs[5], vs[6])
  }

  /**
   * `LocalDateTime.parse(s, DateTimeFormatter.ISO_DATE_TIME)` on recognised strings:
   * `None` stands for a `DateTimeParseException`.
   */
  function Parse(s: string): (r: Option<LocalDateTime>)
    ensures r.Some? ==> Matches(s) && r.value.Valid() && r.value.Representable()
    ensures Matches(s) && !Fields(s).Valid() ==> r.None?
    ensures Matches(s) && Fields(s).Valid() ==> r == Some(Fields(s))
  {
    if Matches(s) && Fields(s).Valid() then Some(Fields(s)) else None
  }

  /**
   * The inverse of `Fields`: the 24-character rendering of a date-time, or of any
   * fields that fit the layout.
   */
  function Format(dt: LocalDateTime): (s: string)
    requires dt.FitsLayout()
    ensures Matches(s) && Fields(s) == dt
  {
    var vs: seq<nat> := [dt.year, dt.month, dt.day, dt.hour, dt.minute, dt.second, dt.milli];
    assert Widths(DatePattern) == [4, 2, 2, 2, 2, 2, 3];
    assert Pow10(2) == 100 && Pow10(3) == 1000 && Pow10(4) == 10000;
    Render(DatePattern, vs)
  }

  /** Round trip: a rendered date-time parses back to itself. */
  lemma ParseFormat(dt: LocalDateTime)
    requires dt.Valid() && dt.Representable()
    ensures Parse(Format(dt)) == Some(dt)
  {
  }

  /** The strings of the right form that do not parse are exactly the renderings of fields that are not a real date-time. */
  lemma ParseRejectsUnrealFields(dt: LocalDateTime)
    requires dt.FitsLayout()
    ensures Parse(Format(dt)).None? <==> !dt.Valid()
  {
  }

  /** February 29 is a date exactly in leap years: 2024 and 2000 are, 2023 and 1900 are not. */
  lemma LeapDay(year: int)
    ensures LocalDateTime(year, 2, 29, 0, 0, 0, 0).Valid() <==> IsLeapYear(year)
    ensures IsLeapYear(2024) && IsLeapYear(2000) && !IsLeapYear(2023) && !IsLeapYear(1900)
  {
  }

  /** Round trip: a string that parses is the rendering of what it parses to. */
  lemma FormatParse(s: string)
    requires Parse(s).Some?
    ensures Format(Parse(s).value) == s
  {
    MatchesShape(s);
    var vs := Values(DatePattern, s);
    RenderValues(DatePattern, s);
    assert vs == [vs[0], vs[1], vs[2], vs[3], vs[4], vs[5], vs[6]];
  }

  // ---------------------------------------------------------------------------
  // Ordering
  // ---------------------------------------------------------------------------

  function Sign(x: int): (c: int)
    ensures -1 <= c <= 1 && (c < 0 <==> x < 0) && (c > 0 <==> x > 0)
  {
    if x < 0 then -1 else if x > 0 then 1 else 0
  }

  /** Lexicographic combination of two comparisons: the first that is not a tie decides. */
  function Then(first: int, second: int): int {
    if first != 0 then first else second
  }

  /** Lexicographic comparison of two equally long sequences of numbers, as a sign. */
  function CompareSeq(xs: seq<int>, ys: seq<int>): (c: int)
    requires |xs| == |ys|
    ensures -1 <= c <= 1
  {
    if xs == [] then 0 else Then(Sign(xs[0] - ys[0]), CompareSeq(xs[1..], ys[1..]))
  }

  lemma {:induction false} CompareSeqZero(xs: seq<int>, ys: seq<int>)
    requires |xs| == |ys|
    ensures CompareSeq(xs, ys) == 0 <==> xs == ys
  {
    if xs != [] {
      CompareSeqZero(xs[1..], ys[1..]);
      assert xs == [xs[0]] + xs[1..] && ys == [ys[0]] + ys[1..];
    }
  }

  lemma {:induction false} CompareSeqAntisymmetric(xs: seq<int>, ys: seq<int>)
    requires |xs| == |ys|
    ensures CompareSeq(ys, xs) == -CompareSeq(xs, ys)
  {
    if xs != [] {
      CompareSeqAntisymmetric(xs[1..], ys[1..]);
    }
  }

  lemma {:induction false} CompareSeqTransitive(xs: seq<int>, ys: seq<int>, zs: seq<int>)
    requires |xs| == |ys| == |zs|
    requires CompareSeq(xs, ys) > 0 && CompareSeq(ys, zs) > 0
    ensures CompareSeq(xs, zs) > 0
  {
    if xs[0] == ys[0] && ys[0] == zs[0] {
      CompareSeqTransitive(xs[1..], ys[1..], zs[1..]);
    }
  }

  /** The sign of `LocalDateTime.compareTo`: year, month, day, then hour, minute, second and fraction. */
  function CompareTo(a: LocalDateTime, b: LocalDateTime): (c: int)
    ensures -1 <= c <= 1
  {
    CompareSeq(a.FieldValues(), b.FieldValues())
  }

  /** `LocalDateTime.isAfter`: strictly later. */
  predicate IsAfter(a: LocalDateTime, b: LocalDateTime) {
    CompareTo(a, b) > 0
  }

  /** `isAfter` is a strict total order on date-times: equal date-times are never after each other. */
  lemma IsAfterIsStrictTotalOrder(a: LocalDateTime, b: LocalDateTime, c: LocalDateTime)
    ensures !IsAfter(a, a)
    ensures IsAfter(a, b) ==> !IsAfter(b, a)
    ensures a != b ==> IsAfter(a, b) || IsAfter(b, a)
    ensures IsAfter(a, b) && IsAfter(b, c) ==> IsAfter(a, c)
  {
    CompareSeqZero(a.FieldValues(), a.FieldValues());
    CompareSeqZero(a.FieldValues(), b.FieldValues());
    CompareSeqAntisymmetric(a.FieldValues(), b.FieldValues());
    if IsAfter(a, b) && IsAfter(b, c) {
      CompareSeqTransitive(a.FieldValues(), b.FieldValues(), c.FieldValues());
    }
  }

  /** The sign of Java's `String.compareTo`: the first differing character decides, else the shorter string is smaller. */
  function LexCompare(s: string, t: string): (c: int)
    ensures -1 <= c <= 1
  {
    if s == [] && t == [] then 0
    else if s == [] then -1
    else if t == [] then 1
    else if s[0] != t[0] then Sign(s[0] as int - t[0] as int)
    else LexCompare(s[1..], t[1..])
  }

  /** Comparing two concatenations whose first parts have the same length: the first parts decide unless they tie. */
  lemma {:induction false} LexCompareAppend(a1: string, a2: string, b1: string, b2: string)
    requires |a1| == |b1|
    ensures LexCompare(a1 + a2, b1 + b2) == Then(LexCompare(a1, b1), LexCompare(a2, b2))
  {
    if a1 != [] {
      assert (a1 + a2)[1..] == a1[1..] + a2;
      assert (b1 + b2)[1..] == b1[1..] + b2;
      LexCompareAppend(a1[1..], a2, b1[1..], b2);
    } else {
      assert a1 + a2 == a2 && b1 + b2 == b2;
    }
  }

  /** On digit strings of equal length, lexicographic order is numeric order: this is what the zero padding buys. */
  lemma {:induction false} LexCompareDigits(a: string, b: string)
    requires AllDigits(a) && AllDigits(b) && |a| == |b|
    ensures LexCompare(a, b) == Sign(Number(a) - Number(b))
  {
    if a != [] {
      var a', b' := a[..|a| - 1], b[..|b| - 1];
      AllDigitsPrefix(a, |a| - 1);
      AllDigitsPrefix(b, |b| - 1);
      LexCompareDigits(a', b');
      var x, y := a[|a| - 1], b[|b| - 1];
      assert a == a' + [x] && b == b' + [y];
      LexCompareAppend(a', [x], b', [y]);
      assert LexCompare([x], [y]) == Sign(DigitValue(x) - DigitValue(y)) by {
        assert [x][1..] == [] && [y][1..] == [];
      }
    }
  }

  /** Two strings that match the same pattern compare like the values of their digit groups, in order. */
  lemma {:induction false} LexCompareMatched(p: Pattern, s: string, t: string)
    requires FullMatch(p, s) && FullMatch(p, t)
    ensures LexCompare(s, t) == CompareSeq(Values(p, s), Values(p, t))
  {
    match p
    case Empty =>
    case Cat(Digits(n), rest) =>
      LexCompareMatched(rest, s[n..], t[n..]);
      LexCompareDigitGroup(s, t, n);
      CompareSeqCons(Number(s[..n]), Number(t[..n]), Values(rest, s[n..]), Values(rest, t[n..]));
    case Cat(Literal(c), rest) =>
      LexCompareMatched(rest, s[1..], t[1..]);
  }

  /** A leading digit group of the same width decides a string comparison unless its values tie. */
  lemma LexCompareDigitGroup(s: string, t: string, n: nat)
    requires n <= |s| && n <= |t| && AllDigits(s[..n]) && AllDigits(t[..n])
    ensures LexCompare(s, t) == Then(Sign(Number(s[..n]) - Number(t[..n])), LexCompare(s[n..], t[n..]))
  {
    LexCompareDigits(s[..n], t[..n]);
    assert s == s[..n] + s[n..] && t == t[..n] + t[n..];
    LexCompareAppend(s[..n], s[n..], t[..n], t[n..]);
  }

  lemma CompareSeqCons(x: int, y: int, xs: seq<int>, ys: seq<int>)
    requires |xs| == |ys|
    ensures CompareSeq([x] + xs, [y] + ys) == Then(Sign(x - y), CompareSeq(xs, ys))
  {
    assert ([x] + xs)[1..] == xs && ([y] + ys)[1..] == ys;
  }

  /**
   * For two strings that parse, chronological order is lexicographic string order:
   * every field has a fixed width and leading zeros, and the separators agree.
   */
  lemma ChronologicalIsLexicographic(s: string, t: string)
    requires Parse(s).Some? && Parse(t).Some?
    ensures CompareTo(Parse(s).value, Parse(t).value) == LexCompare(s, t)
    ensures IsAfter(Parse(s).value, Parse(t).value) <==> LexCompare(s, t) > 0
  {
    MatchesShape(s);
    MatchesShape(t);
    LexCompareMatched(DatePattern, s, t);
    var vs, ws := Values(DatePattern, s), Values(DatePattern, t);
    assert Parse(s).value.FieldValues() == vs;
    assert Parse(t).value.FieldValues() == ws;
  }
}
