/** The `ipv4`, `date` and `date-time` recognisers against their grammars. */
module Formats {
  import opened Text

  // ----- digits -----

  predicate IsDigit(c: char) {
    '0' <= c <= '9'
  }

  predicate Digits(s: string) {
    forall c | c in s :: IsDigit(c)
  }

  function Number(s: string): nat
    requires Digits(s)
  {
    if s == [] then 0
    else
      assert s[|s| - 1] in s && forall c | c in s[..|s| - 1] :: c in s;
      Number(s[..|s| - 1]) * 10 + (s[|s| - 1] as int - '0' as int)
  }

  lemma NumberMore(s: string, c: char)
    requires Digits(s) && IsDigit(c)
    ensures Digits(s + [c]) && Number(s + [c]) == Number(s) * 10 + (c as int - '0' as int)
  {
    assert (s + [c])[..|s|] == s;
  }

  /** `parse_digits`. */
  method ParseDigits(s: string) returns (ok: bool, val: nat)
    ensures ok <==> Digits(s)
    ensures ok ==> val == Number(s)
  {
    val := 0;
    for i := 0 to |s|
      invariant Digits(s[..i]) && val == Number(s[..i])
    {
      if !IsDigit(s[i]) {
        assert s[i] in s;
        return false, 0;
      }
      NumberMore(s[..i], s[i]);
      assert s[..i + 1] == s[..i] + [s[i]];
      val := val * 10 + (s[i] as int - '0' as int);
    }
    assert s[..|s|] == s;
    ok := true;
  }

  lemma DigitsAre(c: char)
    ensures IsDigit(c) <==> c in "0123456789"
  {
    var s := "0123456789";
    if IsDigit(c) { assert s[c as int - '0' as int] == c; }
  }

  // ----- ipv4 -----

  /** dec-octet of section 3.2.2 of RFC 3986. */
  predicate DecOctet(s: string) {
    || (|s| == 1 && IsDigit(s[0]))
    || (|s| == 2 && '1' <= s[0] <= '9' && IsDigit(s[1]))
    || (|s| == 3 && s[0] == '1' && IsDigit(s[1]) && IsDigit(s[2]))
    || (|s| == 3 && s[0] == '2' && '0' <= s[1] <= '4' && IsDigit(s[2]))
    || (|s| == 3 && s[0] == '2' && s[1] == '5' && '0' <= s[2] <= '5')
  }

  predicate Octets(parts: seq<string>) {
    forall p | p in parts :: DecOctet(p)
  }

  /** IPv4address of section 3.2.2 of RFC 3986: four octets joined by dots. */
  ghost predicate Ipv4Address(s: string) {
    exists parts | |parts| == 4 && Octets(parts) :: s == Join(parts, '.')
  }

  lemma OctetDigits(s: string)
    requires DecOctet(s)
    ensures Digits(s) && '.' !in s
  {
  }

  lemma Ipv4Split(s: string)
    ensures Ipv4Address(s) <==> |Split(s, '.')| == 4 && Octets(Split(s, '.'))
  {
    JoinSplit(s, '.');
    if Ipv4Address(s) {
      var parts :| |parts| == 4 && Octets(parts) && s == Join(parts, '.');
      forall p | p in parts ensures '.' !in p { OctetDigits(p); }
      SplitJoin(parts, '.');
    }
  }

  function Digit(c: char): int {
    c as int - '0' as int
  }

  lemma NumberOf(s: string)
    requires Digits(s) && 0 < |s| <= 3
    ensures forall k | 0 <= k < |s| :: IsDigit(s[k])
    ensures |s| == 1 ==> Number(s) == Digit(s[0])
    ensures |s| == 2 ==> Number(s) == 10 * Digit(s[0]) + Digit(s[1])
    ensures |s| == 3 ==> Number(s) == 100 * Digit(s[0]) + 10 * Digit(s[1]) + Digit(s[2])
  {
    hide Number;
    forall k | 0 <= k < |s| ensures IsDigit(s[k]) { assert s[k] in s; }
    NumberNone();
    NumberMore("", s[0]);
    assert s[..1] == "" + [s[0]];
    assert |s| == 1 ==> s == s[..1];
    if |s| >= 2 {
      NumberMore(s[..1], s[1]);
      assert s[..2] == s[..1] + [s[1]];
      assert |s| == 2 ==> s == s[..2];
      if |s| == 3 {
        NumberMore(s[..2], s[2]);
        assert s == s[..2] + [s[2]];
      }
    }
  }

  lemma NumberNone()
    ensures Digits("") && Number("") == 0
  {
  }

  /** The checks made at the end of a run of digits. */
  lemma OctetCheck(s: string)
    requires Digits(s)
    ensures DecOctet(s) <==> 0 < |s| <= 3 && Number(s) <= 255 && !(|s| > 1 && s[0] == '0')
  {
    hide Number, Digits;
    if 0 < |s| <= 3 { NumberOf(s); }
  }

  lemma OctetsLength(parts: seq<string>)
    requires |parts| == 4 && Octets(parts)
    ensures 7 <= |Join(parts, '.')| <= 15
  {
    var a, b, c, d := parts[0], parts[1], parts[2], parts[3];
    assert a in parts && b in parts && c in parts && d in parts;
    assert parts[1..] == [b, c, d] && parts[1..][1..] == [c, d] && parts[1..][1..][1..] == [d];
    assert Join([d], '.') == d && Join([c, d], '.') == c + ['.'] + d;
    assert |Join([b, c, d], '.')| == |b| + 1 + |Join([c, d], '.')|;
  }

  /** The scan of `value[..i]`: the octets done, and the digits of the current one from `start` on. */
  ghost predicate Scanning(value: string, done: seq<string>, start: nat, i: nat, cur: nat) {
    && start <= i <= |value|
    && Octets(done)
    && Split(value, '.') == done + Split(value[start..], '.')
    && Digits(value[start..i]) && cur == Number(value[start..i])
  }

  lemma ScanDigit(value: string, done: seq<string>, start: nat, i: nat, cur: nat)
    requires Scanning(value, done, start, i, cur) && i < |value| && IsDigit(value[i])
    ensures value[i] >= '0'
    ensures Scanning(value, done, start, i + 1, cur * 10 + (value[i] as int - '0' as int))
  {
    NumberMore(value[start..i], value[i]);
    assert value[start..i + 1] == value[start..i] + [value[i]];
  }

  /** The part that ends at `i` is the next one. */
  lemma ScanPart(value: string, done: seq<string>, start: nat, i: nat, cur: nat)
    requires Scanning(value, done, start, i, cur) && (i == |value| || value[i] == '.')
    ensures |Split(value, '.')| > |done| && Split(value, '.')[|done|] == value[start..i]
    ensures i < |value| ==> Split(value, '.') == done + [value[start..i]] + Split(value[i + 1..], '.')
    ensures i == |value| ==> Split(value, '.') == done + [value[start..i]]
  {
    hide Split, DecOctet, Octets, Number, Digits;
    var rest, n := value[start..], i - start;
    assert rest[..n] == value[start..i];
    NoDot(rest[..n]);
    SplitFirst(rest, n, '.');
    if i < |value| {
      assert Behind(rest, n) == value[i + 1..];
      OneMore(done, value[start..i], Split(value[i + 1..], '.'));
    } else {
      assert [value[start..i]] + [] == [value[start..i]];
    }
  }

  lemma NoDot(s: string)
    requires Digits(s)
    ensures '.' !in s
  {
  }

  lemma ScanOctet(value: string, done: seq<string>, start: nat, i: nat, cur: nat)
    requires Scanning(value, done, start, i, cur) && i < |value| && value[i] == '.' && DecOctet(value[start..i])
    ensures Scanning(value, done + [value[start..i]], i + 1, i + 1, 0)
  {
    hide DecOctet;
    ScanPart(value, done, start, i, cur);
    assert value[i + 1..i + 1] == "";
  }

  /** A part that is no octet, or a character that is neither digit nor dot, spoils the address. */
  lemma ScanSpoilt(value: string, done: seq<string>, start: nat, i: nat, cur: nat)
    requires Scanning(value, done, start, i, cur)
    requires if i == |value| || value[i] == '.' then !DecOctet(value[start..i]) else !IsDigit(value[i])
    ensures !Octets(Split(value, '.'))
  {
    hide DecOctet, IsDigit, Digits, Number, Split;
    if i == |value| || value[i] == '.' {
      ScanPart(value, done, start, i, cur);
      assert Split(value, '.')[|done|] in Split(value, '.');
    } else {
      var n := End(value[start..], '.');
      NoDot(value[start..i]);
      EndBeyond(value, start, i);
      SplitFirst(value[start..], n, '.');
      assert Split(value, '.')[|done|] == value[start..][..n];
      NoOctet(value[start..][..n], i - start);
    }
  }

  lemma EndBeyond(value: string, start: nat, i: nat)
    requires start <= i < |value| && '.' !in value[start..i] && value[i] != '.'
    ensures i - start < End(value[start..], '.') && value[start..][..End(value[start..], '.')][i - start] == value[i]
  {
    var rest := value[start..];
    assert rest[..i - start] == value[start..i];
    NoneBefore(rest, i - start, '.');
  }

  lemma NoOctet(s: string, k: nat)
    requires k < |s| && !IsDigit(s[k])
    ensures !DecOctet(s)
  {
  }

  /** `oas_format_ipv4`. */
  method Ipv4(value: string) returns (ok: bool)
    ensures ok <==> Ipv4Address(value)
  {
    hide *;
    Ipv4Split(value);
    Ipv4Length(value);
    if |value| < 7 || |value| > 15 {
      return false;
    }
    ok := ScanOctets(value);
  }

  lemma Ipv4Length(value: string)
    ensures Ipv4Address(value) ==> 7 <= |value| <= 15
  {
    if Ipv4Address(value) {
      var parts :| |parts| == 4 && Octets(parts) && value == Join(parts, '.');
      OctetsLength(parts);
    }
  }

  method ScanOctets(value: string) returns (ok: bool)
    ensures ok <==> |Split(value, '.')| == 4 && Octets(Split(value, '.'))
  {
    hide *;
    var octets, digits, i := 0, 0, 0;
    var cur: nat := 0;
    ghost var done: seq<string> := [];
    ScanStart(value);
    while i <= |value|
      invariant i <= |value| + 1 && octets == |done|
      invariant i <= |value| ==> digits <= i && Scanning(value, done, i - digits, i, cur)
      invariant i > |value| ==> Octets(done) && Split(value, '.') == done
      decreases |value| + 1 - i
    {
      ghost var start := i - digits;
      ScanningDigits(value, done, start, i, cur);
      if i == |value| || value[i] == '.' {
        OctetCheck(value[start..i]);
        if digits == 0 || digits > 3 || cur > 255 || (digits > 1 && value[i - digits] == '0') {
          ScanSpoilt(value, done, start, i, cur);
          return false;
        }
        if i < |value| {
          ScanOctet(value, done, start, i, cur);
        } else {
          ScanLast(value, done, start, cur);
        }
        done := done + [value[start..i]];
        octets, cur, digits := octets + 1, 0, 0;
      } else if IsDigit(value[i]) {
        ScanDigit(value, done, start, i, cur);
        cur := cur * 10 + (value[i] as int - '0' as int);
        digits := digits + 1;
      } else {
        ScanSpoilt(value, done, start, i, cur);
        return false;
      }
      i := i + 1;
    }
    ok := octets == 4;
  }

  lemma ScanStart(value: string)
    ensures Scanning(value, [], 0, 0, 0)
  {
    assert value[0..] == value;
  }

  lemma ScanningDigits(value: string, done: seq<string>, start: nat, i: nat, cur: nat)
    requires Scanning(value, done, start, i, cur)
    ensures Digits(value[start..i]) && cur == Number(value[start..i])
    ensures start < i ==> value[start..i][0] == value[start]
  {
  }

  lemma ScanLast(value: string, done: seq<string>, start: nat, cur: nat)
    requires Scanning(value, done, start, |value|, cur) && DecOctet(value[start..|value|])
    ensures Octets(done + [value[start..|value|]]) && Split(value, '.') == done + [value[start..|value|]]
  {
    ScanPart(value, done, start, |value|, cur);
  }

  // ----- date and time -----

  /** The Gregorian rule of appendix C of RFC 3339. */
  predicate IsLeapYear(year: nat) {
    (year % 4 == 0 && year % 100 != 0) || year % 400 == 0
  }

  /** The maximum date-mday of section 5.7 of RFC 3339. */
  function DaysInMonth(year: nat, month: nat): nat {
    if month == 2 then (if IsLeapYear(year) then 29 else 28)
    else if month == 4 || month == 6 || month == 9 || month == 11 then 30
    else 31
  }

  /** The months of a year have 366 days in all if it is divisible by four, unless by 100 and not by 400. */
  lemma DaysOfYear(year: nat)
    ensures DaysInMonth(year, 1) + DaysInMonth(year, 2) + DaysInMonth(year, 3) + DaysInMonth(year, 4)
      + DaysInMonth(year, 5) + DaysInMonth(year, 6) + DaysInMonth(year, 7) + DaysInMonth(year, 8)
      + DaysInMonth(year, 9) + DaysInMonth(year, 10) + DaysInMonth(year, 11) + DaysInMonth(year, 12)
      == if year % 4 == 0 && (year % 100 == 0 ==> year % 400 == 0) then 366 else 365
  {
  }

  /** `n` digits with a value in a range. */
  predicate Field(s: string, n: nat, low: nat, high: nat) {
    |s| == n && Digits(s) && low <= Number(s) <= high
  }

  /** full-date of section 5.6 of RFC 3339. */
  ghost predicate FullDate(s: string) {
    exists y, m, d | Field(y, 4, 0, 9999) && Field(m, 2, 1, 12) && Field(d, 2, 1, DaysInMonth(Number(y), Number(m))) ::
      s == y + "-" + m + "-" + d
  }

  /** time-hour ":" time-minute ":" time-second; second 60 is allowed at any time. */
  ghost predicate HourMinuteSecond(s: string) {
    exists h, m, c | Field(h, 2, 0, 23) && Field(m, 2, 0, 59) && Field(c, 2, 0, 60) :: s == h + ":" + m + ":" + c
  }

  /** An optional time-secfrac. */
  predicate Fraction(s: string) {
    s == "" || (|s| >= 2 && s[0] == '.' && Digits(s[1..]))
  }

  /** time-offset: "Z", or a signed hour and minute. */
  ghost predicate Offset(s: string) {
    || s == "Z" || s == "z"
    || exists g, h, m | (g == "+" || g == "-") && Field(h, 2, 0, 23) && Field(m, 2, 0, 59) :: s == g + h + ":" + m
  }

  ghost predicate FullTime(s: string) {
    exists t, f, o | HourMinuteSecond(t) && Fraction(f) && Offset(o) :: s == t + f + o
  }

  /** date-time of section 5.6 of RFC 3339. */
  ghost predicate DateTime(s: string) {
    exists d, t, c | FullDate(d) && FullTime(t) && (c == "T" || c == "t") :: s == d + c + t
  }

  lemma FullDateAt(s: string)
    ensures FullDate(s) <==>
      && |s| == 10 && s[4] == '-' && s[7] == '-'
      && Field(s[..4], 4, 0, 9999) && Field(s[5..7], 2, 1, 12)
      && Field(s[8..], 2, 1, DaysInMonth(Number(s[..4]), Number(s[5..7])))
  {
    if FullDate(s) {
      var y, m, d :| Field(y, 4, 0, 9999) && Field(m, 2, 1, 12) && Field(d, 2, 1, DaysInMonth(Number(y), Number(m)))
                     && s == y + "-" + m + "-" + d;
      assert s[..4] == y && s[5..7] == m && s[8..] == d;
    }
  }

  lemma ClockAt(s: string)
    ensures HourMinuteSecond(s) <==>
      && |s| == 8 && s[2] == ':' && s[5] == ':'
      && Field(s[..2], 2, 0, 23) && Field(s[3..5], 2, 0, 59) && Field(s[6..], 2, 0, 60)
  {
    if HourMinuteSecond(s) {
      var h, m, c :| Field(h, 2, 0, 23) && Field(m, 2, 0, 59) && Field(c, 2, 0, 60) && s == h + ":" + m + ":" + c;
      assert s[..2] == h && s[3..5] == m && s[6..] == c;
    } else if |s| == 8 && s[2] == ':' && s[5] == ':' {
      assert s == s[..2] + ":" + s[3..5] + ":" + s[6..];
    }
  }

  lemma OffsetAt(s: string)
    ensures Offset(s) <==>
      || (|s| == 1 && (s[0] == 'Z' || s[0] == 'z'))
      || (&& |s| == 6 && (s[0] == '+' || s[0] == '-') && s[3] == ':'
          && Field(s[1..3], 2, 0, 23) && Field(s[4..], 2, 0, 59))
  {
    if |s| == 1 {
      assert s == [s[0]];
    }
    if Offset(s) && s != "Z" && s != "z" {
      var g, h, m :| (g == "+" || g == "-") && Field(h, 2, 0, 23) && Field(m, 2, 0, 59) && s == g + h + ":" + m;
      assert s[1..3] == h && s[4..] == m && s[0] == g[0];
    } else if |s| == 6 && s[3] == ':' {
      assert s == [s[0]] + s[1..3] + ":" + s[4..];
    }
  }

  /** The fraction that starts at position 8 is read to its last digit. */
  predicate Longest(s: string, end: nat) {
    && 8 <= end <= |s| && Fraction(s[8..end])
    && (end < |s| ==> if end == 8 then s[end] != '.' else !IsDigit(s[end]))
  }

  lemma OffsetHead(s: string)
    requires Offset(s)
    ensures s != "" && s[0] != '.' && !IsDigit(s[0])
  {
    OffsetAt(s);
  }

  /** A time falls apart in one way only. */
  lemma TimeParts(s: string, t: string, f: string, o: string, end: nat)
    requires s == t + f + o && |t| == 8 && Fraction(f) && Offset(o) && Longest(s, end)
    ensures end == 8 + |f|
  {
    OffsetHead(o);
    var g := s[8..end];
    FractionChars(f);
    FractionChars(g);
    assert s[8 + |f|] == o[0];
    assert forall k | 0 <= k < |f| :: s[8 + k] == f[k];
    assert forall k | 0 <= k < |g| :: s[8 + k] == g[k];
  }

  lemma FractionChars(f: string)
    requires Fraction(f)
    ensures f != "" ==> |f| >= 2 && f[0] == '.'
    ensures forall k | 1 <= k < |f| :: IsDigit(f[k])
  {
    forall k | 1 <= k < |f| ensures IsDigit(f[k]) {
      assert f[1..][k - 1] == f[k] && f[k] in f[1..];
    }
  }

  lemma FullTimeAt(s: string, end: nat)
    requires Longest(s, end)
    ensures FullTime(s) <==> HourMinuteSecond(s[..8]) && Offset(s[end..])
  {
    hide HourMinuteSecond, Offset, Longest, Fraction;
    LongestBounds(s, end);
    if FullTime(s) {
      var t, f, o :| HourMinuteSecond(t) && Fraction(f) && Offset(o) && s == t + f + o;
      ClockLength(t);
      TimeParts(s, t, f, o, end);
      assert s[..8] == t && s[end..] == o;
    }
    assert s == s[..8] + s[8..end] + s[end..];
  }

  lemma LongestBounds(s: string, end: nat)
    requires Longest(s, end)
    ensures 8 <= end <= |s| && Fraction(s[8..end])
  {
  }

  lemma ClockLength(s: string)
    requires HourMinuteSecond(s)
    ensures |s| == 8
  {
    ClockAt(s);
  }

  /** A time needs eight characters of clock and an offset, and digits behind a decimal point. */
  lemma TimeShape(s: string)
    requires FullTime(s)
    ensures |s| >= 9 && HourMinuteSecond(s[..8]) && (s[8] == '.' ==> |s| > 9 && IsDigit(s[9]))
  {
    hide HourMinuteSecond, Offset;
    var t, f, o :| HourMinuteSecond(t) && Fraction(f) && Offset(o) && s == t + f + o;
    ClockLength(t);
    OffsetHead(o);
    FractionChars(f);
    assert s[..8] == t && s[8..] == f + o;
    assert s[8] == (f + o)[0];
    assert f != "" ==> s[9] == f[1];
  }

  lemma NoFullTime(s: string)
    requires |s| < 9 || !HourMinuteSecond(s[..8]) || (s[8] == '.' && (|s| == 9 || !IsDigit(s[9])))
    ensures !FullTime(s)
  {
    hide HourMinuteSecond, FullTime;
    if FullTime(s) { TimeShape(s); }
  }

  lemma DateTimeAt(s: string)
    ensures DateTime(s) <==>
      |s| >= 20 && FullDate(s[..10]) && (s[10] == 'T' || s[10] == 't') && FullTime(s[11..])
  {
    hide FullDate, FullTime;
    if DateTime(s) {
      var d, t, c :| FullDate(d) && FullTime(t) && (c == "T" || c == "t") && s == d + c + t;
      FullDateLength(d);
      FullTimeLength(t);
      assert s[..10] == d && s[11..] == t && s[10] == c[0];
    } else if |s| >= 20 {
      assert s == s[..10] + [s[10]] + s[11..];
    }
  }

  lemma FullDateLength(s: string)
    requires FullDate(s)
    ensures |s| == 10
  {
    FullDateAt(s);
  }

  lemma FullTimeLength(s: string)
    requires FullTime(s)
    ensures |s| >= 9
  {
    TimeShape(s);
  }

  /** `days_in_month`, read from a table. */
  method MonthLength(year: nat, month: nat) returns (days: nat)
    requires 1 <= month <= 12
    ensures days == DaysInMonth(year, month)
  {
    var table := [0, 31, 28, 31, 30, 31, 30, 31, 31, 30, 31, 30, 31];
    if month == 2 && IsLeapYear(year) {
      return 29;
    }
    days := table[month];
  }

  /** `parse_digits` on two or four characters, with a range check. */
  method ParseField(s: string, low: nat, high: nat) returns (ok: bool, val: nat)
    ensures ok <==> Field(s, |s|, low, high)
    ensures ok ==> val == Number(s)
  {
    ok, val := ParseDigits(s);
    ok := ok && low <= val <= high;
  }

  /** `oas_format_date`. */
  method Date(value: string) returns (ok: bool)
    ensures ok <==> FullDate(value)
  {
    hide FullDate, Field, IsLeapYear;
    FullDateAt(value);
    if |value| != 10 || value[4] != '-' || value[7] != '-' {
      return false;
    }
    var year, month, day;
    ok, year := ParseField(value[..4], 0, 9999);
    if !ok {
      return false;
    }
    ok, month := ParseField(value[5..7], 1, 12);
    if !ok {
      return false;
    }
    MonthRange(value[5..7]);
    var days := MonthLength(year, month);
    ok, day := ParseField(value[8..], 1, days);
  }

  lemma MonthRange(s: string)
    requires Field(s, 2, 1, 12)
    ensures 1 <= Number(s) <= 12
  {
  }

  lemma SliceOfPrefix(s: string, a: nat, b: nat, n: nat)
    requires a <= b <= n <= |s|
    ensures s[..n][a..b] == s[a..b] && s[..n][a..] == s[a..n] && s[..n][..b] == s[..b]
  {
  }

  /** `parse_time_part`: the clock and the longest fraction behind it. */
  method TimePart(s: string) returns (ok: bool, consumed: nat)
    ensures !ok ==> !FullTime(s)
    ensures ok ==> Longest(s, consumed) && HourMinuteSecond(s[..8])
  {
    hide FullTime, HourMinuteSecond, Field;
    consumed := 0;
    if |s| < 8 {
      NoFullTime(s);
      return false, 0;
    }
    if |s| == 8 || !HourMinuteSecond(s[..8]) { NoFullTime(s); }
    ClockAt(s[..8]);
    SliceOfPrefix(s, 0, 2, 8);
    SliceOfPrefix(s, 3, 5, 8);
    SliceOfPrefix(s, 6, 8, 8);
    if s[2] != ':' || s[5] != ':' {
      return false, 0;
    }
    var v;
    ok, v := ParseField(s[..2], 0, 23);
    if !ok {
      return false, 0;
    }
    ok, v := ParseField(s[3..5], 0, 59);
    if !ok {
      return false, 0;
    }
    ok, v := ParseField(s[6..8], 0, 60);
    if !ok {
      return false, 0;
    }
    consumed := 8;
    if |s| > 8 && s[8] == '.' {
      consumed := 9;
      if consumed >= |s| || !IsDigit(s[consumed]) {
        NoFullTime(s);
        return false, 0;
      }
      while consumed < |s| && IsDigit(s[consumed])
        invariant 9 <= consumed <= |s| && Digits(s[9..consumed])
        invariant consumed == 9 ==> IsDigit(s[9])
      {
        assert s[9..consumed + 1] == s[9..consumed] + [s[consumed]];
        consumed := consumed + 1;
      }
      assert s[8..consumed][1..] == s[9..consumed];
    } else {
      assert s[8..8] == "";
    }
  }

  /** `parse_timezone`. */
  method Timezone(s: string) returns (ok: bool)
    ensures ok <==> Offset(s)
  {
    hide Offset, Field;
    OffsetAt(s);
    if |s| == 0 {
      return false;
    }
    if |s| == 1 && (s[0] == 'Z' || s[0] == 'z') {
      return true;
    }
    if |s| == 6 && (s[0] == '+' || s[0] == '-') {
      if s[3] != ':' {
        return false;
      }
      var v;
      ok, v := ParseField(s[1..3], 0, 23);
      if !ok {
        return false;
      }
      ok, v := ParseField(s[4..], 0, 59);
      return ok;
    }
    return false;
  }

  /** `oas_format_time`. */
  method Time(value: string) returns (ok: bool)
    ensures ok <==> FullTime(value)
  {
    hide *;
    var consumed;
    ok, consumed := TimePart(value);
    if !ok {
      return false;
    }
    LongestBounds(value, consumed);
    FullTimeAt(value, consumed);
    ok := Timezone(value[consumed..]);
  }

  /** `oas_format_date_time`. */
  method DateAndTime(value: string) returns (ok: bool)
    ensures ok <==> DateTime(value)
  {
    hide *;
    DateTimeAt(value);
    if |value| < 20 {
      return false;
    }
    ok := Date(value[..10]);
    if !ok {
      return false;
    }
    if value[10] != 'T' && value[10] != 't' {
      return false;
    }
    ok := Time(value[11..]);
  }
}
