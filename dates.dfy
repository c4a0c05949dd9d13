/** Interaction dates: `datetime.strptime(text, "%Y-%m-%d %H:%M:%S")`, which
    the batch pipeline applies to every extracted date string, and
    `strftime("%Y%m%d_%H%M%S")`, which names the downloaded files. */
module Dates {
  import opened Values
  import opened Digits

  /** A naive datetime at second resolution. */
  datatype DateTime = DateTime(year: int, month: int, day: int, hour: int, minute: int, second: int)

  predicate IsLeapYear(y: int) {
    y % 4 == 0 && (y % 100 != 0 || y % 400 == 0)
  }

  function DaysInMonth(y: int, m: int): (d: int)
    requires 1 <= m <= 12
    ensures 28 <= d <= 31
  {
    if m == 2 then (if IsLeapYear(y) then 29 else 28)
    else if m == 4 || m == 6 || m == 9 || m == 11 then 30
    else 31
  }

  /** What Python's `datetime` constructor accepts. */
  predicate Valid(dt: DateTime) {
    && 1 <= dt.year <= 9999
    && 1 <= dt.month <= 12
    && 1 <= dt.day <= DaysInMonth(dt.year, dt.month)
    && 0 <= dt.hour < 24
    && 0 <= dt.minute < 60
    && 0 <= dt.second < 60
  }

  /** The characters `\s` matches in a Python `str` pattern. */
  predicate IsSpace(c: char) {
    || c == ' ' || c == '\t' || c == '\n' || c == '\r'
    || c == '\U{B}' || c == '\U{C}'
    || ('\U{1C}' <= c <= '\U{1F}')
    || c == '\U{85}' || c == '\U{A0}' || c == '\U{1680}'
    || ('\U{2000}' <= c <= '\U{200A}')
    || c == '\U{2028}' || c == '\U{2029}' || c == '\U{202F}' || c == '\U{205F}' || c == '\U{3000}'
  }

  /** Length of the run of whitespace at the head of `s`. */
  function LeadingSpaces(s: string): (k: nat)
    ensures k <= |s|
    ensures forall i :: 0 <= i < k ==> IsSpace(s[i])
    ensures k < |s| ==> !IsSpace(s[k])
  {
    if s == [] || !IsSpace(s[0]) then 0 else 1 + LeadingSpaces(s[1..])
  }

  function Num2(a: char, b: char): nat
    requires IsDigit(a) && IsDigit(b)
  {
    DigitValue(a) * 10 + DigitValue(b)
  }

  function Num4(a: char, b: char, c: char, d: char): nat
    requires IsDigit(a) && IsDigit(b) && IsDigit(c) && IsDigit(d)
  {
    Num2(a, b) * 100 + Num2(c, d)
  }

  /** One element of the pattern CPython compiles from a `strptime` format. */
  datatype Directive =
    | Year              // %Y: exactly four digits
    | Number            // %m, %H, %M, %S: one or two digits
    | DayOfMonth        // %d: one or two digits, or a space and a digit 1-9
    | Literal(c: char)  // a format character that stands for itself
    | Whitespace        // a space in the format: one or more whitespace characters

  /** A compiled format: its directives in order. */
  datatype Pattern = End | Then(head: Directive, tail: Pattern)

  /** "%Y-%m-%d %H:%M:%S", directive by directive. */
  const TimeFormat: Pattern :=
    Then(Number, Then(Literal(':'), Then(Number, Then(Literal(':'), Then(Number, End)))))
  const DateFormat: Pattern :=
    Then(Year, Then(Literal('-'), Then(Number, Then(Literal('-'), Then(DayOfMonth, Then(Whitespace, TimeFormat))))))

  /** How many numbers a format captures. */
  function Captures(fmt: Pattern): nat {
    match fmt
    case End => 0
    case Then(d, rest) => (if d.Literal? || d.Whitespace? then 0 else 1) + Captures(rest)
  }

  /** One or two digits at the head of `s`, the longest run first. */
  function TwoDigits(s: string): (r: Option<(seq<nat>, string)>)
    ensures r.Some? ==> |r.value.0| == 1 && |r.value.1| < |s|
  {
    if |s| >= 2 && IsDigit(s[0]) && IsDigit(s[1]) then Some(([Num2(s[0], s[1])], s[2..]))
    else if |s| >= 1 && IsDigit(s[0]) then Some(([DigitValue(s[0])], s[1..]))
    else None
  }

  /** Matches one directive at the head of `s`: the number it captures, if
      any, and the text after the match. In this format every number is
      followed by a separator, whitespace or the end of the text, none of
      which is a digit; so the longest run of digits is what the
      backtracking matcher settles on, and a run of three or more digits
      fails. The alternations CPython compiles for %m, %d, %H, %M and %S
      admit fewer two-digit values than this, but every value they leave
      out is one the `datetime` constructor rejects too. */
  function Match(d: Directive, s: string): (r: Option<(seq<nat>, string)>)
    ensures r.Some? ==> |r.value.0| == (if d.Literal? || d.Whitespace? then 0 else 1)
    ensures r.Some? ==> |r.value.1| < |s|
  {
    match d
    case Year =>
      if |s| >= 4 && IsDigit(s[0]) && IsDigit(s[1]) && IsDigit(s[2]) && IsDigit(s[3])
      then Some(([Num4(s[0], s[1], s[2], s[3])], s[4..]))
      else None
    case Number => TwoDigits(s)
    case DayOfMonth =>
      if |s| >= 2 && s[0] == ' ' && '1' <= s[1] <= '9' then Some(([DigitValue(s[1])], s[2..]))
      else TwoDigits(s)
    case Literal(c) => if |s| >= 1 && s[0] == c then Some(([], s[1..])) else None
    case Whitespace =>
      var w := LeadingSpaces(s);
      if w >= 1 then Some(([], s[w..])) else None
  }

  /** Matches the whole text against a format, directive by directive,
      collecting the captured numbers; text left over fails the match. */
  function Scan(fmt: Pattern, s: string): (r: Option<seq<nat>>)
    ensures r.Some? ==> |r.value| == Captures(fmt)
  {
    match fmt
    case End => if s == [] then Some([]) else None
    case Then(d, tail) =>
      match Match(d, s)
      case None => None
      case Some((v, rest)) =>
        match Scan(tail, rest)
        case None => None
        case Some(vs) => Some(v + vs)
  }

  /** `datetime.strptime(s, "%Y-%m-%d %H:%M:%S")`: the whole text matches
      the format, and the captured numbers form a date the `datetime`
      constructor accepts. */
  function ParseDate(s: string): (r: Option<DateTime>)
    ensures r.Some? ==> Valid(r.value)
  {
    match Scan(DateFormat, s)
    case None => None
    case Some(f) =>
      assert Captures(DateFormat) == 6;
      var dt := DateTime(f[0], f[1], f[2], f[3], f[4], f[5]);
      if Valid(dt) then Some(dt) else None
  }

  /** `dt.strftime("%Y%m%d_%H%M%S")`: the stem of every downloaded file. */
  function Stem(dt: DateTime): (s: string)
    requires Valid(dt)
    ensures |s| == 15 && s[8] == '_'
  {
    Padded(dt.year, 4) + Padded(dt.month, 2) + Padded(dt.day, 2) + "_"
      + Padded(dt.hour, 2) + Padded(dt.minute, 2) + Padded(dt.second, 2)
  }

  /** The zero-padded text of a date in the export's format,
      "YYYY-MM-DD HH:MM:SS", built from the end. */
  function IsoText(dt: DateTime): (s: string)
    requires Valid(dt)
    ensures |s| == 19
  {
    var time := Padded(dt.hour, 2) + ":" + (Padded(dt.minute, 2) + ":" + Padded(dt.second, 2));
    Padded(dt.year, 4) + "-" + (Padded(dt.month, 2) + "-" + (Padded(dt.day, 2) + " " + time))
  }

  lemma Padded2(n: nat)
    requires n < 100
    ensures Padded(n, 2) == [DigitChar(n / 10), DigitChar(n % 10)]
    ensures Num2(DigitChar(n / 10), DigitChar(n % 10)) == n
  {
    var hi, lo := n / 10, n % 10;
    assert hi < 10 && hi % 10 == hi && hi / 10 == 0;
    assert Padded(hi, 1) == Padded(0, 0) + [DigitChar(hi)];
    assert Padded(n, 2) == Padded(hi, 1) + [DigitChar(lo)];
    assert DigitValue(DigitChar(hi)) == hi && DigitValue(DigitChar(lo)) == lo;
    assert hi * 10 + lo == n;
  }

  lemma Padded4(n: nat)
    requires n < 10000
    ensures var p := Padded(n, 4);
      IsDigit(p[0]) && IsDigit(p[1]) && IsDigit(p[2]) && IsDigit(p[3]) && Num4(p[0], p[1], p[2], p[3]) == n
  {
    var a, b := n / 100, n % 100;
    assert n / 10 / 10 == a;
    assert Padded(n, 4) == Padded(n / 10, 3) + [DigitChar(n % 10)];
    assert Padded(n / 10, 3) == Padded(a, 2) + [DigitChar(n / 10 % 10)];
    Padded2(a);
    Padded2(b);
    assert b / 10 == n / 10 % 10 && b % 10 == n % 10;
    assert Padded(n, 4) == Padded(a, 2) + Padded(b, 2);
    assert a * 100 + b == n;
  }

  lemma MatchNumber(n: nat, rest: string)
    requires n < 100
    requires rest == [] || !IsDigit(rest[0])
    ensures Match(Number, Padded(n, 2) + rest) == Some(([n], rest))
    ensures Match(DayOfMonth, Padded(n, 2) + rest) == Some(([n], rest))
  {
    Padded2(n);
    var s := Padded(n, 2) + rest;
    assert s[2..] == rest;
  }

  lemma MatchYear(n: nat, rest: string)
    requires n < 10000
    ensures Match(Year, Padded(n, 4) + rest) == Some(([n], rest))
  {
    Padded4(n);
    var s := Padded(n, 4) + rest;
    assert s[4..] == rest;
  }

  lemma MatchLiteral(c: char, rest: string)
    ensures Match(Literal(c), [c] + rest) == Some(([], rest))
  {
    assert ([c] + rest)[1..] == rest;
  }

  lemma MatchSpace(rest: string)
    requires rest == [] || !IsSpace(rest[0])
    ensures Match(Whitespace, " " + rest) == Some(([], rest))
  {
    assert LeadingSpaces(" " + rest) == 1 by {
      assert (" " + rest)[1..] == rest;
    }
    assert (" " + rest)[1..] == rest;
  }

  /** One step of the scan: the head directive matches, and the rest of the
      format matches the rest of the text. */
  lemma ScanStep(d: Directive, tail: Pattern, s: string, v: seq<nat>, rest: string, vs: seq<nat>)
    requires Match(d, s) == Some((v, rest))
    requires Scan(tail, rest) == Some(vs)
    ensures Scan(Then(d, tail), s) == Some(v + vs)
  {
  }

  /** A two-digit field followed by the separator `c`. */
  lemma ScanNumberThen(n: nat, c: char, tail: Pattern, rest: string, vs: seq<nat>)
    requires n < 100 && !IsDigit(c)
    requires Scan(tail, rest) == Some(vs)
    ensures Scan(Then(Number, Then(Literal(c), tail)), Padded(n, 2) + [c] + rest) == Some([n] + vs)
  {
    var s1 := [c] + rest;
    MatchLiteral(c, rest);
    ScanStep(Literal(c), tail, s1, [], rest, vs);
    assert [] + vs == vs;
    MatchNumber(n, s1);
    ScanStep(Number, Then(Literal(c), tail), Padded(n, 2) + s1, [n], s1, vs);
    assert Padded(n, 2) + [c] + rest == Padded(n, 2) + s1;
  }

  /** The day field followed by whitespace. */
  lemma ScanDayThen(n: nat, tail: Pattern, rest: string, vs: seq<nat>)
    requires n < 100
    requires rest == [] || !IsSpace(rest[0])
    requires Scan(tail, rest) == Some(vs)
    ensures Scan(Then(DayOfMonth, Then(Whitespace, tail)), Padded(n, 2) + " " + rest) == Some([n] + vs)
  {
    var s1 := " " + rest;
    MatchSpace(rest);
    ScanStep(Whitespace, tail, s1, [], rest, vs);
    assert [] + vs == vs;
    MatchNumber(n, s1);
    ScanStep(DayOfMonth, Then(Whitespace, tail), Padded(n, 2) + s1, [n], s1, vs);
    assert Padded(n, 2) + " " + rest == Padded(n, 2) + s1;
  }

  /** The year field followed by the separator `c`. */
  lemma ScanYearThen(n: nat, c: char, tail: Pattern, rest: string, vs: seq<nat>)
    requires n < 10000
    requires Scan(tail, rest) == Some(vs)
    ensures Scan(Then(Year, Then(Literal(c), tail)), Padded(n, 4) + [c] + rest) == Some([n] + vs)
  {
    var s1 := [c] + rest;
    MatchLiteral(c, rest);
    ScanStep(Literal(c), tail, s1, [], rest, vs);
    assert [] + vs == vs;
    MatchYear(n, s1);
    ScanStep(Year, Then(Literal(c), tail), Padded(n, 4) + s1, [n], s1, vs);
    assert Padded(n, 4) + [c] + rest == Padded(n, 4) + s1;
  }

  /** A two-digit field that ends the text. */
  lemma ScanLastNumber(n: nat)
    requires n < 100
    ensures Scan(Then(Number, End), Padded(n, 2)) == Some([n])
  {
    MatchNumber(n, []);
    assert Padded(n, 2) + [] == Padded(n, 2);
    ScanStep(Number, End, Padded(n, 2), [n], [], []);
    assert [n] + [] == [n];
  }

  lemma SixFields(a: nat, b: nat, c: nat, d: nat, e: nat, f: nat)
    ensures [a] + ([b] + ([c] + ([d] + ([e] + [f])))) == [a, b, c, d, e, f]
  {
  }

  /** The format matches the zero-padded text of a valid date and captures
      its six fields in order. */
  lemma ScanIsoText(dt: DateTime)
    requires Valid(dt)
    ensures Scan(DateFormat, IsoText(dt)) == Some([dt.year, dt.month, dt.day, dt.hour, dt.minute, dt.second])
  {
    var sec := Padded(dt.second, 2);
    var min := Padded(dt.minute, 2) + [':'] + sec;
    var time := Padded(dt.hour, 2) + [':'] + min;
    var day := Padded(dt.day, 2) + [' '] + time;
    var month := Padded(dt.month, 2) + ['-'] + day;
    assert "-" == ['-'] && ":" == [':'] && " " == [' '];
    assert IsoText(dt) == Padded(dt.year, 4) + ['-'] + month;
    var v4 := [dt.minute] + [dt.second];
    var v3 := [dt.hour] + v4;
    var v2 := [dt.day] + v3;
    var v1 := [dt.month] + v2;
    var p4 := Then(Number, End);
    var p3 := Then(Number, Then(Literal(':'), p4));
    var p2 := Then(Number, Then(Literal(':'), p3));
    var p1 := Then(DayOfMonth, Then(Whitespace, p2));
    var p0 := Then(Number, Then(Literal('-'), p1));
    ScanLastNumber(dt.second);
    ScanNumberThen(dt.minute, ':', p4, sec, [dt.second]);
    ScanNumberThen(dt.hour, ':', p3, min, v4);
    Padded2(dt.hour);
    assert time[0] == Padded(dt.hour, 2)[0];
    ScanDayThen(dt.day, p2, time, v3);
    ScanNumberThen(dt.month, '-', p1, day, v2);
    ScanYearThen(dt.year, '-', p0, month, v1);
    assert DateFormat == Then(Year, Then(Literal('-'), p0));
    SixFields(dt.year, dt.month, dt.day, dt.hour, dt.minute, dt.second);
  }

  /** Parsing the zero-padded text of a valid date gives that date back. */
  lemma ParseIsoText(dt: DateTime)
    requires Valid(dt)
    ensures ParseDate(IsoText(dt)) == Some(dt)
  {
    ScanIsoText(dt);
  }

  /** Two valid dates with the same file stem are the same date: a stem
      determines its date. */
  lemma StemInjective(a: DateTime, b: DateTime)
    requires Valid(a) && Valid(b)
    requires Stem(a) == Stem(b)
    ensures a == b
  {
    var sa, sb := Stem(a), Stem(b);
    assert sa[0..4] == Padded(a.year, 4) && sb[0..4] == Padded(b.year, 4);
    assert sa[4..6] == Padded(a.month, 2) && sb[4..6] == Padded(b.month, 2);
    assert sa[6..8] == Padded(a.day, 2) && sb[6..8] == Padded(b.day, 2);
    assert sa[9..11] == Padded(a.hour, 2) && sb[9..11] == Padded(b.hour, 2);
    assert sa[11..13] == Padded(a.minute, 2) && sb[11..13] == Padded(b.minute, 2);
    assert sa[13..15] == Padded(a.second, 2) && sb[13..15] == Padded(b.second, 2);
    PaddedInjective(a.year, b.year, 4);
    PaddedInjective(a.month, b.month, 2);
    PaddedInjective(a.day, b.day, 2);
    PaddedInjective(a.hour, b.hour, 2);
    PaddedInjective(a.minute, b.minute, 2);
    PaddedInjective(a.second, b.second, 2);
  }
}
