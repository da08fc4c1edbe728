/** The "Last modified" column of the directory listing: text of the form
    `%d-%b-%Y %H:%M` (for example `12-Jan-2024 08:30`), read as a UTC
    instant. The reading is a strict form of chrono's
    `NaiveDateTime::parse_from_str`: it accepts no whitespace beyond the one
    space of the pattern, where chrono skips whitespace before each numeric
    field and at the space. */
module ListingTime {
  import opened Wrappers
  import opened Strings

  /** A UTC instant to the minute (the seconds are always zero). */
  datatype DateTime = DateTime(year: int, month: nat, day: nat, hour: nat, minute: nat)

  const MonthAbbrevs: seq<string> :=
    ["Jan", "Feb", "Mar", "Apr", "May", "Jun", "Jul", "Aug", "Sep", "Oct", "Nov", "Dec"]

  /** The proleptic Gregorian leap-year rule. */
  predicate IsLeapYear(y: int) {
    y % 4 == 0 && (y % 100 != 0 || y % 400 == 0)
  }

  function DaysInMonth(y: int, m: nat): (d: nat)
    requires 1 <= m <= 12
    ensures 28 <= d <= 31
  {
    if m == 2 then (if IsLeapYear(y) then 29 else 28)
    else if m == 4 || m == 6 || m == 9 || m == 11 then 30
    else 31
  }

  /** A calendar date that exists, and a time of day. */
  predicate Valid(t: DateTime) {
    && 1 <= t.month <= 12
    && 1 <= t.day <= DaysInMonth(t.year, t.month)
    && t.hour < 24
    && t.minute < 60
  }

  /** How many of the first `width` characters of `s` are digits before the
      first non-digit. */
  function LeadingDigits(s: string, width: nat): (n: nat)
    ensures n <= width && n <= |s| && AllDigits(s[..n])
    ensures n < width && n < |s| ==> !IsDigit(s[n])
  {
    if width == 0 || s == [] || !IsDigit(s[0]) then 0
    else
      var n := 1 + LeadingDigits(s[1..], width - 1);
      assert s[..n] == [s[0]] + s[1..][..n - 1];
      n
  }

  /** chrono's `scan::number(s, 1, width)`: one to `width` leading digits,
      taken greedily, with the rest of the text. */
  function ScanNumber(s: string, width: nat): (r: Option<(nat, string)>)
    ensures r.Some? ==> |r.value.1| < |s| && r.value.1 == s[|s| - |r.value.1|..]
    ensures r.Some? ==> r.value.0 < Pow10(width)
  {
    var n := LeadingDigits(s, width);
    if n == 0 then None
    else
      DigitsBound(s[..n], width);
      Some((DigitsValue(s[..n]), s[n..]))
  }

  function Pow10(k: nat): (p: nat)
    ensures p >= 1
  {
    if k == 0 then 1 else 10 * Pow10(k - 1)
  }

  /** A numeral of k digits is below 10^k, and so below 10^w for any w >= k. */
  lemma {:induction false} DigitsBound(s: string, w: nat)
    requires AllDigits(s) && |s| <= w
    ensures DigitsValue(s) < Pow10(w)
    decreases w
  {
    if w > 0 {
      if s == [] {
        DigitsBound(s, w - 1);
      } else {
        DigitsBound(s[..|s| - 1], w - 1);
      }
    }
  }

  /** chrono's `%b` when parsing: three letters naming a month in any ASCII
      case, as the month number 1 to 12. */
  function MonthOf(s: string): (r: Option<nat>)
    requires |s| == 3
    ensures r.Some? ==> 1 <= r.value <= 12
  {
    match (ToLowerAscii(s[0]), ToLowerAscii(s[1]), ToLowerAscii(s[2]))
    case ('j', 'a', 'n') => Some(1)
    case ('f', 'e', 'b') => Some(2)
    case ('m', 'a', 'r') => Some(3)
    case ('a', 'p', 'r') => Some(4)
    case ('m', 'a', 'y') => Some(5)
    case ('j', 'u', 'n') => Some(6)
    case ('j', 'u', 'l') => Some(7)
    case ('a', 'u', 'g') => Some(8)
    case ('s', 'e', 'p') => Some(9)
    case ('o', 'c', 't') => Some(10)
    case ('n', 'o', 'v') => Some(11)
    case ('d', 'e', 'c') => Some(12)
    case _ => None
  }

  /** `NaiveDateTime::parse_from_str(s, "%d-%b-%Y %H:%M")` taken as UTC, read
      strictly: `None` on every text chrono rejects, and also on some it
      accepts (whitespace before a numeric field, signed or wider years). The
      day comes first. */
  function Parse(s: string): (r: Option<DateTime>)
    ensures r.Some? ==> Valid(r.value) && 0 <= r.value.year <= 9999
  {
    match ScanNumber(s, 2)
    case None => None
    case Some((day, rest)) => ParseMonthYear(day, rest)
  }

  /** What follows the day: `-`, the month's three letters, `-`, the year. */
  function ParseMonthYear(day: nat, s: string): (r: Option<DateTime>)
    ensures r.Some? ==> Valid(r.value) && 0 <= r.value.year <= 9999 && r.value.day == day
  {
    if |s| < 5 || s[0] != '-' || s[4] != '-' then None
    else match MonthOf(s[1..4])
      case None => None
      case Some(month) =>
        match ScanNumber(s[5..], 4)
        case None => None
        case Some((year, rest)) => ParseClock(DateTime(year, month, day, 0, 0), rest)
  }

  /** What follows the year: a space, the hour, `:`, the minute, and nothing
      more; the date must exist and the time of day be in range. */
  function ParseClock(date: DateTime, s: string): (r: Option<DateTime>)
    ensures r.Some? ==> Valid(r.value) && r.value == date.(hour := r.value.hour, minute := r.value.minute)
  {
    if s == [] || s[0] != ' ' then None
    else match ScanNumber(s[1..], 2)
      case None => None
      case Some((hour, rest)) =>
        if rest == [] || rest[0] != ':' then None
        else match ScanNumber(rest[1..], 2)
          case None => None
          case Some((minute, tail)) =>
            var t := date.(hour := hour, minute := minute);
            if tail == [] && Valid(t) then Some(t) else None
  }

  /** Two digits, zero-padded. */
  function Pad2(n: nat): (r: string)
    requires n < 100
    ensures |r| == 2 && AllDigits(r) && DigitsValue(r) == n
  {
    var r := [DigitChar(n / 10), DigitChar(n % 10)];
    assert r[..1][..0] == [];
    assert DigitsValue(r[..1]) == n / 10;
    r
  }

  /** Four digits, zero-padded. */
  function Pad4(n: nat): (r: string)
    requires n < 10000
    ensures |r| == 4 && AllDigits(r) && DigitsValue(r) == n
  {
    var r := Pad2(n / 100) + Pad2(n % 100);
    assert r[..3][..2] == Pad2(n / 100);
    assert r[..3] == Pad2(n / 100) + [r[2]];
    assert r[..2] == Pad2(n / 100);
    r
  }

  /** The listing's own rendering of an instant, as the server prints it:
      the day, then the month and year, then the clock. */
  function Format(t: DateTime): string
    requires Valid(t) && 0 <= t.year <= 9999
  {
    Pad2(t.day) + MonthYearText(t)
  }

  function MonthYearText(t: DateTime): string
    requires Valid(t) && 0 <= t.year <= 9999
  {
    "-" + MonthAbbrevs[t.month - 1] + "-" + Pad4(t.year as nat) + ClockText(t.hour, t.minute)
  }

  function ClockText(hour: nat, minute: nat): string
    requires hour < 24 && minute < 60
  {
    " " + Pad2(hour) + ":" + Pad2(minute)
  }

  /** A field of exactly `width` digits scans to its value, whatever follows. */
  lemma ScanField(d: string, rest: string, width: nat)
    requires |d| == width > 0 && AllDigits(d)
    ensures ScanNumber(d + rest, width) == Some((DigitsValue(d), rest))
  {
    var s := d + rest;
    assert forall k :: 0 <= k < width ==> s[k] == d[k];
    assert s[..width] == d;
    assert s[width..] == rest;
  }

  /** The month abbreviations are read back as their month numbers. */
  lemma MonthOfAbbrev(m: nat)
    requires 1 <= m <= 12
    ensures MonthOf(MonthAbbrevs[m - 1]) == Some(m)
  {
  }

  lemma ParseClockFormat(date: DateTime, hour: nat, minute: nat)
    requires Valid(date.(hour := hour, minute := minute))
    ensures ParseClock(date, ClockText(hour, minute)) == Some(date.(hour := hour, minute := minute))
  {
    var tail := ":" + Pad2(minute);
    var s := ClockText(hour, minute);
    assert s == " " + Pad2(hour) + tail;
    assert s[0] == ' ' && s[1..] == Pad2(hour) + tail;
    ScanField(Pad2(hour), tail, 2);
    assert tail[0] == ':' && tail[1..] == Pad2(minute) + [];
    ScanField(Pad2(minute), [], 2);
  }

  lemma ParseMonthYearFormat(t: DateTime)
    requires Valid(t) && 0 <= t.year <= 9999
    ensures ParseMonthYear(t.day, MonthYearText(t)) == Some(t)
  {
    var mon := MonthAbbrevs[t.month - 1];
    var clock := ClockText(t.hour, t.minute);
    var s := MonthYearText(t);
    assert s == "-" + mon + "-" + (Pad4(t.year as nat) + clock);
    assert s[0] == '-' && s[4] == '-' && s[1..4] == mon;
    MonthOfAbbrev(t.month);
    assert s[5..] == Pad4(t.year as nat) + clock;
    ScanField(Pad4(t.year as nat), clock, 4);
    ParseClockFormat(DateTime(t.year, t.month, t.day, 0, 0), t.hour, t.minute);
  }

  /** Reading back the server's rendering of an instant gives the instant. */
  lemma ParseFormat(t: DateTime)
    requires Valid(t) && 0 <= t.year <= 9999
    ensures Parse(Format(t)) == Some(t)
  {
    ScanField(Pad2(t.day), MonthYearText(t), 2);
    ParseMonthYearFormat(t);
  }

  /** The server's rendering is seventeen characters, with a digit at each
      end, so trimming leaves it as it is. */
  lemma FormatEdges(t: DateTime)
    requires Valid(t) && 0 <= t.year <= 9999
    ensures |Format(t)| == 17 && IsDigit(Format(t)[0]) && IsDigit(Format(t)[16])
  {
    var clock := ClockText(t.hour, t.minute);
    assert |MonthAbbrevs[t.month - 1]| == 3;
    assert clock[|clock| - 1] == Pad2(t.minute)[1];
    assert Format(t)[16] == MonthYearText(t)[14] == clock[|clock| - 1];
  }

  /** The server's rendering survives trimming and reads back as the instant. */
  lemma FormatReadBack(t: DateTime)
    requires Valid(t) && 0 <= t.year <= 9999
    ensures Format(t) != [] && Trim(Format(t)) == Format(t)
    ensures Parse(Format(t)) == Some(t)
  {
    FormatEdges(t);
    TrimClean(Format(t));
    ParseFormat(t);
  }

  /** The worked example: the server prints that minute as `12-Jan-2024 08:30`... */
  lemma FormatExample()
    ensures Format(DateTime(2024, 1, 12, 8, 30)) == "12-Jan-2024 08:30"
  {
    MonthYearExample();
    assert Pad2(12) == "12";
  }

  lemma MonthYearExample()
    ensures MonthYearText(DateTime(2024, 1, 12, 8, 30)) == "-Jan-2024 08:30"
  {
    assert ClockText(8, 30) == " 08:30";
    assert Pad4(2024) == "2024";
  }

  /** ...and the text is read as that minute of that day, UTC. */
  lemma ParseExample(s: string)
    requires s == "12-Jan-2024 08:30"
    ensures Parse(s) == Some(DateTime(2024, 1, 12, 8, 30))
  {
    FormatExample();
    ParseFormat(DateTime(2024, 1, 12, 8, 30));
  }

  /** An ISO date is not in the listing's format: its day field would be `20`,
      and no `-` follows it. */
  lemma ParseRejectsIsoDate()
    ensures Parse("2024-01-12") == None
  {
    var s := "2024-01-12";
    var rest := "24-01-12";
    assert s == "20" + rest;
    ScanField("20", rest, 2);
  }
}
