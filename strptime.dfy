/**
 * `datetime.strptime(s, "%Y-%m-%d %H:%M:%S")`, the one date test both
 * persistence paths use.  The directives match as CPython's `_strptime`
 * compiles them: `%Y` is exactly four digits; `%m`, `%d`, `%H`, `%M`, `%S`
 * are one or two digits within the pattern's ranges (month 1-12, day 1-31
 * or a space and one digit, hour 0-23, minute 0-59, second 0-61); the
 * single space of the format matches one or more white-space characters;
 * nothing may follow the seconds.  Building the `datetime` then rejects
 * year 0, a day past the end of its month and seconds 60 and 61.
 */
module Strptime {
  import opened Wrappers
  import opened PyValues

  /** `%Y`: exactly four digits at the start of `s`, with the text after them. */
  function YearField(s: string): (r: Option<(nat, string)>)
    ensures r.Some? ==> r.value.0 <= 9999
  {
    if |s| >= 4 && IsDigit(s[0]) && IsDigit(s[1]) && IsDigit(s[2]) && IsDigit(s[3]) then
      Some((1000 * DigitValue(s[0]) + 100 * DigitValue(s[1]) + 10 * DigitValue(s[2]) + DigitValue(s[3]), s[4..]))
    else None
  }

  /**
   * A one- or two-digit directive at the start of `s`, with the text after it.
   * Two digits are read when two are there; the one-digit reading could then
   * only be followed by a digit, which no separator of the format matches
   * and which, after the seconds, is unconverted data.
   */
  function NumberField(s: string, lo: nat, hi: nat): (r: Option<(nat, string)>)
    ensures r.Some? ==> lo <= r.value.0 <= hi
  {
    if |s| >= 2 && IsDigit(s[0]) && IsDigit(s[1]) then
      var v := 10 * DigitValue(s[0]) + DigitValue(s[1]);
      if lo <= v <= hi then Some((v, s[2..])) else None
    else if |s| >= 1 && IsDigit(s[0]) && lo <= DigitValue(s[0]) <= hi then
      Some((DigitValue(s[0]), s[1..]))
    else None
  }

  /** `%d`: a number 1-31 as for `NumberField`, or a space followed by one digit 1-9. */
  function DayField(s: string): (r: Option<(nat, string)>)
    ensures r.Some? ==> 1 <= r.value.0 <= 31
  {
    if |s| >= 2 && s[0] == ' ' && IsDigit(s[1]) && DigitValue(s[1]) >= 1 then
      Some((DigitValue(s[1]), s[2..]))
    else NumberField(s, 1, 31)
  }

  /** A literal character of the format; `None` when `s` does not start with it. */
  function Literal(s: string, c: char): Option<string> {
    if |s| >= 1 && s[0] == c then Some(s[1..]) else None
  }

  /** The text after the white space `s` starts with. */
  function SkipSpaces(s: string): (r: string)
    ensures |r| <= |s|
    ensures r != [] ==> !IsSpace(r[0])
  {
    if s != [] && IsSpace(s[0]) then SkipSpaces(s[1..]) else s
  }

  /** The format's one space, which the pattern turns into "one or more white-space characters". */
  function Spaces(s: string): Option<string> {
    if s != [] && IsSpace(s[0]) then Some(SkipSpaces(s[1..])) else None
  }

  /** The date half, `%Y-%m-%d`, with the text after it. */
  function ParseDate(s: string): (r: Option<(nat, nat, nat, string)>)
    ensures r.Some? ==> r.value.0 <= 9999 && 1 <= r.value.1 <= 12 && 1 <= r.value.2 <= 31
  {
    match YearField(s)
    case None => None
    case Some((year, s1)) =>
      match Literal(s1, '-')
      case None => None
      case Some(s2) =>
        match NumberField(s2, 1, 12)
        case None => None
        case Some((month, s3)) =>
          match Literal(s3, '-')
          case None => None
          case Some(s4) =>
            match DayField(s4)
            case None => None
            case Some((day, s5)) => Some((year, month, day, s5))
  }

  /** The time half, `%H:%M:%S`, which must use up the text. */
  function ParseTime(s: string): (r: Option<(nat, nat, nat)>)
    ensures r.Some? ==> r.value.0 <= 23 && r.value.1 <= 59 && r.value.2 <= 61
  {
    match NumberField(s, 0, 23)
    case None => None
    case Some((hour, s1)) =>
      match Literal(s1, ':')
      case None => None
      case Some(s2) =>
        match NumberField(s2, 0, 59)
        case None => None
        case Some((minute, s3)) =>
          match Literal(s3, ':')
          case None => None
          case Some(s4) =>
            match NumberField(s4, 0, 61)
            case None => None
            case Some((second, s5)) =>
              if s5 != [] then None  // unconverted data remains
              else Some((hour, minute, second))
  }

  /** `datetime.strptime(s, "%Y-%m-%d %H:%M:%S")`; `None` is the ValueError it raises. */
  function Parse(s: string): (r: Option<DateTimeVal>)
    ensures r.Some? ==> ValidDateTime(r.value)
  {
    match ParseDate(s)
    case None => None
    case Some((year, month, day, rest)) =>
      match Spaces(rest)
      case None => None
      case Some(timeText) =>
        match ParseTime(timeText)
        case None => None
        case Some((hour, minute, second)) =>
          if year == 0 || day > DaysInMonth(year, month) || second > 59 then None
          else Some(DateTimeVal(year, month, day, hour, minute, second))
  }

  /** Whether the string passes the date test. */
  predicate ParsesAsDateTime(s: string) {
    Parse(s).Some?
  }

  /** The fields the pattern's digits can spell, before the calendar is consulted. */
  predicate InPatternRanges(d: DateTimeVal) {
    && 0 <= d.year <= 9999
    && 1 <= d.month <= 12
    && 1 <= d.day <= 31
    && 0 <= d.hour <= 23
    && 0 <= d.minute <= 59
    && 0 <= d.second <= 61
  }

  /** Fields that `str(d)`'s layout writes as four and two digits, in range for the pattern or not. */
  predicate TwoDigitFields(d: DateTimeVal) {
    && NaturalFields(d) && d.year < 10000
    && d.month < 100 && d.day < 100 && d.hour < 100 && d.minute < 100 && d.second < 100
  }

  // ---------------------------------------------------------------- lemmas

  lemma TwoDigits(n: nat)
    requires n < 100
    ensures Decimal(n, 2) == [DigitChar(n / 10), DigitChar(n % 10)]
  {
  }

  lemma YearFieldOf(n: nat, rest: string)
    requires n < 10000
    ensures YearField(Decimal(n, 4) + rest) == Some((n, rest))
  {
    var q1 := n / 10;
    var q2 := q1 / 10;
    var q3 := q2 / 10;
    assert Decimal(n, 4) == Decimal(q1, 3) + [DigitChar(n % 10)];
    assert Decimal(q1, 3) == Decimal(q2, 2) + [DigitChar(q1 % 10)];
    TwoDigits(q2);
    var s := Decimal(n, 4) + rest;
    assert s[..4] == [DigitChar(q3), DigitChar(q2 % 10), DigitChar(q1 % 10), DigitChar(n % 10)];
    assert s[4..] == rest;
  }

  lemma NumberFieldOf(n: nat, lo: nat, hi: nat, rest: string)
    requires lo <= n <= hi && n < 100
    ensures NumberField(Decimal(n, 2) + rest, lo, hi) == Some((n, rest))
  {
    TwoDigits(n);
    var s := Decimal(n, 2) + rest;
    assert s[0] == DigitChar(n / 10) && s[1] == DigitChar(n % 10);
    assert s[2..] == rest;
  }

  /** Two digits are read as a number, and are rejected outright when it is outside the directive's range. */
  lemma TwoDigitField(n: nat, lo: nat, hi: nat, rest: string)
    requires n < 100
    ensures NumberField(Decimal(n, 2) + rest, lo, hi) == if lo <= n <= hi then Some((n, rest)) else None
  {
    TwoDigits(n);
    var s := Decimal(n, 2) + rest;
    assert s[0] == DigitChar(n / 10) && s[1] == DigitChar(n % 10);
    assert s[2..] == rest;
  }

  lemma LiteralOf(c: char, rest: string)
    ensures Literal([c] + rest, c) == Some(rest)
  {
    assert ([c] + rest)[1..] == rest;
  }

  /**
   * The date half of `str(d)` reads back as its year, month and day when
   * `%m` and `%d` accept them; a two-digit month or day outside 1-12 or 1-31
   * is rejected, whatever follows.
   */
  lemma {:induction false} DateTextRoundTrip(d: DateTimeVal, rest: string)
    requires NaturalFields(d) && d.year < 10000 && d.month < 100 && d.day < 100
    ensures ParseDate(DateTextThen(d, rest))
         == if 1 <= d.month <= 12 && 1 <= d.day <= 31 then Some((d.year as nat, d.month as nat, d.day as nat, rest)) else None
  {
    var year, month, day: nat := d.year, d.month, d.day;
    var dayText := Decimal(day, 2) + rest;
    TwoDigitField(day, 1, 31, rest);
    TwoDigits(day);
    assert DayField(dayText) == if 1 <= day <= 31 then Some((day, rest)) else None;
    var monthText := Decimal(month, 2) + ("-" + dayText);
    LiteralOf('-', dayText);
    TwoDigitField(month, 1, 12, "-" + dayText);
    var yearRest := "-" + monthText;
    LiteralOf('-', monthText);
    YearFieldOf(year, yearRest);
    var s := Decimal(year, 4) + yearRest;
    assert DateTextThen(d, rest) == s;
    assert YearField(s) == Some((year, yearRest));
    assert Literal(yearRest, '-') == Some(monthText);
    assert Literal("-" + dayText, '-') == Some(dayText);
  }

  /**
   * The time half of `str(d)` reads back as its hour, minute and second when
   * `%H`, `%M` and `%S` accept them and no text follows; a two-digit field
   * outside 0-23, 0-59 or 0-61 is rejected.
   */
  lemma {:induction false} TimeTextRoundTrip(d: DateTimeVal, trailing: string)
    requires NaturalFields(d) && d.hour < 100 && d.minute < 100 && d.second < 100
    ensures ParseTime(TimeTextThen(d, trailing))
         == if trailing == [] && d.hour <= 23 && d.minute <= 59 && d.second <= 61
            then Some((d.hour as nat, d.minute as nat, d.second as nat)) else None
  {
    var hour, minute, second: nat := d.hour, d.minute, d.second;
    var secondText := Decimal(second, 2) + trailing;
    TwoDigitField(second, 0, 61, trailing);
    var minuteText := Decimal(minute, 2) + (":" + secondText);
    LiteralOf(':', secondText);
    TwoDigitField(minute, 0, 59, ":" + secondText);
    LiteralOf(':', minuteText);
    TwoDigitField(hour, 0, 23, ":" + minuteText);
    assert TimeTextThen(d, trailing) == Decimal(hour, 2) + (":" + minuteText);
  }

  /**
   * Text of the form `str(d)`, with any run of white space between its halves,
   * is accepted exactly when nothing follows it and `d` is a real datetime
   * (a leap-year 29 February yes, a 30 February, year 0 or second 60 no).
   * Every two-digit field is covered, so this also says that a day of
   * 32-99, an hour of 24-99, a minute of 60-99 or a second of 60-99 is
   * rejected.
   */
  lemma {:induction false} PatternText(d: DateTimeVal, gap: string, trailing: string)
    requires TwoDigitFields(d)
    requires gap != [] && forall k :: 0 <= k < |gap| ==> IsSpace(gap[k])
    ensures Parse(DateTextThen(d, gap + TimeTextThen(d, trailing)))
         == if trailing == [] && ValidDateTime(d) then Some(d) else None
  {
    var timeText := TimeTextThen(d, trailing);
    var rest := gap + timeText;
    DateTextRoundTrip(d, rest);
    TimeTextRoundTrip(d, trailing);
    if 1 <= d.month <= 12 && 1 <= d.day <= 31 {
      assert Spaces(rest) == Some(timeText) by {
        TwoDigits(d.hour as nat);
        SpacesOver(gap, timeText);
      }
      if d.hour <= 23 && d.minute <= 59 && d.second <= 61 {
        ParseOfParts(DateTextThen(d, rest), rest, timeText, d, trailing == []);
      }
    }
  }

  /** How `Parse` puts together the date half, the white space and the time half. */
  lemma ParseOfParts(s: string, rest: string, timeText: string, d: DateTimeVal, timeOk: bool)
    requires InPatternRanges(d)
    requires ParseDate(s) == Some((d.year as nat, d.month as nat, d.day as nat, rest))
    requires Spaces(rest) == Some(timeText)
    requires ParseTime(timeText) == if timeOk then Some((d.hour as nat, d.minute as nat, d.second as nat)) else None
    ensures Parse(s) == if timeOk && ValidDateTime(d) then Some(d) else None
  {
  }

  lemma SpacesOver(gap: string, text: string)
    requires gap != [] && forall k :: 0 <= k < |gap| ==> IsSpace(gap[k])
    requires text != [] && IsDigit(text[0])
    ensures Spaces(gap + text) == Some(text)
  {
    SkipSpacesOver(gap[1..], text);
    assert (gap + text)[1..] == gap[1..] + text;
  }

  lemma {:induction false} SkipSpacesOver(gap: string, text: string)
    requires forall k :: 0 <= k < |gap| ==> IsSpace(gap[k])
    requires text != [] && !IsSpace(text[0])
    ensures SkipSpaces(gap + text) == text
    decreases |gap|
  {
    if gap == [] {
      assert gap + text == text;
    } else {
      assert (gap + text)[1..] == gap[1..] + text;
      SkipSpacesOver(gap[1..], text);
    }
  }

  // ---------------------------------------------------------------- spellings the pattern accepts

  /** How a one- or two-digit field is written: zero-padded, bare, or (for `%d` only) a space and then the digit. */
  datatype Spelling = Padded | Bare | SpacePadded

  /** The spelling of each field after the year. */
  datatype Spellings = Spellings(month: Spelling, day: Spelling, hour: Spelling, minute: Spelling, second: Spelling)

  /** `n` written as `sp` says; a number of two digits is written in full whatever `sp` says. */
  function FieldText(n: nat, sp: Spelling): (t: string)
    requires n < 100
    ensures 1 <= |t| <= 2
    ensures IsDigit(t[0]) <==> !(sp == SpacePadded && n < 10)
  {
    TwoDigits(n);
    if n >= 10 then Decimal(n, 2)
    else
      match sp
      case Padded => Decimal(n, 2)
      case Bare => [DigitChar(n)]
      case SpacePadded => [' ', DigitChar(n)]
  }

  /** The `%Y-%m-%d` half with its fields spelled as `sps` says, followed by `rest`. */
  function SpelledDateThen(d: DateTimeVal, sps: Spellings, rest: string): string
    requires InPatternRanges(d)
  {
    Decimal(d.year, 4) + ("-" + (FieldText(d.month, sps.month) + ("-" + (FieldText(d.day, sps.day) + rest))))
  }

  /** The `%H:%M:%S` half with its fields spelled as `sps` says, followed by `rest`. */
  function SpelledTimeThen(d: DateTimeVal, sps: Spellings, rest: string): string
    requires InPatternRanges(d)
  {
    FieldText(d.hour, sps.hour) + (":" + (FieldText(d.minute, sps.minute) + (":" + (FieldText(d.second, sps.second) + rest))))
  }

  /** Only the day may be written with a leading space. */
  predicate SpaceOnlyInDay(sps: Spellings) {
    sps.month != SpacePadded && sps.hour != SpacePadded && sps.minute != SpacePadded && sps.second != SpacePadded
  }

  /** `%m`, `%H`, `%M`, `%S` read a zero-padded or a bare number, but not a space-padded one. */
  lemma NumberFieldText(n: nat, lo: nat, hi: nat, sp: Spelling, rest: string)
    requires lo <= n <= hi < 100
    requires rest == [] || !IsDigit(rest[0])
    ensures NumberField(FieldText(n, sp) + rest, lo, hi) == if sp == SpacePadded && n < 10 then None else Some((n, rest))
  {
    if n >= 10 || sp == Padded {
      NumberFieldOf(n, lo, hi, rest);
    } else {
      var s := FieldText(n, sp) + rest;
      assert s[1..] == rest || s[0] == ' ';
    }
  }

  /** `%d` reads any of the three spellings. */
  lemma DayFieldText(n: nat, sp: Spelling, rest: string)
    requires 1 <= n <= 31
    requires rest == [] || !IsDigit(rest[0])
    ensures DayField(FieldText(n, sp) + rest) == Some((n, rest))
  {
    var s := FieldText(n, sp) + rest;
    if n >= 10 || sp == Padded {
      NumberFieldOf(n, 1, 31, rest);
    } else if sp == Bare {
      assert s[1..] == rest;
    } else {
      assert s[0] == ' ' && s[1] == DigitChar(n) && s[2..] == rest;
    }
  }

  lemma {:induction false} SpelledDate(d: DateTimeVal, sps: Spellings, rest: string)
    requires InPatternRanges(d) && sps.month != SpacePadded
    requires rest == [] || !IsDigit(rest[0])
    ensures ParseDate(SpelledDateThen(d, sps, rest)) == Some((d.year as nat, d.month as nat, d.day as nat, rest))
  {
    var dayText := FieldText(d.day, sps.day) + rest;
    DayFieldText(d.day, sps.day, rest);
    var monthText := FieldText(d.month, sps.month) + ("-" + dayText);
    LiteralOf('-', dayText);
    NumberFieldText(d.month, 1, 12, sps.month, "-" + dayText);
    var yearRest := "-" + monthText;
    LiteralOf('-', monthText);
    YearFieldOf(d.year, yearRest);
    assert SpelledDateThen(d, sps, rest) == Decimal(d.year, 4) + yearRest;
  }

  lemma {:induction false} SpelledTime(d: DateTimeVal, sps: Spellings, trailing: string)
    requires InPatternRanges(d) && SpaceOnlyInDay(sps)
    requires trailing == [] || !IsDigit(trailing[0])
    ensures ParseTime(SpelledTimeThen(d, sps, trailing))
         == if trailing == [] then Some((d.hour as nat, d.minute as nat, d.second as nat)) else None
  {
    var secondText := FieldText(d.second, sps.second) + trailing;
    NumberFieldText(d.second, 0, 61, sps.second, trailing);
    var minuteText := FieldText(d.minute, sps.minute) + (":" + secondText);
    LiteralOf(':', secondText);
    NumberFieldText(d.minute, 0, 59, sps.minute, ":" + secondText);
    LiteralOf(':', minuteText);
    NumberFieldText(d.hour, 0, 23, sps.hour, ":" + minuteText);
    assert SpelledTimeThen(d, sps, trailing) == FieldText(d.hour, sps.hour) + (":" + minuteText);
  }

  /**
   * Every spelling the pattern admits: month, hour, minute and second with
   * one or two digits, the day also as a space and a digit, any run of white
   * space between the halves.  The text is accepted exactly when nothing
   * follows the seconds and the fields form a real datetime.
   */
  lemma {:induction false} SpelledTimestamp(d: DateTimeVal, sps: Spellings, gap: string, trailing: string)
    requires InPatternRanges(d) && SpaceOnlyInDay(sps)
    requires gap != [] && forall k :: 0 <= k < |gap| ==> IsSpace(gap[k])
    requires trailing == [] || !IsDigit(trailing[0])
    ensures Parse(SpelledDateThen(d, sps, gap + SpelledTimeThen(d, sps, trailing)))
         == if trailing == [] && ValidDateTime(d) then Some(d) else None
  {
    var timeText := SpelledTimeThen(d, sps, trailing);
    var rest := gap + timeText;
    assert ParseDate(SpelledDateThen(d, sps, rest)) == Some((d.year as nat, d.month as nat, d.day as nat, rest)) by {
      assert rest[0] == gap[0];
      SpelledDate(d, sps, rest);
    }
    assert Spaces(rest) == Some(timeText) by {
      SpacesOver(gap, timeText);
    }
    assert ParseTime(timeText) == if trailing == [] then Some((d.hour as nat, d.minute as nat, d.second as nat)) else None by {
      SpelledTime(d, sps, trailing);
    }
    ParseOfParts(SpelledDateThen(d, sps, rest), rest, timeText, d, trailing == []);
  }

  /**
   * Of the directives, only `%d` reads a space before a digit; `%m`, `%H`,
   * `%M` and `%S` reject one.  In a whole timestamp a space before the hour
   * is different: it joins the white space between date and time.
   */
  lemma SpacePaddedOnlyForDay(n: nat, lo: nat, hi: nat, rest: string)
    requires lo <= n <= hi && n < 10
    ensures NumberField(FieldText(n, SpacePadded) + rest, lo, hi) == None
  {
  }

  // ---------------------------------------------------------------- what the pattern accepts is one of those spellings

  /** The white space `s` starts with. */
  function WhiteRun(s: string): (g: string)
    ensures forall k :: 0 <= k < |g| ==> IsSpace(g[k])
    ensures s == g + SkipSpaces(s)
  {
    if s != [] && IsSpace(s[0]) then
      assert s == [s[0]] + s[1..];
      [s[0]] + WhiteRun(s[1..])
    else []
  }

  /** How the one- or two-digit field at the start of `s` is written. */
  function SpellingAt(s: string): Spelling {
    if |s| >= 1 && s[0] == ' ' then SpacePadded
    else if |s| >= 2 && IsDigit(s[0]) && IsDigit(s[1]) then Padded
    else Bare
  }

  lemma CharOfDigit(c: char)
    requires IsDigit(c)
    ensures DigitChar(DigitValue(c)) == c
  {
  }

  lemma TenthOf(q: nat, r: nat)
    requires r < 10
    ensures (10 * q + r) / 10 == q && (10 * q + r) % 10 == r
  {
  }

  /** `%Y` reads the four digits of `Decimal(n, 4)`. */
  lemma YearFieldSpelled(s: string)
    requires YearField(s).Some?
    ensures s == Decimal(YearField(s).value.0, 4) + YearField(s).value.1
  {
    var n := YearField(s).value.0;
    var a, b, c, e := DigitValue(s[0]), DigitValue(s[1]), DigitValue(s[2]), DigitValue(s[3]);
    TenthOf(100 * a + 10 * b + c, e);
    TenthOf(10 * a + b, c);
    TenthOf(a, b);
    YearDisplay(n);
    CharOfDigit(s[0]); CharOfDigit(s[1]); CharOfDigit(s[2]); CharOfDigit(s[3]);
    assert s == s[..4] + s[4..];
  }

  /** A field `%m`, `%H`, `%M` or `%S` reads is its number written zero-padded or bare. */
  lemma NumberFieldSpelled(s: string, lo: nat, hi: nat)
    requires hi < 100 && NumberField(s, lo, hi).Some?
    ensures SpellingAt(s) != SpacePadded
    ensures s == FieldText(NumberField(s, lo, hi).value.0, SpellingAt(s)) + NumberField(s, lo, hi).value.1
  {
    var n := NumberField(s, lo, hi).value.0;
    FieldDisplay(n, SpellingAt(s));
    CharOfDigit(s[0]);
    if |s| >= 2 && IsDigit(s[0]) && IsDigit(s[1]) {
      TenthOf(DigitValue(s[0]), DigitValue(s[1]));
      CharOfDigit(s[1]);
      assert s == [s[0], s[1]] + s[2..];
    } else {
      assert s == [s[0]] + s[1..];
    }
  }

  /** A day `%d` reads is its number written zero-padded, bare, or after a space. */
  lemma DayFieldSpelled(s: string)
    requires DayField(s).Some?
    ensures s == FieldText(DayField(s).value.0, SpellingAt(s)) + DayField(s).value.1
  {
    if |s| >= 2 && s[0] == ' ' && IsDigit(s[1]) && DigitValue(s[1]) >= 1 {
      FieldDisplay(DigitValue(s[1]), SpacePadded);
      CharOfDigit(s[1]);
      assert s == [s[0], s[1]] + s[2..];
    } else {
      NumberFieldSpelled(s, 1, 31);
    }
  }

  lemma LiteralSpelled(s: string, c: char)
    requires Literal(s, c).Some?
    ensures s == [c] + Literal(s, c).value
  {
  }

  /** The date half `ParseDate` accepts is `SpelledDateThen` of what it reads, with a month that is not space-padded. */
  lemma {:induction false} DateSpelled(s: string) returns (month: Spelling, day: Spelling)
    requires ParseDate(s).Some?
    ensures month != SpacePadded
    ensures var r := ParseDate(s).value;
      s == Decimal(r.0, 4) + ("-" + (FieldText(r.1, month) + ("-" + (FieldText(r.2, day) + r.3))))
  {
    var s1 := YearField(s).value.1;
    var s2 := Literal(s1, '-').value;
    var s3 := NumberField(s2, 1, 12).value.1;
    var s4 := Literal(s3, '-').value;
    YearFieldSpelled(s);
    LiteralSpelled(s1, '-');
    NumberFieldSpelled(s2, 1, 12);
    LiteralSpelled(s3, '-');
    DayFieldSpelled(s4);
    month, day := SpellingAt(s2), SpellingAt(s4);
  }

  /** The time half `ParseTime` accepts is `SpelledTimeThen` of what it reads, with no field space-padded. */
  lemma {:induction false} TimeSpelled(t: string) returns (hour: Spelling, minute: Spelling, second: Spelling)
    requires ParseTime(t).Some?
    ensures hour != SpacePadded && minute != SpacePadded && second != SpacePadded
    ensures var r := ParseTime(t).value;
      t == FieldText(r.0, hour) + (":" + (FieldText(r.1, minute) + (":" + (FieldText(r.2, second) + ""))))
  {
    var t1 := NumberField(t, 0, 23).value.1;
    var t2 := Literal(t1, ':').value;
    var t3 := NumberField(t2, 0, 59).value.1;
    var t4 := Literal(t3, ':').value;
    NumberFieldSpelled(t, 0, 23);
    LiteralSpelled(t1, ':');
    NumberFieldSpelled(t2, 0, 59);
    LiteralSpelled(t3, ':');
    NumberFieldSpelled(t4, 0, 61);
    assert NumberField(t4, 0, 61).value.1 == [];
    hour, minute, second := SpellingAt(t), SpellingAt(t2), SpellingAt(t4);
  }

  /**
   * The converse of `SpelledTimestamp`: whatever text `strptime` accepts is
   * the datetime it returns, written with some spelling of each field (a
   * space only before the day's digit) and some non-empty run of white
   * space between the halves, with nothing after the seconds.
   */
  lemma {:induction false} AcceptedIsSpelled(s: string)
    requires Parse(s).Some?
    ensures exists sps: Spellings, gap: string ::
      && SpaceOnlyInDay(sps)
      && gap != [] && (forall k :: 0 <= k < |gap| ==> IsSpace(gap[k]))
      && s == SpelledDateThen(Parse(s).value, sps, gap + SpelledTimeThen(Parse(s).value, sps, ""))
  {
    var rest := ParseDate(s).value.3;
    var timeText := Spaces(rest).value;
    ParsedFields(s);
    var month, day := DateSpelled(s);
    var hour, minute, second := TimeSpelled(timeText);
    var gap := GapSpelled(rest);
    var sps := Spellings(month, day, hour, minute, second);
    SpelledOfParts(s, Parse(s).value, sps, rest, gap, timeText);
  }

  /** The fields `Parse` returns are those its date and time halves read. */
  lemma ParsedFields(s: string)
    requires Parse(s).Some?
    ensures var r := ParseDate(s).value;
      && Spaces(r.3).Some? && ParseTime(Spaces(r.3).value).Some?
      && var t := ParseTime(Spaces(r.3).value).value;
         Parse(s).value == DateTimeVal(r.0, r.1, r.2, t.0, t.1, t.2)
  {
  }

  /** The white space the format's space consumes. */
  lemma GapSpelled(rest: string) returns (gap: string)
    requires Spaces(rest).Some?
    ensures gap != [] && forall k :: 0 <= k < |gap| ==> IsSpace(gap[k])
    ensures rest == gap + Spaces(rest).value
  {
    gap := WhiteRun(rest);
    assert rest == [rest[0]] + rest[1..];
  }

  /** The two halves, spelled field by field, put together. */
  lemma SpelledOfParts(s: string, d: DateTimeVal, sps: Spellings, rest: string, gap: string, timeText: string)
    requires InPatternRanges(d)
    requires s == Decimal(d.year, 4) + ("-" + (FieldText(d.month, sps.month) + ("-" + (FieldText(d.day, sps.day) + rest))))
    requires rest == gap + timeText
    requires timeText == FieldText(d.hour, sps.hour) + (":" + (FieldText(d.minute, sps.minute) + (":" + (FieldText(d.second, sps.second) + ""))))
    ensures s == SpelledDateThen(d, sps, gap + SpelledTimeThen(d, sps, ""))
  {
  }

  /** `Decimal(y, 4)` spelled out digit by digit. */
  lemma YearDisplay(y: nat)
    requires y < 10000
    ensures Decimal(y, 4) == [DigitChar(y / 10 / 10 / 10), DigitChar(y / 10 / 10 % 10), DigitChar(y / 10 % 10), DigitChar(y % 10)]
  {
    var q1 := y / 10;
    var q2 := q1 / 10;
    assert Decimal(y, 4) == Decimal(q1, 3) + [DigitChar(y % 10)];
    assert Decimal(q1, 3) == Decimal(q2, 2) + [DigitChar(q1 % 10)];
    TwoDigits(q2);
  }

  /** `FieldText` spelled out character by character. */
  lemma FieldDisplay(n: nat, sp: Spelling)
    requires n < 100
    ensures FieldText(n, sp)
         == if n >= 10 || sp == Padded then [DigitChar(n / 10), DigitChar(n % 10)]
            else if sp == Bare then [DigitChar(n)] else [' ', DigitChar(n)]
  {
    TwoDigits(n);
  }

  /** A timestamp with every field after the year a single digit, spelled out character by character. */
  lemma BareDisplay(d: DateTimeVal, sps: Spellings)
    requires InPatternRanges(d) && d.month < 10 && d.day < 10 && d.hour < 10 && d.minute < 10 && d.second < 10
    requires sps == Spellings(Bare, Bare, Bare, Bare, Bare)
    ensures SpelledDateThen(d, sps, " " + SpelledTimeThen(d, sps, ""))
         == [DigitChar(d.year / 10 / 10 / 10), DigitChar(d.year / 10 / 10 % 10), DigitChar(d.year / 10 % 10), DigitChar(d.year % 10),
             '-', DigitChar(d.month), '-', DigitChar(d.day), ' ', DigitChar(d.hour), ':', DigitChar(d.minute), ':', DigitChar(d.second)]
  {
    YearDisplay(d.year);
    FieldDisplay(d.month, Bare); FieldDisplay(d.day, Bare);
    FieldDisplay(d.hour, Bare); FieldDisplay(d.minute, Bare); FieldDisplay(d.second, Bare);
  }

  /** Zero-padded fields spell out as in `str(d)`. */
  lemma PaddedIsFormat(d: DateTimeVal, sps: Spellings, rest: string)
    requires InPatternRanges(d)
    ensures sps.hour == Padded && sps.minute == Padded && sps.second == Padded ==> SpelledTimeThen(d, sps, rest) == TimeTextThen(d, rest)
    ensures sps.month == Padded && sps.day == Padded ==> SpelledDateThen(d, sps, rest) == DateTextThen(d, rest)
  {
  }

  /** A time half whose hour is one bare digit, spelled out character by character. */
  lemma BareHourDisplay(d: DateTimeVal, sps: Spellings, rest: string)
    requires InPatternRanges(d) && d.hour < 10
    requires sps.hour == Bare && sps.minute == Padded && sps.second == Padded
    ensures SpelledTimeThen(d, sps, rest)
         == [DigitChar(d.hour), ':', DigitChar(d.minute / 10), DigitChar(d.minute % 10),
             ':', DigitChar(d.second / 10), DigitChar(d.second % 10)] + rest
  {
    FieldDisplay(d.hour, Bare); FieldDisplay(d.minute, Padded); FieldDisplay(d.second, Padded);
  }

  /** A timestamp whose day is a space and one digit, spelled out character by character. */
  lemma SpacePaddedDayDisplay(d: DateTimeVal, sps: Spellings, rest: string)
    requires InPatternRanges(d) && d.day < 10
    requires sps == Spellings(Padded, SpacePadded, Padded, Padded, Padded)
    ensures SpelledDateThen(d, sps, rest)
         == [DigitChar(d.year / 10 / 10 / 10), DigitChar(d.year / 10 / 10 % 10), DigitChar(d.year / 10 % 10), DigitChar(d.year % 10),
             '-', DigitChar(d.month / 10), DigitChar(d.month % 10), '-', ' ', DigitChar(d.day)] + rest
  {
    YearDisplay(d.year);
    FieldDisplay(d.month, Padded); FieldDisplay(d.day, SpacePadded);
  }

  // Each example below comes in two lemmas.  The `...Text` lemma takes the
  // literal text as a `requires` and shows it equal to the spelling of a
  // datetime; the example itself then applies a general lemma to that
  // spelling.  Letting the solver unfold the parser over the literal
  // directly costs far more than this detour.

  lemma ExampleBareFieldsText(s: string)
    requires s == "2024-1-5 9:5:3"
    ensures s == SpelledDateThen(DateTimeVal(2024, 1, 5, 9, 5, 3), Spellings(Bare, Bare, Bare, Bare, Bare),
                                 " " + SpelledTimeThen(DateTimeVal(2024, 1, 5, 9, 5, 3), Spellings(Bare, Bare, Bare, Bare, Bare), ""))
  {
    BareDisplay(DateTimeVal(2024, 1, 5, 9, 5, 3), Spellings(Bare, Bare, Bare, Bare, Bare));
  }

  /** Month, day, hour, minute and second may each be a single digit. */
  lemma ExampleBareFields(s: string)
    requires s == "2024-1-5 9:5:3"
    ensures Parse(s) == Some(DateTimeVal(2024, 1, 5, 9, 5, 3))
  {
    ExampleBareFieldsText(s);
    SpelledTimestamp(DateTimeVal(2024, 1, 5, 9, 5, 3), Spellings(Bare, Bare, Bare, Bare, Bare), " ", "");
  }

  lemma ExampleSpacePaddedDayText(s: string)
    requires s == "2024-01- 5 10:30:00"
    ensures s == SpelledDateThen(DateTimeVal(2024, 1, 5, 10, 30, 0), Spellings(Padded, SpacePadded, Padded, Padded, Padded),
                                 " " + SpelledTimeThen(DateTimeVal(2024, 1, 5, 10, 30, 0), Spellings(Padded, SpacePadded, Padded, Padded, Padded), ""))
  {
    var d, sps := DateTimeVal(2024, 1, 5, 10, 30, 0), Spellings(Padded, SpacePadded, Padded, Padded, Padded);
    PaddedIsFormat(d, sps, "");
    TimeDisplay(d, "");
    SpacePaddedDayDisplay(d, sps, " " + TimeTextThen(d, ""));
  }

  /** The day may be a space followed by one digit. */
  lemma ExampleSpacePaddedDay(s: string)
    requires s == "2024-01- 5 10:30:00"
    ensures Parse(s) == Some(DateTimeVal(2024, 1, 5, 10, 30, 0))
  {
    ExampleSpacePaddedDayText(s);
    SpelledTimestamp(DateTimeVal(2024, 1, 5, 10, 30, 0), Spellings(Padded, SpacePadded, Padded, Padded, Padded), " ", "");
  }

  /** `strptime(str(d))` gives `d` back for every datetime Python can hold. */
  lemma {:induction false} FormatRoundTrip(d: DateTimeVal)
    requires ValidDateTime(d)
    ensures Parse(FormatDateTime(d)) == Some(d)
  {
    PatternText(d, " ", []);
  }

  /** `DateTextThen` spelled out character by character. */
  lemma DateDisplay(d: DateTimeVal, rest: string)
    requires NaturalFields(d) && d.year < 10000 && d.month < 100 && d.day < 100
    ensures DateTextThen(d, rest)
         == [DigitChar(d.year / 10 / 10 / 10), DigitChar(d.year / 10 / 10 % 10), DigitChar(d.year / 10 % 10),
             DigitChar(d.year % 10), '-', DigitChar(d.month / 10), DigitChar(d.month % 10), '-',
             DigitChar(d.day / 10), DigitChar(d.day % 10)] + rest
  {
    TwoDigits(d.month); TwoDigits(d.day);
    var q1 := d.year / 10;
    var q2 := q1 / 10;
    assert Decimal(d.year, 4) == Decimal(q1, 3) + [DigitChar(d.year % 10)];
    assert Decimal(q1, 3) == Decimal(q2, 2) + [DigitChar(q1 % 10)];
    TwoDigits(q2);
  }

  /** `TimeTextThen` spelled out character by character. */
  lemma TimeDisplay(d: DateTimeVal, rest: string)
    requires NaturalFields(d) && d.hour < 100 && d.minute < 100 && d.second < 100
    ensures TimeTextThen(d, rest)
         == [DigitChar(d.hour / 10), DigitChar(d.hour % 10), ':', DigitChar(d.minute / 10), DigitChar(d.minute % 10),
             ':', DigitChar(d.second / 10), DigitChar(d.second % 10)] + rest
  {
    TwoDigits(d.hour); TwoDigits(d.minute); TwoDigits(d.second);
  }

  lemma ExampleTimestampText(s: string)
    requires s == "2024-01-15 10:30:00"
    ensures s == DateTextThen(DateTimeVal(2024, 1, 15, 10, 30, 0), " " + TimeTextThen(DateTimeVal(2024, 1, 15, 10, 30, 0), ""))
  {
    var d := DateTimeVal(2024, 1, 15, 10, 30, 0);
    DateDisplay(d, " " + TimeTextThen(d, ""));
    TimeDisplay(d, "");
  }

  /** A plain `YYYY-MM-DD HH:MM:SS` stamp is a datetime. */
  lemma ExampleTimestamp(s: string)
    requires s == "2024-01-15 10:30:00"
    ensures Parse(s) == Some(DateTimeVal(2024, 1, 15, 10, 30, 0))
  {
    var d := DateTimeVal(2024, 1, 15, 10, 30, 0);
    ExampleTimestampText(s);
    PatternText(d, " ", "");
  }

  lemma ExampleTrailingTextText(s: string)
    requires s == "2024-01-15 10:30:00Z"
    ensures s == DateTextThen(DateTimeVal(2024, 1, 15, 10, 30, 0), " " + TimeTextThen(DateTimeVal(2024, 1, 15, 10, 30, 0), "Z"))
  {
    var d := DateTimeVal(2024, 1, 15, 10, 30, 0);
    DateDisplay(d, " " + TimeTextThen(d, "Z"));
    TimeDisplay(d, "Z");
  }

  /** Nothing may follow the seconds: a zone designator makes the text a plain string. */
  lemma ExampleTrailingText(s: string)
    requires s == "2024-01-15 10:30:00Z"
    ensures Parse(s) == None
  {
    var d := DateTimeVal(2024, 1, 15, 10, 30, 0);
    ExampleTrailingTextText(s);
    PatternText(d, " ", "Z");
  }

  lemma ExampleWideGapText(s: string)
    requires s == "2024-01-15\t\t10:30:00"
    ensures s == DateTextThen(DateTimeVal(2024, 1, 15, 10, 30, 0), "\t\t" + TimeTextThen(DateTimeVal(2024, 1, 15, 10, 30, 0), ""))
  {
    var d := DateTimeVal(2024, 1, 15, 10, 30, 0);
    DateDisplay(d, "\t\t" + TimeTextThen(d, ""));
    TimeDisplay(d, "");
  }

  /** The space of the format matches any run of white space. */
  lemma ExampleWideGap(s: string)
    requires s == "2024-01-15\t\t10:30:00"
    ensures Parse(s) == Some(DateTimeVal(2024, 1, 15, 10, 30, 0))
  {
    var d := DateTimeVal(2024, 1, 15, 10, 30, 0);
    ExampleWideGapText(s);
    PatternText(d, "\t\t", "");
  }

  lemma ExampleLeapDayText(s: string)
    requires s == "2024-02-29 00:00:00"
    ensures s == DateTextThen(DateTimeVal(2024, 2, 29, 0, 0, 0), " " + TimeTextThen(DateTimeVal(2024, 2, 29, 0, 0, 0), ""))
  {
    var d := DateTimeVal(2024, 2, 29, 0, 0, 0);
    DateDisplay(d, " " + TimeTextThen(d, ""));
    TimeDisplay(d, "");
  }

  /** 29 February exists in a leap year. */
  lemma ExampleLeapDay(s: string)
    requires s == "2024-02-29 00:00:00"
    ensures Parse(s) == Some(DateTimeVal(2024, 2, 29, 0, 0, 0))
  {
    var d := DateTimeVal(2024, 2, 29, 0, 0, 0);
    ExampleLeapDayText(s);
    assert ValidDateTime(d) by { assert IsLeapYear(2024); }
    PatternText(d, " ", "");
  }

  lemma ExampleNotLeapDayText(s: string)
    requires s == "2023-02-29 00:00:00"
    ensures s == DateTextThen(DateTimeVal(2023, 2, 29, 0, 0, 0), " " + TimeTextThen(DateTimeVal(2023, 2, 29, 0, 0, 0), ""))
  {
    var d := DateTimeVal(2023, 2, 29, 0, 0, 0);
    DateDisplay(d, " " + TimeTextThen(d, ""));
    TimeDisplay(d, "");
  }

  /** 29 February does not exist in a common year. */
  lemma ExampleNotLeapDay(s: string)
    requires s == "2023-02-29 00:00:00"
    ensures Parse(s) == None
  {
    var d := DateTimeVal(2023, 2, 29, 0, 0, 0);
    ExampleNotLeapDayText(s);
    assert !ValidDateTime(d) by { assert !IsLeapYear(2023); }
    PatternText(d, " ", "");
  }

  lemma ExampleYearZeroText(s: string)
    requires s == "0000-01-01 00:00:00"
    ensures s == DateTextThen(DateTimeVal(0, 1, 1, 0, 0, 0), " " + TimeTextThen(DateTimeVal(0, 1, 1, 0, 0, 0), ""))
  {
    var d := DateTimeVal(0, 1, 1, 0, 0, 0);
    DateDisplay(d, " " + TimeTextThen(d, ""));
    TimeDisplay(d, "");
  }

  /** Year 0 matches the pattern but is not a datetime. */
  lemma ExampleYearZero(s: string)
    requires s == "0000-01-01 00:00:00"
    ensures Parse(s) == None
  {
    var d := DateTimeVal(0, 1, 1, 0, 0, 0);
    ExampleYearZeroText(s);
    PatternText(d, " ", "");
  }

  lemma ExampleLeapSecondText(s: string)
    requires s == "2024-01-15 10:30:60"
    ensures s == DateTextThen(DateTimeVal(2024, 1, 15, 10, 30, 60), " " + TimeTextThen(DateTimeVal(2024, 1, 15, 10, 30, 60), ""))
  {
    var d := DateTimeVal(2024, 1, 15, 10, 30, 60);
    DateDisplay(d, " " + TimeTextThen(d, ""));
    TimeDisplay(d, "");
  }

  /** Second 60 matches the pattern but is not a datetime. */
  lemma ExampleLeapSecond(s: string)
    requires s == "2024-01-15 10:30:60"
    ensures Parse(s) == None
  {
    var d := DateTimeVal(2024, 1, 15, 10, 30, 60);
    ExampleLeapSecondText(s);
    PatternText(d, " ", "");
  }

  lemma ExampleSecondSixtyOneText(s: string)
    requires s == "2024-01-15 10:30:61"
    ensures s == DateTextThen(DateTimeVal(2024, 1, 15, 10, 30, 61), " " + TimeTextThen(DateTimeVal(2024, 1, 15, 10, 30, 61), ""))
  {
    var d := DateTimeVal(2024, 1, 15, 10, 30, 61);
    DateDisplay(d, " " + TimeTextThen(d, ""));
    TimeDisplay(d, "");
  }

  /** Second 61, the top of the pattern's range, is not a datetime either. */
  lemma ExampleSecondSixtyOne(s: string)
    requires s == "2024-01-15 10:30:61"
    ensures Parse(s) == None
  {
    var d := DateTimeVal(2024, 1, 15, 10, 30, 61);
    ExampleSecondSixtyOneText(s);
    PatternText(d, " ", "");
  }

  lemma ExampleTrailingSpaceText(s: string)
    requires s == "2024-01-15 10:30:00 "
    ensures s == DateTextThen(DateTimeVal(2024, 1, 15, 10, 30, 0), " " + TimeTextThen(DateTimeVal(2024, 1, 15, 10, 30, 0), " "))
  {
    var d := DateTimeVal(2024, 1, 15, 10, 30, 0);
    DateDisplay(d, " " + TimeTextThen(d, " "));
    TimeDisplay(d, " ");
  }

  /** Even white space after the seconds is unconverted data. */
  lemma ExampleTrailingSpace(s: string)
    requires s == "2024-01-15 10:30:00 "
    ensures Parse(s) == None
  {
    var d := DateTimeVal(2024, 1, 15, 10, 30, 0);
    ExampleTrailingSpaceText(s);
    PatternText(d, " ", " ");
  }

  lemma ExampleHourTwentyFourText(s: string)
    requires s == "2024-01-15 24:00:00"
    ensures s == DateTextThen(DateTimeVal(2024, 1, 15, 24, 0, 0), " " + TimeTextThen(DateTimeVal(2024, 1, 15, 24, 0, 0), ""))
  {
    var d := DateTimeVal(2024, 1, 15, 24, 0, 0);
    DateDisplay(d, " " + TimeTextThen(d, ""));
    TimeDisplay(d, "");
  }

  /** Hour 24 is outside `%H`. */
  lemma ExampleHourTwentyFour(s: string)
    requires s == "2024-01-15 24:00:00"
    ensures Parse(s) == None
  {
    var d := DateTimeVal(2024, 1, 15, 24, 0, 0);
    ExampleHourTwentyFourText(s);
    PatternText(d, " ", "");
  }

  lemma ExampleDayThirtyTwoText(s: string)
    requires s == "2024-01-32 10:30:00"
    ensures s == DateTextThen(DateTimeVal(2024, 1, 32, 10, 30, 0), " " + TimeTextThen(DateTimeVal(2024, 1, 32, 10, 30, 0), ""))
  {
    var d := DateTimeVal(2024, 1, 32, 10, 30, 0);
    DateDisplay(d, " " + TimeTextThen(d, ""));
    TimeDisplay(d, "");
  }

  /** Day 32 is outside `%d`. */
  lemma ExampleDayThirtyTwo(s: string)
    requires s == "2024-01-32 10:30:00"
    ensures Parse(s) == None
  {
    var d := DateTimeVal(2024, 1, 32, 10, 30, 0);
    ExampleDayThirtyTwoText(s);
    PatternText(d, " ", "");
  }

  lemma ExampleSpaceBeforeHourText(s: string)
    requires s == "2024-01-15  9:30:00"
    ensures s == SpelledDateThen(DateTimeVal(2024, 1, 15, 9, 30, 0), Spellings(Padded, Padded, Bare, Padded, Padded),
                                 "  " + SpelledTimeThen(DateTimeVal(2024, 1, 15, 9, 30, 0), Spellings(Padded, Padded, Bare, Padded, Padded), ""))
  {
    var d := DateTimeVal(2024, 1, 15, 9, 30, 0);
    var sps := Spellings(Padded, Padded, Bare, Padded, Padded);
    var timeText := SpelledTimeThen(d, sps, "");
    PaddedIsFormat(d, sps, "  " + timeText);
    DateDisplay(d, "  " + timeText);
    BareHourDisplay(d, sps, "");
  }

  /** A space before a one-digit hour is not rejected: it joins the white space between date and time. */
  lemma ExampleSpaceBeforeHour(s: string)
    requires s == "2024-01-15  9:30:00"
    ensures Parse(s) == Some(DateTimeVal(2024, 1, 15, 9, 30, 0))
  {
    var d := DateTimeVal(2024, 1, 15, 9, 30, 0);
    ExampleSpaceBeforeHourText(s);
    SpelledTimestamp(d, Spellings(Padded, Padded, Bare, Padded, Padded), "  ", "");
  }

  lemma ExampleMonthThirteenText(s: string)
    requires s == "2024-13-01 00:00:00"
    ensures s == DateTextThen(DateTimeVal(2024, 13, 1, 0, 0, 0), " " + TimeTextThen(DateTimeVal(2024, 13, 1, 0, 0, 0), ""))
  {
    var d := DateTimeVal(2024, 13, 1, 0, 0, 0);
    DateDisplay(d, " " + TimeTextThen(d, ""));
    TimeDisplay(d, "");
  }

  /** Month 13 is outside the pattern. */
  lemma ExampleMonthThirteen(s: string)
    requires s == "2024-13-01 00:00:00"
    ensures Parse(s) == None
  {
    var d := DateTimeVal(2024, 13, 1, 0, 0, 0);
    ExampleMonthThirteenText(s);
    PatternText(d, " ", "");
  }

  /** Text that only looks numeric is not a timestamp. */
  lemma NumericTextIsNotATimestamp()
    ensures Parse("42") == None
    ensures Parse("3.14") == None
  {
  }
}
