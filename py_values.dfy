/**
 * The Python values an event's `extra_data` bag can hold, and the few
 * built-ins the persistence layer applies to them: `str()`, `bool()` and
 * `int()` on text.  A float is an opaque token known only by its `repr()`
 * text; the interpreter's float casts are a parameter (`Casts`), since the
 * model does no float arithmetic.
 */
module PyValues {
  import opened Wrappers

  /** A Python float, known only by the text `repr()` gives for it ("0.5", "-0.0", "inf", "nan"). */
  datatype FloatTok = FloatTok(repr: string)

  /** The six fields of a naive `datetime.datetime` without microseconds or time zone, before they are checked. */
  datatype DateTimeVal = DateTimeVal(year: int, month: int, day: int, hour: int, minute: int, second: int)

  predicate IsLeapYear(y: int) {
    y % 4 == 0 && (y % 100 != 0 || y % 400 == 0)
  }

  function DaysInMonth(y: int, m: int): (n: int)
    requires 1 <= m <= 12
    ensures 28 <= n <= 31
  {
    if m == 2 then (if IsLeapYear(y) then 29 else 28)
    else if m == 4 || m == 6 || m == 9 || m == 11 then 30
    else 31
  }

  /** The fields `datetime(year, month, day, hour, minute, second)` accepts without raising ValueError. */
  predicate ValidDateTime(d: DateTimeVal) {
    && 1 <= d.year <= 9999
    && 1 <= d.month <= 12
    && 1 <= d.day <= DaysInMonth(d.year, d.month)
    && 0 <= d.hour <= 23
    && 0 <= d.minute <= 59
    && 0 <= d.second <= 59
  }

  /** A `datetime.datetime` object: only fields the constructor accepts. */
  type PyDateTime = d: DateTimeVal | ValidDateTime(d) witness DateTimeVal(1, 1, 1, 0, 0, 0)

  /** No field is negative, so each can be written as digits. */
  predicate NaturalFields(d: DateTimeVal) {
    d.year >= 0 && d.month >= 0 && d.day >= 0 && d.hour >= 0 && d.minute >= 0 && d.second >= 0
  }

  /**
   * A value of the bag.  `Bool` and `Int` are distinct constructors here;
   * code that asks `isinstance(v, int)` must say that a bool is one too.
   * `Other` is a JSON array or object, known by its `repr()` text.
   */
  datatype PyVal =
    | Str(s: string)
    | Int(i: int)
    | Bool(b: bool)
    | Float(f: FloatTok)
    | DateTime(dt: PyDateTime)
    | PyNone
    | Other(repr: string)

  /** The interpreter's casts that need float internals; `None` means the cast raised. */
  datatype Casts = Casts(
    intOfFloat: FloatTok -> Option<int>,     // int(f): truncation; raises on inf and nan
    floatOfInt: int -> Option<FloatTok>,     // float(i): raises OverflowError past the double range
    floatOfText: string -> Option<FloatTok>) // float(s): raises ValueError on a malformed literal

  /** `isinstance(v, int)`: true of ints and, because `bool` subclasses `int`, of booleans. */
  predicate IsInstanceInt(v: PyVal) {
    v.Int? || v.Bool?
  }

  // ---------------------------------------------------------------- characters

  predicate IsDigit(c: char) {
    '0' <= c <= '9'
  }

  function DigitValue(c: char): (d: nat)
    requires IsDigit(c)
    ensures d < 10
  {
    (c - '0') as nat
  }

  function DigitChar(d: nat): (c: char)
    requires d < 10
    ensures IsDigit(c) && DigitValue(c) == d
  {
    ('0' as int + d) as char
  }

  /** `str.isspace()`: the characters Python's regular expressions match with `\s` and `int()` strips. */
  predicate IsSpace(c: char) {
    c == ' ' || '\t' <= c <= '\r' || '\U{1c}' <= c <= '\U{1f}'
    || c == '\U{85}' || c == '\U{a0}' || c == '\U{1680}'
    || '\U{2000}' <= c <= '\U{200a}' || c == '\U{2028}' || c == '\U{2029}'
    || c == '\U{202f}' || c == '\U{205f}' || c == '\U{3000}'
  }

  // ---------------------------------------------------------------- str()

  /** `"%0*d" % (width, n)`: the decimal digits of `n`, zero-padded on the left to `width`. */
  function Decimal(n: nat, width: nat): (s: string)
    ensures |s| > 0 && IsDigit(s[|s| - 1])
    decreases n, width
  {
    if width <= 1 && n < 10 then [DigitChar(n)]
    else Decimal(n / 10, if width == 0 then 0 else width - 1) + [DigitChar(n % 10)]
  }

  /** `str(i)` for an int. */
  function IntToText(i: int): string {
    if i < 0 then "-" + Decimal(-i, 1) else Decimal(i, 1)
  }

  /** `str(d)` for a datetime: `YYYY-MM-DD HH:MM:SS`. */
  function FormatDateTime(d: PyDateTime): string {
    DateTextThen(d, " " + TimeTextThen(d, ""))
  }

  /** The `YYYY-MM-DD` half of `str(d)`, followed by `rest`. */
  function DateTextThen(d: DateTimeVal, rest: string): string
    requires NaturalFields(d)
  {
    Decimal(d.year, 4) + ("-" + (Decimal(d.month, 2) + ("-" + (Decimal(d.day, 2) + rest))))
  }

  /** The `HH:MM:SS` half of `str(d)`, followed by `rest`. */
  function TimeTextThen(d: DateTimeVal, rest: string): string
    requires NaturalFields(d)
  {
    Decimal(d.hour, 2) + (":" + (Decimal(d.minute, 2) + (":" + (Decimal(d.second, 2) + rest))))
  }

  /** `str(v)`, which never raises for these values. */
  function PyStr(v: PyVal): string {
    match v
    case Str(s) => s
    case Int(i) => IntToText(i)
    case Bool(b) => if b then "True" else "False"
    case Float(f) => f.repr
    case DateTime(d) => FormatDateTime(d)
    case PyNone => "None"
    case Other(r) => r
  }

  // ---------------------------------------------------------------- bool()

  /** `bool(v)`: Python truthiness, which never raises for these values. */
  predicate Truthy(v: PyVal) {
    match v
    case Str(s) => s != ""
    case Int(i) => i != 0
    case Bool(b) => b
    case Float(f) => f.repr != "0.0" && f.repr != "-0.0"
    case DateTime(_) => true
    case PyNone => false
    case Other(r) => r != "[]" && r != "{}"
  }

  // ---------------------------------------------------------------- int() on text

  function TrimStart(s: string): (r: string)
    ensures |r| <= |s| && r == s[|s| - |r|..]
    ensures r != [] ==> !IsSpace(r[0])
  {
    if s != [] && IsSpace(s[0]) then TrimStart(s[1..]) else s
  }

  function TrimEnd(s: string): (r: string)
    ensures |r| <= |s| && r == s[..|r|]
    ensures r != [] ==> !IsSpace(r[|r| - 1])
  {
    if s != [] && IsSpace(s[|s| - 1]) then TrimEnd(s[..|s| - 1]) else s
  }

  /** The value of `digit ("_"? digit)*`, the digit part `int()` accepts in base 10. */
  function DigitRunValue(b: string): (r: Option<nat>)
    ensures r.Some? ==> b != [] && IsDigit(b[0]) && IsDigit(b[|b| - 1])
  {
    if b == [] || !IsDigit(b[|b| - 1]) then None
    else if |b| == 1 then Some(DigitValue(b[0]))
    else
      var init := b[..|b| - 1];
      var body := if init[|init| - 1] == '_' then init[..|init| - 1] else init;
      match DigitRunValue(body)
      case None => None
      case Some(v) => Some(10 * v + DigitValue(b[|b| - 1]))
  }

  /** `int(s)` for a str: surrounding white space, an optional sign, then a digit run; `None` is ValueError. */
  function IntOfText(s: string): Option<int> {
    SignedDigits(TrimEnd(TrimStart(s)))
  }

  /** An optional sign followed by a digit run. */
  function SignedDigits(t: string): Option<int> {
    if t != [] && (t[0] == '-' || t[0] == '+') then
      match DigitRunValue(t[1..])
      case None => None
      case Some(v) => Some(if t[0] == '-' then -(v as int) else v)
    else
      match DigitRunValue(t)
      case None => None
      case Some(v) => Some(v)
  }

  // ---------------------------------------------------------------- int() and float()

  /** `int(v)`; `None` where it raises (TypeError for a datetime, `None`, a list or a dict; ValueError for bad text). */
  function IntCast(casts: Casts, v: PyVal): Option<int> {
    match v
    case Int(i) => Some(i)
    case Bool(b) => Some(if b then 1 else 0)
    case Float(f) => casts.intOfFloat(f)
    case Str(s) => IntOfText(s)
    case _ => None
  }

  /** `float(v)`; `None` where it raises. */
  function FloatCast(casts: Casts, v: PyVal): Option<FloatTok> {
    match v
    case Float(f) => Some(f)
    case Int(i) => casts.floatOfInt(i)
    case Bool(b) => Some(FloatTok(if b then "1.0" else "0.0"))
    case Str(s) => casts.floatOfText(s)
    case _ => None
  }

  // ---------------------------------------------------------------- lemmas

  /** Zero-padded decimal text reads back as the number it was made from. */
  lemma {:induction false} DecimalRoundTrip(n: nat, width: nat)
    ensures DigitRunValue(Decimal(n, width)) == Some(n)
    decreases n, width
  {
    if width <= 1 && n < 10 {
    } else {
      var w' := if width == 0 then 0 else width - 1;
      DecimalRoundTrip(n / 10, w');
      var s := Decimal(n, width);
      assert s[..|s| - 1] == Decimal(n / 10, w');
    }
  }

  lemma {:induction false} TrimStartNoSpace(s: string)
    requires s != [] && !IsSpace(s[0])
    ensures TrimStart(s) == s
  {
  }

  lemma {:induction false} TrimEndNoSpace(s: string)
    requires s != [] && !IsSpace(s[|s| - 1])
    ensures TrimEnd(s) == s
  {
  }

  /** Text with no white space at either end is what `int()` examines, unchanged. */
  lemma Untrimmed(s: string)
    requires s != [] && !IsSpace(s[0]) && !IsSpace(s[|s| - 1])
    ensures TrimEnd(TrimStart(s)) == s
  {
    TrimStartNoSpace(s);
    TrimEndNoSpace(s);
  }

  /** A digit run, and a minus sign before one, begin and end with characters that are not white space. */
  lemma DigitRunEnds(digits: string)
    requires DigitRunValue(digits).Some?
    ensures !IsSpace(digits[0]) && !IsSpace(digits[|digits| - 1])
    ensures var neg := ['-'] + digits; !IsSpace(neg[0]) && !IsSpace(neg[|neg| - 1])
  {
    var neg := ['-'] + digits;
    assert neg[|neg| - 1] == digits[|digits| - 1];
  }

  /** A minus sign then a digit run is the negated value of the run. */
  lemma NegatedDigitRun(digits: string)
    requires DigitRunValue(digits).Some?
    ensures SignedDigits(['-'] + digits) == Some(-(DigitRunValue(digits).value as int))
  {
    var neg := ['-'] + digits;
    assert neg[1..] == digits;
  }

  /** A digit run without a sign is its own value. */
  lemma UnsignedDigitRun(digits: string)
    requires DigitRunValue(digits).Some?
    ensures SignedDigits(digits) == Some(DigitRunValue(digits).value as int)
  {
    assert IsDigit(digits[0]);
  }

  /** A digit run, signed or not, is read by `int()` as its value. */
  lemma IntOfDigitRun(digits: string)
    requires DigitRunValue(digits).Some?
    ensures IntOfText(digits) == Some(DigitRunValue(digits).value as int)
    ensures IntOfText(['-'] + digits) == Some(-(DigitRunValue(digits).value as int))
  {
    DigitRunEnds(digits);
    Untrimmed(digits);
    Untrimmed(['-'] + digits);
    NegatedDigitRun(digits);
    UnsignedDigitRun(digits);
  }

  /** `int(str(i)) == i`: the text `str()` gives an int parses back to it. */
  lemma {:induction false} IntTextRoundTrip(i: int)
    ensures IntOfText(IntToText(i)) == Some(i)
  {
    var n: nat := if i < 0 then -i else i;
    DecimalRoundTrip(n, 1);
    IntOfDigitRun(Decimal(n, 1));
  }
}
