/**
 * `StatisticLogSQLAlchemyRepo.create_log`, the write path the application
 * uses: classify each non-null `extra_data` value (`_determine_type`),
 * coerce it to its group's native type (`_convert_value_for_type`, which
 * falls back to `str(value)` on any exception), and append key and value to
 * that group of the record before it is inserted.
 */
module StatisticSqlAlchemy {
  import opened Wrappers
  import opened PyValues
  import opened Strptime
  import opened Columns
  import opened Records

  /** The group names the loop accepts. */
  const TypesMap: seq<string> := ["string", "integer", "number", "bool", "date"]

  /**
   * `_determine_type`: a bool first (it is also an int), then an int, a
   * float, a str (a date when it parses with the timestamp pattern), a
   * datetime, and `"string"` for anything else.
   */
  function DetermineType(v: PyVal): (t: string)
    ensures t in TypesMap && ClassNamed(t).Some?
    ensures t == "bool" <==> v.Bool?
    ensures t == "integer" <==> v.Int?
    ensures t == "number" <==> v.Float?
    ensures t == "date" <==> v.DateTime? || (v.Str? && ParsesAsDateTime(v.s))
  {
    if v.Bool? then "bool"
    else if IsInstanceInt(v) then "integer"
    else if v.Float? then "number"
    else if v.Str? then (if ParsesAsDateTime(v.s) then "date" else "string")
    else if v.DateTime? then "date"
    else "string"
  }

  /**
   * The body of `_convert_value_for_type`'s `try`: the converted value, or
   * `None` where a cast raises.  Only `int()`, `float()` and `strptime` can
   * raise: `int()` never does on an int or a bool, and `strptime` raises
   * exactly on a str that does not parse.
   */
  function Coerce(casts: Casts, v: PyVal, t: string): (r: Option<PyVal>)
    ensures r.None? ==> t == "integer" || t == "number" || (t == "date" && v.Str?)
    ensures t == "integer" && IsInstanceInt(v) ==> r == Some(Int(if v.Int? then v.i else if v.b then 1 else 0))
    ensures t == "date" && v.Str? ==> (r.Some? <==> ParsesAsDateTime(v.s))
  {
    if t == "integer" then
      match IntCast(casts, v)
      case None => None
      case Some(i) => Some(Int(i))
    else if t == "number" then
      match FloatCast(casts, v)
      case None => None
      case Some(f) => Some(Float(f))
    else if t == "bool" then Some(Bool(Truthy(v)))
    else if t == "date" then
      if v.Str? then
        match Parse(v.s)
        case None => None
        case Some(d) => Some(DateTime(d))
      else Some(v)
    else Some(Str(PyStr(v)))
  }

  /**
   * `_convert_value_for_type`: the coerced value, or `str(value)` when
   * coercion raised.  It never raises itself; its result is a value of the
   * group's native type or the value's text, and a str converted as a date
   * becomes a datetime exactly when it parses.
   */
  function ConvertValueForType(casts: Casts, v: PyVal, t: string): (r: PyVal)
    ensures t in TypesMap && (t == "date" ==> v.Str? || v.DateTime?) ==> NativeFor(ClassNamed(t).value, r) || r == Str(PyStr(v))
    ensures t == "date" && v.Str? ==> (r.DateTime? <==> ParsesAsDateTime(v.s)) && (r.DateTime? || r == v)
    ensures t == "string" ==> r == Str(PyStr(v))
  {
    Coerce(casts, v, t).GetOr(Str(PyStr(v)))
  }

  /**
   * What the loop stores for a value, stated without the interpreter's casts:
   * native values as they are, a timestamp string as its datetime, other
   * values as their text.
   */
  function Stored(v: PyVal): (r: PyVal) {
    match v
    case Str(s) => if Parse(s).Some? then DateTime(Parse(s).value) else v
    case Int(_) => v
    case Bool(_) => v
    case Float(_) => v
    case DateTime(_) => v
    case PyNone => Str("None")
    case Other(r) => Str(r)
  }

  /**
   * The loop body for one `(key, value)`: skip `None`, else file under the
   * classified group with the converted value.  Every other value is filed,
   * under its class, and the value filed is `Stored(value)` whatever the
   * interpreter's casts do, so it has its group's native type.
   */
  function File(casts: Casts, e: Entry): (r: Option<(TypeClass, PyVal)>)
    ensures r.None? <==> e.1 == PyNone
    ensures r.Some? ==> r.value == (ClassNamed(DetermineType(e.1)).value, Stored(e.1)) && NativeFor(r.value.0, r.value.1)
  {
    var value := e.1;
    if value == PyNone then None
    else
      var t := DetermineType(value);
      ConvertRouted(casts, value);
      if t in TypesMap then Some((ClassNamed(t).value, ConvertValueForType(casts, value, t)))
      else None
  }

  function RouteOf(casts: Casts): Route {
    e => File(casts, e)
  }

  /** The ten group lists after the loop has walked `bag`: every group as long in values as in names, one name per non-`None` entry. */
  function Flatten(casts: Casts, bag: seq<Entry>): (r: Groups)
    ensures r.Balanced()
    ensures r.TotalNames() == |NotNone(bag)|
  {
    PivotBalanced(bag, RouteOf(casts));
    PivotTotal(bag, RouteOf(casts));
    FiledCountNotNone(casts, bag);
    Pivot(bag, RouteOf(casts))
  }

  /** `create_log` up to the insert: the record dictionary it hands to the database. */
  method CreateLog(data: CreateCommand, id: string, source: string, casts: Casts) returns (rec: StatisticRecord)
    ensures fresh(rec)
    ensures rec.id == id && rec.source == source && rec.fixed == Normalize(data)
    ensures rec.Groups() == Flatten(casts, ExtraItems(data))
  {
    rec := new StatisticRecord(id, source, Normalize(data));
    var extra := ExtraItems(data);
    var i := 0;
    while i < |extra|
      invariant 0 <= i <= |extra|
      invariant rec.id == id && rec.source == source && rec.fixed == Normalize(data)
      invariant rec.Groups() == Flatten(casts, extra[..i])
    {
      PivotPrefix(extra, i, RouteOf(casts));
      var key, value := extra[i].0, extra[i].1;
      if value != PyNone {
        var valueType := DetermineType(value);
        if valueType in TypesMap {
          rec.Append(ClassNamed(valueType).value, key, ConvertValueForType(casts, value, valueType));
        }
      }
      i := i + 1;
    }
    assert extra[..i] == extra;
  }

  // ---------------------------------------------------------------- classification

  /** Booleans are checked first: they are `"bool"`, never `"integer"`; native numbers go by their type, numeric-looking text stays text. */
  lemma ClassifyExamples()
    ensures DetermineType(Bool(true)) == "bool" && DetermineType(Bool(false)) == "bool"
    ensures DetermineType(Int(42)) == "integer" && DetermineType(Int(1)) == "integer"
    ensures DetermineType(Float(FloatTok("3.14"))) == "number"
    ensures DetermineType(Str("hello")) == "string" && DetermineType(Str("42")) == "string"
    ensures DetermineType(PyNone) == "string" && DetermineType(Other("[1, 2]")) == "string"
  {
    NumericTextIsNotATimestamp();
    assert Parse("hello") == None by { assert YearField("hello") == None; }
  }

  /** A timestamp string classifies as `"date"`. */
  lemma ClassifyTimestamp(s: string)
    requires s == "2024-01-15 10:30:00"
    ensures DetermineType(Str(s)) == "date"
  {
    ExampleTimestamp(s);
  }

  /** `str(d)` of a datetime classifies as `"date"`, as the datetime itself does. */
  lemma ClassifyFormattedDateTime(d: DateTimeVal)
    requires ValidDateTime(d)
    ensures DetermineType(Str(FormatDateTime(d))) == "date" && DetermineType(DateTime(d)) == "date"
  {
    FormatRoundTrip(d);
  }

  // ---------------------------------------------------------------- conversion

  /**
   * For the group `_determine_type` picks, the `try` never raises, so the
   * `str(value)` fallback is not taken; the result is `Stored(v)`, whatever
   * the interpreter's float casts do, and it has the group's native type
   * (a `None` value, which the loop never converts, becomes the text "None").
   */
  lemma ConvertRouted(casts: Casts, v: PyVal)
    ensures Coerce(casts, v, DetermineType(v)).Some?
    ensures ConvertValueForType(casts, v, DetermineType(v)) == Stored(v)
    ensures NativeFor(ClassNamed(DetermineType(v)).value, Stored(v))
  {
  }

  /** An unparseable string converted as a date comes back as the same text, without raising. */
  lemma DateFallbackKeepsText(casts: Casts, s: string)
    requires !ParsesAsDateTime(s)
    ensures Coerce(casts, Str(s), "date").None?
    ensures ConvertValueForType(casts, Str(s), "date") == Str(s)
  {
  }

  /** Converting `str(d)` as a date gives back `d`; a value that is not a str is passed through. */
  lemma DateConversionRoundTrip(casts: Casts, d: DateTimeVal, v: PyVal)
    requires ValidDateTime(d)
    ensures ConvertValueForType(casts, Str(FormatDateTime(d)), "date") == DateTime(d)
    ensures !v.Str? ==> ConvertValueForType(casts, v, "date") == v
  {
    FormatRoundTrip(d);
  }

  /** Converting `str(i)` as an integer gives back `i`; text that is not an integer literal falls back to itself. */
  lemma IntegerConversionRoundTrip(casts: Casts, i: int, s: string)
    ensures ConvertValueForType(casts, Str(IntToText(i)), "integer") == Int(i)
    ensures IntOfText(s).None? ==> ConvertValueForType(casts, Str(s), "integer") == Str(s)
  {
    IntTextRoundTrip(i);
  }

  // ---------------------------------------------------------------- flattening

  /** The entries of `bag` whose value is not `None`, in order. */
  function NotNone(bag: seq<Entry>): seq<Entry> {
    if bag == [] then []
    else (if bag[0].1 != PyNone then [bag[0]] else []) + NotNone(bag[1..])
  }

  /** Group `c` of a flattened bag, read from the front: keys of the non-`None` entries classified `c`, and their stored values. */
  function GroupOf(bag: seq<Entry>, c: TypeClass): Column {
    if bag == [] then Column([], [])
    else
      var rest := GroupOf(bag[1..], c);
      var v := bag[0].1;
      if v != PyNone && ClassNamed(DetermineType(v)) == Some(c)
      then Column([bag[0].0] + rest.names, [Stored(v)] + rest.values)
      else rest
  }

  /** Every group's names and values are the bag's non-`None` entries of that class, in bag order, with their stored values. */
  lemma {:induction false} FlattenGroup(casts: Casts, bag: seq<Entry>, c: TypeClass)
    ensures Flatten(casts, bag).Get(c) == GroupOf(bag, c)
  {
    PivotGroup(bag, RouteOf(casts), c);
    FiledIsGroupOf(casts, bag, c);
  }

  lemma {:induction false} FiledIsGroupOf(casts: Casts, bag: seq<Entry>, c: TypeClass)
    ensures Column(NamesFiled(bag, RouteOf(casts), c), ValuesFiled(bag, RouteOf(casts), c)) == GroupOf(bag, c)
    decreases |bag|
  {
    if bag != [] {
      FiledIsGroupOf(casts, bag[1..], c);
      ConvertRouted(casts, bag[0].1);
    }
  }

  lemma {:induction false} FiledCountNotNone(casts: Casts, bag: seq<Entry>)
    ensures FiledCount(bag, RouteOf(casts)) == |NotNone(bag)|
    decreases |bag|
  {
    if bag != [] {
      FiledCountNotNone(casts, bag[1..]);
    }
  }

  /** With distinct keys, a key is in group `c` exactly when its value is not `None` and classifies as `c`: each kept key is in one group, a `None` one in none. */
  lemma FlattenKeyGroup(casts: Casts, bag: seq<Entry>, i: int, c: TypeClass)
    requires DistinctKeys(bag) && 0 <= i < |bag|
    ensures bag[i].0 in Flatten(casts, bag).Get(c).names
        <==> bag[i].1 != PyNone && ClassNamed(DetermineType(bag[i].1)) == Some(c)
  {
    KeyInGroupIff(bag, RouteOf(casts), i, c);
  }

  /** Every stored value has its group's native type: dates are datetimes, integers ints, and so on. */
  lemma FlattenNative(casts: Casts, bag: seq<Entry>, c: TypeClass)
    ensures forall v :: v in Flatten(casts, bag).Get(c).values ==> NativeFor(c, v)
  {
    forall e: Entry | RouteOf(casts)(e).Some?
      ensures NativeFor(RouteOf(casts)(e).value.0, RouteOf(casts)(e).value.1)
    {
      ConvertRouted(casts, e.1);
    }
    PivotValuesFit(bag, RouteOf(casts), NativeFor, c);
  }

  /** A bag of `None` values, like a missing or empty one, leaves all ten lists empty. */
  lemma {:induction false} FlattenAllNone(casts: Casts, bag: seq<Entry>)
    requires forall i :: 0 <= i < |bag| ==> bag[i].1 == PyNone
    ensures Flatten(casts, bag) == Empty
    decreases |bag|
  {
    if bag != [] {
      FlattenAllNone(casts, bag[..|bag| - 1]);
    }
  }

  /** `{"a": None, "b": 1}` files only `"b"`, under integer. */
  lemma NullSkippedExample(casts: Casts)
    ensures Flatten(casts, [("a", PyNone), ("b", Int(1))]) == Empty.Append(IntegerClass, "b", Int(1))
  {
    var bag := [("a", PyNone), ("b", Int(1))];
    forall c: TypeClass
      ensures Flatten(casts, bag).Get(c) == Empty.Append(IntegerClass, "b", Int(1)).Get(c)
    {
      FlattenGroup(casts, bag, c);
      assert bag[1..] == [("b", Int(1))];
    }
    GroupsEqual(Flatten(casts, bag), Empty.Append(IntegerClass, "b", Int(1)));
  }

  // The end-to-end example is proved group by group, with the bag cut into its
  // first three and last two entries, and with the text and timestamp values
  // passed in through `ExampleText` and `ExampleStamp` rather than written as
  // literals: each piece stays small enough for the solver.

  /** An event's bag holding one value of each kind; `note` and `seenAt` are the text and timestamp values. */
  function ExampleBag(note: PyVal, seenAt: PyVal): seq<Entry> {
    [("score", Int(7)), ("ratio", Float(FloatTok("0.5"))), ("flagged", Bool(true)), ("seen_at", seenAt), ("note", note)]
  }

  /** The groups that bag is expected to fill. */
  function ExampleGroups(note: PyVal): Groups {
    Groups(
      Column(["note"], [note]),
      Column(["score"], [Int(7)]),
      Column(["ratio"], [Float(FloatTok("0.5"))]),
      Column(["flagged"], [Bool(true)]),
      Column(["seen_at"], [DateTime(DateTimeVal(2024, 1, 15, 10, 30, 0))]))
  }

  /** What the example needs to know of the text value: it is a string and is stored as itself. */
  predicate ExampleText(u: PyVal) {
    u != PyNone && ClassNamed(DetermineType(u)) == Some(StringClass) && Stored(u) == u
  }

  /** What the example needs to know of the timestamp value: it is a date and is stored as its datetime. */
  predicate ExampleStamp(w: PyVal) {
    w != PyNone && ClassNamed(DetermineType(w)) == Some(DateClass) && Stored(w) == DateTime(DateTimeVal(2024, 1, 15, 10, 30, 0))
  }

  lemma ExampleTextOf(note: string)
    requires note == "hi"
    ensures ExampleText(Str(note))
  {
    assert Parse(note) == None by { assert YearField(note) == None; }
  }

  lemma ExampleStampOf(seenAt: string)
    requires seenAt == "2024-01-15 10:30:00"
    ensures ExampleStamp(Str(seenAt))
  {
    ExampleTimestamp(seenAt);
  }

  /** `GroupOf` on a bag given as its first entry and the rest. */
  lemma GroupOfCons(e: Entry, rest: seq<Entry>, c: TypeClass)
    ensures GroupOf([e] + rest, c)
         == if e.1 != PyNone && ClassNamed(DetermineType(e.1)) == Some(c)
            then Column([e.0] + GroupOf(rest, c).names, [Stored(e.1)] + GroupOf(rest, c).values)
            else GroupOf(rest, c)
  {
    assert ([e] + rest)[0] == e && ([e] + rest)[1..] == rest;
  }

  /** Group `c` of the example bag's last two entries, the timestamp and the text. */
  lemma ExampleGroupTail(u: PyVal, w: PyVal, c: TypeClass)
    requires ExampleText(u) && ExampleStamp(w)
    ensures GroupOf([("seen_at", w)] + [("note", u)], c)
         == if c == DateClass then ExampleGroups(u).dates
            else if c == StringClass then ExampleGroups(u).strings
            else Column([], [])
  {
    GroupOfCons(("note", u), [], c);
    GroupOfCons(("seen_at", w), [("note", u)], c);
  }

  /** The example bag's first three entries, an int, a float and a bool, each file under their own group ahead of `rest`. */
  lemma ExampleGroupHead(rest: seq<Entry>, c: TypeClass)
    ensures GroupOf([("score", Int(7))] + ([("ratio", Float(FloatTok("0.5")))] + ([("flagged", Bool(true))] + rest)), c)
         == if c == IntegerClass then Column(["score"] + GroupOf(rest, c).names, [Int(7)] + GroupOf(rest, c).values)
            else if c == NumberClass then Column(["ratio"] + GroupOf(rest, c).names, [Float(FloatTok("0.5"))] + GroupOf(rest, c).values)
            else if c == BoolClass then Column(["flagged"] + GroupOf(rest, c).names, [Bool(true)] + GroupOf(rest, c).values)
            else GroupOf(rest, c)
  {
    var e1, e2, e3 := ("score", Int(7)), ("ratio", Float(FloatTok("0.5"))), ("flagged", Bool(true));
    GroupOfCons(e3, rest, c);
    GroupOfCons(e2, [e3] + rest, c);
    GroupOfCons(e1, [e2] + ([e3] + rest), c);
  }

  /** The example bag as its three head entries ahead of its two tail entries. */
  lemma ExampleBagSplit(u: PyVal, w: PyVal)
    ensures ExampleBag(u, w)
         == [("score", Int(7))] + ([("ratio", Float(FloatTok("0.5")))] + ([("flagged", Bool(true))] + ([("seen_at", w)] + [("note", u)])))
  {
  }

  /** Group `c` of the example bag: the head's three groups and the tail's two. */
  lemma ExampleGroup(u: PyVal, w: PyVal, c: TypeClass)
    requires ExampleText(u) && ExampleStamp(w)
    ensures GroupOf(ExampleBag(u, w), c) == ExampleGroups(u).Get(c)
  {
    var tail := [("seen_at", w)] + [("note", u)];
    ExampleBagSplit(u, w);
    ExampleGroupHead(tail, c);
    ExampleGroupTail(u, w, c);
    match c
    case StringClass =>
    case IntegerClass => assert ["score"] + [] == ["score"] && [Int(7)] + [] == [Int(7)];
    case NumberClass => assert ["ratio"] + [] == ["ratio"] && [Float(FloatTok("0.5"))] + [] == [Float(FloatTok("0.5"))];
    case BoolClass => assert ["flagged"] + [] == ["flagged"] && [Bool(true)] + [] == [Bool(true)];
    case DateClass =>
  }

  /** One value of each kind lands in its own group with its native value; the timestamp text is stored as its datetime. */
  lemma EndToEndExample(casts: Casts, note: string, seenAt: string)
    requires note == "hi" && seenAt == "2024-01-15 10:30:00"
    ensures Flatten(casts, ExampleBag(Str(note), Str(seenAt))) == ExampleGroups(Str(note))
  {
    ExampleTextOf(note);
    ExampleStampOf(seenAt);
    ExampleFlatten(casts, Str(note), Str(seenAt));
  }

  lemma ExampleFlatten(casts: Casts, u: PyVal, w: PyVal)
    requires ExampleText(u) && ExampleStamp(w)
    ensures Flatten(casts, ExampleBag(u, w)) == ExampleGroups(u)
  {
    forall c: TypeClass
      ensures Flatten(casts, ExampleBag(u, w)).Get(c) == ExampleGroups(u).Get(c)
    {
      FlattenGroup(casts, ExampleBag(u, w), c);
      ExampleGroup(u, w, c);
    }
    GroupsEqual(Flatten(casts, ExampleBag(u, w)), ExampleGroups(u));
  }
}
