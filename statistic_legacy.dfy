/**
 * The older write path, `StatisticLogRepo.create_log` with the module-level
 * `determine_type` and `is_valid_datetime_format`.  It tests for a str first
 * and for an int before a bool, keeps `None` values, appends values without
 * converting them, and its list of accepted group names spells `"interger"`.
 * The lemmas at the end state how its records differ from those of the
 * canonical path.
 */
module StatisticLegacy {
  import opened Wrappers
  import opened PyValues
  import opened Strptime
  import opened Columns
  import opened Records
  import Canonical = StatisticSqlAlchemy

  /** The group names the loop accepts, with the integer group's name misspelled. */
  const TypesMap: seq<string> := ["string", "interger", "number", "bool", "date"]

  /**
   * `is_valid_datetime_format`: whether `strptime(s, '%Y-%m-%d %H:%M:%S')`
   * returns rather than raising ValueError.  Text that passes names a real
   * datetime, the same one its `str()` spelling names.
   */
  predicate IsValidDateTimeFormat(s: string): (b: bool)
    ensures b <==> ParsesAsDateTime(s)
    ensures b ==> Parse(s).Some? && ValidDateTime(Parse(s).value) && Parse(FormatDateTime(Parse(s).value)) == Parse(s)
  {
    match Parse(s)
    case None => false
    case Some(d) => FormatRoundTrip(d); true
  }

  /**
   * `determine_type`: a str is a date or a string; then `isinstance(v, int)`,
   * which a bool also passes; then a float; then a bool; then `"string"`.
   */
  function DetermineType(v: PyVal): (t: string)
    ensures ClassNamed(t).Some?
  {
    assert ClassNamed("date").Some? && ClassNamed("string").Some? && ClassNamed("integer").Some?;
    assert ClassNamed("number").Some? && ClassNamed("bool").Some?;
    if v.Str? then (if IsValidDateTimeFormat(v.s) then "date" else "string")
    else if IsInstanceInt(v) then "integer"
    else if v.Float? then "number"
    else if v.Bool? then "bool"
    else "string"
  }

  /**
   * The loop body for one `(key, value)`: file every value, unconverted,
   * whose type name is in the accepted list.  That drops exactly the ints
   * and the bools, and files `None` as a string.
   */
  function File(e: Entry): (r: Option<(TypeClass, PyVal)>)
    ensures r.None? <==> IsInstanceInt(e.1)
    ensures r.Some? ==> r.value.1 == e.1 && r.value.0 != IntegerClass && r.value.0 != BoolClass
    ensures e.1 == PyNone ==> r == Some((StringClass, PyNone))
  {
    var t := DetermineType(e.1);
    if t in TypesMap then Some((ClassNamed(t).value, e.1)) else None
  }

  const Route: Route := e => File(e)

  /** The ten group lists after the loop has walked `bag`: every group as long in values as in names, one name per entry that is neither an int nor a bool. */
  function Flatten(bag: seq<Entry>): (r: Groups)
    ensures r.Balanced()
    ensures r.TotalNames() == |NotIntLike(bag)|
  {
    PivotBalanced(bag, Route);
    PivotTotal(bag, Route);
    FiledCountNotIntLike(bag);
    Pivot(bag, Route)
  }

  /** `create_log` up to the insert: the record dictionary it hands to the database. */
  method CreateLog(data: CreateCommand, id: string, source: string) returns (rec: StatisticRecord)
    ensures fresh(rec)
    ensures rec.id == id && rec.source == source && rec.fixed == Normalize(data)
    ensures rec.Groups() == Flatten(ExtraItems(data))
  {
    rec := new StatisticRecord(id, source, Normalize(data));
    var extra := ExtraItems(data);
    var i := 0;
    while i < |extra|
      invariant 0 <= i <= |extra|
      invariant rec.id == id && rec.source == source && rec.fixed == Normalize(data)
      invariant rec.Groups() == Flatten(extra[..i])
    {
      PivotPrefix(extra, i, Route);
      var key, value := extra[i].0, extra[i].1;
      var valueType := DetermineType(value);
      assert Route(extra[i]) == if valueType in TypesMap then Some((ClassNamed(valueType).value, value)) else None;
      if valueType in TypesMap {
        rec.Append(ClassNamed(valueType).value, key, value);
      }
      i := i + 1;
    }
    assert extra[..i] == extra;
  }

  // ---------------------------------------------------------------- classification

  /** `is_valid_datetime_format` accepts `str(d)` of every datetime, and only text that reads as one. */
  lemma ValidFormatOfDateTime(d: DateTimeVal, s: string)
    requires ValidDateTime(d)
    ensures IsValidDateTimeFormat(FormatDateTime(d))
    ensures IsValidDateTimeFormat(s) ==> ValidDateTime(Parse(s).value)
  {
    FormatRoundTrip(d);
  }

  /** A string is `"date"` exactly when it has the timestamp format, and `"string"` otherwise. */
  lemma StringsTestedFirst(s: string)
    ensures DetermineType(Str(s)) == (if IsValidDateTimeFormat(s) then "date" else "string")
    ensures DetermineType(Str(s)) == Canonical.DetermineType(Str(s))
  {
  }

  /** A bool passes `isinstance(v, int)` and is classified `"integer"`. */
  lemma BoolIsInteger(b: bool)
    ensures DetermineType(Bool(b)) == "integer"
    ensures Canonical.DetermineType(Bool(b)) == "bool"
  {
  }

  /** The `'bool'` branch is unreachable: no value is classified `"bool"`. */
  lemma BoolBranchUnreachable(v: PyVal)
    ensures DetermineType(v) != "bool"
  {
  }

  /** `None`, a datetime, a list and a dict all fall through to `"string"`. */
  lemma FallbackIsString(v: PyVal)
    requires v.PyNone? || v.DateTime? || v.Other?
    ensures DetermineType(v) == "string"
  {
  }

  /** The two classifiers agree exactly on values that are neither a bool nor a datetime. */
  lemma ClassifiersAgreeIff(v: PyVal)
    ensures DetermineType(v) == Canonical.DetermineType(v) <==> !v.Bool? && !v.DateTime?
  {
  }

  /** The misspelled name selects no group, and `"integer"` is not accepted. */
  lemma IntegerNameRejected()
    ensures ClassNamed("interger").None?
    ensures "integer" !in TypesMap
  {
  }

  // ---------------------------------------------------------------- flattening

  /** The entries of `bag` whose value is neither an int nor a bool, in order. */
  function NotIntLike(bag: seq<Entry>): seq<Entry> {
    if bag == [] then []
    else (if !IsInstanceInt(bag[0].1) then [bag[0]] else []) + NotIntLike(bag[1..])
  }

  /** Group `c` of a flattened bag, read from the front: keys and unconverted values of the entries classified `c`, minus the integers. */
  function GroupOf(bag: seq<Entry>, c: TypeClass): Column {
    if bag == [] then Column([], [])
    else
      var rest := GroupOf(bag[1..], c);
      var v := bag[0].1;
      if c != IntegerClass && ClassNamed(DetermineType(v)) == Some(c)
      then Column([bag[0].0] + rest.names, [v] + rest.values)
      else rest
  }

  lemma {:induction false} FiledIsGroupOf(bag: seq<Entry>, c: TypeClass)
    ensures Column(NamesFiled(bag, Route, c), ValuesFiled(bag, Route, c)) == GroupOf(bag, c)
    decreases |bag|
  {
    if bag != [] {
      FiledIsGroupOf(bag[1..], c);
    }
  }

  /** Every group holds, in bag order, the keys and the values as given of the entries classified under it; the integer group none. */
  lemma FlattenGroup(bag: seq<Entry>, c: TypeClass)
    ensures Flatten(bag).Get(c) == GroupOf(bag, c)
  {
    PivotGroup(bag, Route, c);
    FiledIsGroupOf(bag, c);
  }

  /** The integer and bool groups always stay empty: ints and bools are classified `"integer"` and then dropped. */
  lemma {:induction false} IntegerAndBoolGroupsEmpty(bag: seq<Entry>)
    ensures Flatten(bag).integers == Column([], []) && Flatten(bag).bools == Column([], [])
    decreases |bag|
  {
    if bag != [] {
      var init, last := bag[..|bag| - 1], bag[|bag| - 1];
      IntegerAndBoolGroupsEmpty(init);
      RouteNeverIntegerOrBool(last);
      assert Flatten(bag) == Step(Flatten(init), last, Route);
    }
  }

  /** No entry is filed under the integer or the bool group. */
  lemma RouteNeverIntegerOrBool(e: Entry)
    ensures Route(e).Some? ==> Route(e).value.0 != IntegerClass && Route(e).value.0 != BoolClass
  {
    var t := DetermineType(e.1);
    assert t != "bool" && t != "integer" ==> ClassNamed(t) != Some(IntegerClass) && ClassNamed(t) != Some(BoolClass);
  }

  lemma {:induction false} FiledCountNotIntLike(bag: seq<Entry>)
    ensures FiledCount(bag, Route) == |NotIntLike(bag)|
    decreases |bag|
  {
    if bag != [] {
      FiledCountNotIntLike(bag[1..]);
    }
  }

  /** With distinct keys, a key whose value is `None` lands in the string group, where the canonical path files it nowhere. */
  lemma NoneFiledAsString(casts: Casts, bag: seq<Entry>, i: int)
    requires DistinctKeys(bag) && 0 <= i < |bag| && bag[i].1 == PyNone
    ensures bag[i].0 in Flatten(bag).strings.names
    ensures forall c :: bag[i].0 !in Canonical.Flatten(casts, bag).Get(c).names
  {
    KeyInGroupIff(bag, Route, i, StringClass);
    forall c
      ensures bag[i].0 !in Canonical.Flatten(casts, bag).Get(c).names
    {
      Canonical.FlattenKeyGroup(casts, bag, i, c);
    }
  }

  /** Date values stay the text they came as, where the canonical path stores datetimes. */
  lemma DatesStayText(casts: Casts, bag: seq<Entry>)
    ensures forall v :: v in Flatten(bag).dates.values ==> v.Str? && IsValidDateTimeFormat(v.s)
    ensures forall v :: v in Canonical.Flatten(casts, bag).dates.values ==> v.DateTime?
  {
    forall e: Entry | Route(e).Some?
      ensures DateText(Route(e).value.0, Route(e).value.1)
    {
    }
    PivotValuesFit(bag, Route, DateText, DateClass);
    assert Flatten(bag).Get(DateClass) == Flatten(bag).dates;
    Canonical.FlattenNative(casts, bag, DateClass);
    assert Canonical.Flatten(casts, bag).Get(DateClass) == Canonical.Flatten(casts, bag).dates;
  }

  /** What a legacy date value is: text in the timestamp format. */
  predicate DateText(c: TypeClass, v: PyVal) {
    c == DateClass ==> v.Str? && IsValidDateTimeFormat(v.s)
  }

  /** On a bag of strings, floats, lists and dicts, both paths put the same keys in every group, in the same order. */
  lemma SameNamesWithoutIntsBoolsDates(casts: Casts, bag: seq<Entry>, c: TypeClass)
    requires forall i :: 0 <= i < |bag| ==> bag[i].1.Str? || bag[i].1.Float? || bag[i].1.Other?
    ensures Flatten(bag).Get(c).names == Canonical.Flatten(casts, bag).Get(c).names
  {
    forall i | 0 <= i < |bag|
      ensures FiledUnder(bag[i], Route, c) <==> FiledUnder(bag[i], Canonical.RouteOf(casts), c)
    {
      ClassifiersAgreeIff(bag[i].1);
    }
    PivotGroup(bag, Route, c);
    PivotGroup(bag, Canonical.RouteOf(casts), c);
    NamesFiledAgree(bag, Route, Canonical.RouteOf(casts), c);
  }

  /** `{"n": 5, "ok": True}` leaves every group empty here; the canonical path files `"n"` as an integer and `"ok"` as a bool. */
  lemma MisspelledIntegerExample(casts: Casts)
    ensures Flatten([("n", Int(5)), ("ok", Bool(true))]) == Empty
    ensures Canonical.Flatten(casts, [("n", Int(5)), ("ok", Bool(true))])
         == Empty.Append(IntegerClass, "n", Int(5)).Append(BoolClass, "ok", Bool(true))
  {
    var bag := [("n", Int(5)), ("ok", Bool(true))];
    var both := Empty.Append(IntegerClass, "n", Int(5)).Append(BoolClass, "ok", Bool(true));
    assert bag[1..] == [("ok", Bool(true))] && bag[1..][1..] == [];
    forall c: TypeClass
      ensures Flatten(bag).Get(c) == Empty.Get(c)
      ensures Canonical.Flatten(casts, bag).Get(c) == both.Get(c)
    {
      FlattenGroup(bag, c);
      Canonical.FlattenGroup(casts, bag, c);
    }
    GroupsEqual(Flatten(bag), Empty);
    GroupsEqual(Canonical.Flatten(casts, bag), both);
  }
}
