/**
 * The five typed column groups a stored record carries (`string`, `integer`,
 * `number`, `bool`, `date`), each a pair of parallel `names`/`values` lists,
 * and the pivot that fills them from an event's `extra_data` bag.
 *
 * Both repositories walk the bag in insertion order and, for each entry,
 * either skip it or append its key and a value to one group.  What they
 * differ in is that per-entry decision, a `Route`; the walk itself, and the
 * facts about it (balance, order, counts), are stated here once.
 */
module Columns {
  import opened Wrappers
  import opened PyValues

  /** The group a value is filed under. */
  datatype TypeClass = StringClass | IntegerClass | NumberClass | BoolClass | DateClass

  /** The group's name, the prefix of its `<name>_names`/`<name>_values` record keys. */
  function ClassName(c: TypeClass): string {
    match c
    case StringClass => "string"
    case IntegerClass => "integer"
    case NumberClass => "number"
    case BoolClass => "bool"
    case DateClass => "date"
  }

  /** The record's `f"{t}_names"` lookup: the group a type name selects, `None` where the record has no such key. */
  function ClassNamed(t: string): Option<TypeClass> {
    if t == "string" then Some(StringClass)
    else if t == "integer" then Some(IntegerClass)
    else if t == "number" then Some(NumberClass)
    else if t == "bool" then Some(BoolClass)
    else if t == "date" then Some(DateClass)
    else None
  }

  /** Whether `v` has the native type of group `c`'s values column. */
  predicate NativeFor(c: TypeClass, v: PyVal) {
    match c
    case StringClass => v.Str?
    case IntegerClass => v.Int?
    case NumberClass => v.Float?
    case BoolClass => v.Bool?
    case DateClass => v.DateTime?
  }

  /** One group: the keys filed under it and, position by position, their stored values. */
  datatype Column = Column(names: seq<string>, values: seq<PyVal>)

  datatype Groups = Groups(strings: Column, integers: Column, numbers: Column, bools: Column, dates: Column) {
    function Get(c: TypeClass): Column {
      match c
      case StringClass => strings
      case IntegerClass => integers
      case NumberClass => numbers
      case BoolClass => bools
      case DateClass => dates
    }

    /** `record[f"{c}_names"].append(name)` followed by `record[f"{c}_values"].append(value)`. */
    function Append(c: TypeClass, name: string, value: PyVal): (r: Groups)
      ensures r.Get(c) == Column(Get(c).names + [name], Get(c).values + [value])
      ensures forall c' :: c' != c ==> r.Get(c') == Get(c')
    {
      var col := Column(Get(c).names + [name], Get(c).values + [value]);
      match c
      case StringClass => this.(strings := col)
      case IntegerClass => this.(integers := col)
      case NumberClass => this.(numbers := col)
      case BoolClass => this.(bools := col)
      case DateClass => this.(dates := col)
    }

    /** Every group has as many values as names. */
    predicate Balanced() {
      forall c :: |Get(c).names| == |Get(c).values|
    }

    /** The number of keys filed across the five groups. */
    function TotalNames(): nat {
      |strings.names| + |integers.names| + |numbers.names| + |bools.names| + |dates.names|
    }
  }

  /** The ten empty lists a record starts with. */
  const Empty: Groups := Groups(Column([], []), Column([], []), Column([], []), Column([], []), Column([], []))

  // ---------------------------------------------------------------- the pivot

  type Entry = (string, PyVal)

  /** The per-entry decision of a flatten loop: skip (`None`) or file under a group with a stored value. */
  type Route = Entry -> Option<(TypeClass, PyVal)>

  /** One pass of the loop body: file `e` as `route` decides, keyed by its own key. */
  function Step(cols: Groups, e: Entry, route: Route): Groups {
    match route(e)
    case None => cols
    case Some(filed) => cols.Append(filed.0, e.0, filed.1)
  }

  /** The groups after the loop has walked `bag` from the first entry to the last. */
  function Pivot(bag: seq<Entry>, route: Route): Groups {
    if bag == [] then Empty
    else Step(Pivot(bag[..|bag| - 1], route), bag[|bag| - 1], route)
  }

  // Reference definitions, read from the front of the bag.

  /** Whether `route` files `e` under `c`. */
  predicate FiledUnder(e: Entry, route: Route, c: TypeClass) {
    route(e).Some? && route(e).value.0 == c
  }

  /** The keys of the entries `route` files under `c`, in bag order. */
  function NamesFiled(bag: seq<Entry>, route: Route, c: TypeClass): seq<string> {
    if bag == [] then []
    else (if FiledUnder(bag[0], route, c) then [bag[0].0] else []) + NamesFiled(bag[1..], route, c)
  }

  /** The stored values of the entries `route` files under `c`, in bag order. */
  function ValuesFiled(bag: seq<Entry>, route: Route, c: TypeClass): seq<PyVal> {
    if bag == [] then []
    else (if FiledUnder(bag[0], route, c) then [route(bag[0]).value.1] else []) + ValuesFiled(bag[1..], route, c)
  }

  /** How many entries `route` files at all. */
  function FiledCount(bag: seq<Entry>, route: Route): nat {
    if bag == [] then 0
    else (if route(bag[0]).Some? then 1 else 0) + FiledCount(bag[1..], route)
  }

  // ---------------------------------------------------------------- lemmas

  lemma ClassNameRoundTrip(c: TypeClass)
    ensures ClassNamed(ClassName(c)) == Some(c)
  {
  }

  /** A name that selects a group is that group's own name. */
  lemma ClassNamedInverse(t: string)
    ensures ClassNamed(t).Some? ==> ClassName(ClassNamed(t).value) == t
  {
  }

  /** Two sets of groups are equal when every group is. */
  lemma GroupsEqual(a: Groups, b: Groups)
    requires forall c :: a.Get(c) == b.Get(c)
    ensures a == b
  {
    assert a.Get(StringClass) == b.Get(StringClass) && a.Get(IntegerClass) == b.Get(IntegerClass);
    assert a.Get(NumberClass) == b.Get(NumberClass) && a.Get(BoolClass) == b.Get(BoolClass);
    assert a.Get(DateClass) == b.Get(DateClass);
  }

  /** One more pass of the loop: the groups for the first `i + 1` entries are those for the first `i`, stepped by entry `i`. */
  lemma PivotPrefix(bag: seq<Entry>, i: int, route: Route)
    requires 0 <= i < |bag|
    ensures Pivot(bag[..i + 1], route) == Step(Pivot(bag[..i], route), bag[i], route)
  {
    assert bag[..i + 1][..i] == bag[..i];
  }

  lemma {:induction false} NamesFiledSnoc(bag: seq<Entry>, e: Entry, route: Route, c: TypeClass)
    ensures NamesFiled(bag + [e], route, c) == NamesFiled(bag, route, c) + (if FiledUnder(e, route, c) then [e.0] else [])
    decreases |bag|
  {
    if bag == [] {
      assert [e][1..] == [];
    } else {
      var head := if FiledUnder(bag[0], route, c) then [bag[0].0] else [];
      assert (bag + [e])[0] == bag[0] && (bag + [e])[1..] == bag[1..] + [e];
      assert NamesFiled(bag + [e], route, c) == head + NamesFiled(bag[1..] + [e], route, c);
      NamesFiledSnoc(bag[1..], e, route, c);
    }
  }

  lemma {:induction false} ValuesFiledSnoc(bag: seq<Entry>, e: Entry, route: Route, c: TypeClass)
    ensures ValuesFiled(bag + [e], route, c)
         == ValuesFiled(bag, route, c) + (if FiledUnder(e, route, c) then [route(e).value.1] else [])
    decreases |bag|
  {
    if bag == [] {
      assert [e][1..] == [];
    } else {
      var head := if FiledUnder(bag[0], route, c) then [route(bag[0]).value.1] else [];
      assert (bag + [e])[0] == bag[0] && (bag + [e])[1..] == bag[1..] + [e];
      assert ValuesFiled(bag + [e], route, c) == head + ValuesFiled(bag[1..] + [e], route, c);
      ValuesFiledSnoc(bag[1..], e, route, c);
    }
  }

  lemma {:induction false} FiledCountSnoc(bag: seq<Entry>, e: Entry, route: Route)
    ensures FiledCount(bag + [e], route) == FiledCount(bag, route) + (if route(e).Some? then 1 else 0)
    decreases |bag|
  {
    if bag == [] {
      assert [e][1..] == [];
    } else {
      assert (bag + [e])[0] == bag[0] && (bag + [e])[1..] == bag[1..] + [e];
      assert FiledCount(bag + [e], route) == (if route(bag[0]).Some? then 1 else 0) + FiledCount(bag[1..] + [e], route);
      FiledCountSnoc(bag[1..], e, route);
    }
  }

  /** Each group holds exactly the entries filed under it, keys and values, in bag order: nothing sorted, merged or dropped. */
  lemma {:induction false} PivotGroup(bag: seq<Entry>, route: Route, c: TypeClass)
    ensures Pivot(bag, route).Get(c) == Column(NamesFiled(bag, route, c), ValuesFiled(bag, route, c))
    decreases |bag|
  {
    if bag != [] {
      var init, e := bag[..|bag| - 1], bag[|bag| - 1];
      assert bag == init + [e];
      PivotGroup(init, route, c);
      NamesFiledSnoc(init, e, route, c);
      ValuesFiledSnoc(init, e, route, c);
    }
  }

  /** Names and values are appended in pairs, so every group stays balanced. */
  lemma {:induction false} PivotBalanced(bag: seq<Entry>, route: Route)
    ensures Pivot(bag, route).Balanced()
    decreases |bag|
  {
    if bag != [] {
      PivotBalanced(bag[..|bag| - 1], route);
    }
  }

  /** Every filed entry adds exactly one name, to exactly one group. */
  lemma {:induction false} PivotTotal(bag: seq<Entry>, route: Route)
    ensures Pivot(bag, route).TotalNames() == FiledCount(bag, route)
    decreases |bag|
  {
    if bag != [] {
      var init, e := bag[..|bag| - 1], bag[|bag| - 1];
      assert bag == init + [e];
      PivotTotal(init, route);
      FiledCountSnoc(init, e, route);
    }
  }

  /** A key is among a group's names exactly when some entry with that key is filed under the group. */
  lemma {:induction false} NamesFiledMember(bag: seq<Entry>, route: Route, c: TypeClass, k: string)
    ensures k in NamesFiled(bag, route, c) <==> exists i :: 0 <= i < |bag| && bag[i].0 == k && FiledUnder(bag[i], route, c)
    decreases |bag|
  {
    if bag != [] {
      NamesFiledMember(bag[1..], route, c, k);
      if k in NamesFiled(bag[1..], route, c) {
        var i :| 0 <= i < |bag[1..]| && bag[1..][i].0 == k && FiledUnder(bag[1..][i], route, c);
        assert bag[i + 1] == bag[1..][i];
      }
      if exists i :: 0 <= i < |bag| && bag[i].0 == k && FiledUnder(bag[i], route, c) {
        var i :| 0 <= i < |bag| && bag[i].0 == k && FiledUnder(bag[i], route, c);
        if i > 0 {
          assert bag[1..][i - 1] == bag[i];
        }
      }
    }
  }

  /** The keys of `bag` are distinct, as a dictionary's are. */
  predicate DistinctKeys(bag: seq<Entry>) {
    forall i, j :: 0 <= i < j < |bag| ==> bag[i].0 != bag[j].0
  }

  /** With distinct keys, an entry's key is in group `c` exactly when the route files that entry under `c`: one group or none. */
  lemma KeyInGroupIff(bag: seq<Entry>, route: Route, i: int, c: TypeClass)
    requires DistinctKeys(bag) && 0 <= i < |bag|
    ensures bag[i].0 in Pivot(bag, route).Get(c).names <==> FiledUnder(bag[i], route, c)
  {
    PivotGroup(bag, route, c);
    NamesFiledMember(bag, route, c, bag[i].0);
  }

  /** Two routes that agree on which group each entry goes to produce the same names in every group. */
  lemma {:induction false} NamesFiledAgree(bag: seq<Entry>, r1: Route, r2: Route, c: TypeClass)
    requires forall i :: 0 <= i < |bag| ==> (FiledUnder(bag[i], r1, c) <==> FiledUnder(bag[i], r2, c))
    ensures NamesFiled(bag, r1, c) == NamesFiled(bag, r2, c)
    decreases |bag|
  {
    if bag != [] {
      assert FiledUnder(bag[0], r1, c) <==> FiledUnder(bag[0], r2, c);
      forall i | 0 <= i < |bag[1..]|
        ensures FiledUnder(bag[1..][i], r1, c) <==> FiledUnder(bag[1..][i], r2, c)
      {
        assert bag[1..][i] == bag[i + 1];
      }
      NamesFiledAgree(bag[1..], r1, r2, c);
    }
  }

  /** If every filed value satisfies `fits` for its group, every value in every group does. */
  lemma {:induction false} PivotValuesFit(bag: seq<Entry>, route: Route, fits: (TypeClass, PyVal) -> bool, c: TypeClass)
    requires forall e :: route(e).Some? ==> fits(route(e).value.0, route(e).value.1)
    ensures forall v :: v in Pivot(bag, route).Get(c).values ==> fits(c, v)
    decreases |bag|
  {
    if bag != [] {
      PivotValuesFit(bag[..|bag| - 1], route, fits, c);
    }
  }
}
