# Statistic log: pivoting `extra_data` into typed column groups

The statistic-log service stores one row per browser-extension event. Each
row has a set of fixed text columns and five typed column groups:
`string`, `integer`, `number`, `bool` and `date`. Every group is a pair of
parallel lists, `<group>_names` and `<group>_values`. The event's open-ended
`extra_data` dictionary is spread over those groups: each key goes to the
group its value's type selects, and its value, converted to that group's
native type, goes to the matching position of the values list.

Two repositories do this, and the model keeps them apart:

- `StatisticLogSQLAlchemyRepo.create_log` is the canonical path (module
  `StatisticSqlAlchemy`). It classifies a bool before an int. It skips
  `None` values and coerces each value. Coercion falls back to `str(value)`
  when a cast raises.
- `StatisticLogRepo.create_log` is the legacy path (module
  `StatisticLegacy`). It tests for a str first and for an int before a
  bool. It keeps `None` values and stores values unconverted. Its list of
  accepted group names misspells `"integer"`.

The modules:

- `Wrappers` holds `Option`.
- `PyValues` holds the Python values a bag can hold, along with `str()`,
  `bool()`, `int()` and `float()` as the code applies them. A datetime
  value (`PyDateTime`) holds only fields the `datetime` constructor accepts.
  A float is an opaque token known by its `repr()`. The interpreter's float
  casts are a `Casts` parameter.
- `Strptime` models `datetime.strptime(s, "%Y-%m-%d %H:%M:%S")`, following
  CPython's `_strptime` patterns:
  - `%Y` is exactly four digits.
  - The other fields are one or two digits within the pattern's ranges, and
    `%d` also accepts a space then a digit.
  - The space in the format matches any run of white space.
  - No text may follow the seconds.
  - The `datetime` constructor then rejects year 0, a day past the end of
    the month, and seconds 60 and 61.

  The module also models `str(datetime)` and proves that parsing it gives
  the datetime back. It proves both directions of which spellings parse:
  every spelling the pattern allows is accepted when it names a real
  datetime, and any accepted text is one of those spellings.
- `Columns` holds `Groups`, the five groups, and the loop shared by both paths: it
  walks the bag in order and lets a per-entry `Route` skip the entry or file
  it under one group. Balance, order, counts and group membership are
  proved once, for every route.
- `Records` holds the command, the defaulting of its fixed fields
  (`x if x else ""`, `x if x else []`), and `StatisticRecord`. That class
  holds the record dictionary with its ten lists, which `create_log`
  appends to in place.
- `StatisticSqlAlchemy` and `StatisticLegacy` each hold one path: its
  classifier, its loop body, and `CreateLog` as a `while` loop proved
  against `Flatten`. They also hold the lemmas about that path. The legacy
  module adds lemmas comparing the two.

## Model

| member | source | states |
|---|---|---|
| Strptime.Parse | app/statistic_log/adapter/output/persistence/sqlalchemy/statistic_sqlalchemy.py:121 | a successful parse is always a real datetime: year 1-9999, a day that exists in that month, hour, minute and second in range |
| Strptime.FormatRoundTrip | app/statistic_log/adapter/output/persistence/sqlalchemy/statistic_sqlalchemy.py:139 | parsing `str(d)` of any datetime `d` gives `d` back |
| Strptime.PatternText | app/statistic_log/adapter/output/persistence/sqlalchemy/statistic_sqlalchemy.py:121 | text laid out as `str(d)` (four-digit year, every other field two digits, in range or not), with any run of white space between date and time, parses exactly when nothing follows the seconds and the fields form a real datetime; so a month of 00 or 13-99, a day of 00 or 32-99, an hour of 24-99, a minute of 60-99 or a second of 60-99 is rejected |
| Strptime.DateTextRoundTrip | app/statistic_log/adapter/output/persistence/sqlalchemy/statistic_sqlalchemy.py:121 | the `YYYY-MM-DD` part reads back as its year, month and day, leaving the rest of the text, exactly when the month is 1-12 and the day 1-31; a two-digit month or day outside those ranges is rejected |
| Strptime.TimeTextRoundTrip | app/statistic_log/adapter/output/persistence/sqlalchemy/statistic_sqlalchemy.py:121 | the `HH:MM:SS` part reads back as its fields exactly when no text follows it and the hour is 0-23, the minute 0-59 and the second 0-61 |
| Strptime.ExampleTimestamp | app/statistic_log/adapter/output/persistence/sqlalchemy/statistic_sqlalchemy.py:121 | "2024-01-15 10:30:00" parses as that datetime |
| Strptime.ExampleTrailingText | app/statistic_log/adapter/output/persistence/sqlalchemy/statistic_sqlalchemy.py:121 | a trailing "Z" makes the text fail to parse |
| Strptime.ExampleWideGap | app/statistic_log/adapter/output/persistence/sqlalchemy/statistic_sqlalchemy.py:121 | two tabs between date and time still parse |
| Strptime.ExampleLeapDay | app/statistic_log/adapter/output/persistence/sqlalchemy/statistic_sqlalchemy.py:121 | 29 February 2024 parses |
| Strptime.ExampleNotLeapDay | app/statistic_log/adapter/output/persistence/sqlalchemy/statistic_sqlalchemy.py:121 | 29 February 2023 does not |
| Strptime.ExampleYearZero | app/statistic_log/adapter/output/persistence/sqlalchemy/statistic_sqlalchemy.py:121 | year 0000 matches the pattern but is rejected |
| Strptime.ExampleLeapSecond | app/statistic_log/adapter/output/persistence/sqlalchemy/statistic_sqlalchemy.py:121 | second 60 matches the pattern but is rejected |
| Strptime.SpelledTimestamp | app/statistic_log/adapter/output/persistence/sqlalchemy/statistic_sqlalchemy.py:121 | with month, hour, minute and second written with one or two digits, the day also as a space and a digit, and any run of white space between date and time, the text parses exactly when nothing follows the seconds and the fields form a real datetime, and then gives those fields |
| Strptime.AcceptedIsSpelled | app/statistic_log/adapter/output/persistence/sqlalchemy/statistic_sqlalchemy.py:121 | the converse of `SpelledTimestamp`: any text that parses as `d` is `d` written with some spelling of each field (a leading space only on the day) and a non-empty run of white space between date and time, with nothing after the seconds |
| Strptime.NumberFieldText | app/statistic_log/adapter/output/persistence/sqlalchemy/statistic_sqlalchemy.py:121 | `%m`, `%H`, `%M` and `%S` read a zero-padded or a bare one-digit number, and reject a space before a one-digit number |
| Strptime.DayFieldText | app/statistic_log/adapter/output/persistence/sqlalchemy/statistic_sqlalchemy.py:121 | `%d` reads a day written with two digits, one digit, or a space and one digit |
| Strptime.SpacePaddedOnlyForDay | app/statistic_log/adapter/output/persistence/sqlalchemy/statistic_sqlalchemy.py:121 | the `%m`, `%H`, `%M` and `%S` directives reject a space before a one-digit number; only `%d` reads one. In a whole timestamp a space before the hour joins the white space between date and time instead (`ExampleSpaceBeforeHour`) |
| Strptime.ExampleBareFields | app/statistic_log/adapter/output/persistence/sqlalchemy/statistic_sqlalchemy.py:121 | "2024-1-5 9:5:3" parses as 5 January 2024, 09:05:03 |
| Strptime.ExampleSpacePaddedDay | app/statistic_log/adapter/output/persistence/sqlalchemy/statistic_sqlalchemy.py:121 | "2024-01- 5 10:30:00" parses as 5 January 2024, 10:30:00 |
| Strptime.ExampleSpaceBeforeHour | app/statistic_log/adapter/output/persistence/sqlalchemy/statistic_sqlalchemy.py:121 | "2024-01-15  9:30:00" (two spaces, one-digit hour) parses as 15 January 2024, 09:30:00 |
| Strptime.ExampleHourTwentyFour | app/statistic_log/adapter/output/persistence/sqlalchemy/statistic_sqlalchemy.py:121 | "2024-01-15 24:00:00" does not parse |
| Strptime.ExampleDayThirtyTwo | app/statistic_log/adapter/output/persistence/sqlalchemy/statistic_sqlalchemy.py:121 | "2024-01-32 10:30:00" does not parse |
| Strptime.ExampleMonthThirteen | app/statistic_log/adapter/output/persistence/sqlalchemy/statistic_sqlalchemy.py:121 | "2024-13-01 00:00:00" does not parse |
| Strptime.ExampleSecondSixtyOne | app/statistic_log/adapter/output/persistence/sqlalchemy/statistic_sqlalchemy.py:121 | "2024-01-15 10:30:61" does not parse |
| Strptime.ExampleTrailingSpace | app/statistic_log/adapter/output/persistence/sqlalchemy/statistic_sqlalchemy.py:121 | "2024-01-15 10:30:00 " (a trailing space) does not parse |
| Strptime.NumericTextIsNotATimestamp | app/statistic_log/adapter/output/persistence/sqlalchemy/statistic_sqlalchemy.py:119-124 | "42" and "3.14" do not parse |
| PyValues.DecimalRoundTrip | app/statistic_log/adapter/output/persistence/sqlalchemy/statistic_sqlalchemy.py:131-132 | zero-padded decimal text reads back as its number; it is what `int(str(i)) == i` (`IntTextRoundTrip`, `IntegerConversionRoundTrip`) rests on, a conversion the loop itself never makes |
| PyValues.IntTextRoundTrip | app/statistic_log/adapter/output/persistence/sqlalchemy/statistic_sqlalchemy.py:131-132 | `int(str(i)) == i` for every int. The loop never converts a str with `int()`: `_determine_type` sends a str only to "date" or "string", so `int(value)` at line 132 sees only native ints |
| Columns.Groups.Append | app/statistic_log/adapter/output/persistence/sqlalchemy/statistic_sqlalchemy.py:62-65 | the chosen group gains the name and the value at its end; every other group is unchanged |
| Columns.ClassNameRoundTrip | app/statistic_log/adapter/output/persistence/sqlalchemy/statistic_sqlalchemy.py:20 | each group's name selects that group's `_names`/`_values` keys |
| Columns.ClassNamedInverse | app/statistic_log/adapter/output/persistence/sqlalchemy/statistic_sqlalchemy.py:62-63 | a type name that selects a group is that group's own name |
| Columns.PivotGroup | app/statistic_log/adapter/output/persistence/sqlalchemy/statistic_sqlalchemy.py:58-65 | after the loop, each group holds exactly the keys and values of the entries filed under it, in bag order |
| Columns.PivotBalanced | app/statistic_log/adapter/output/persistence/sqlalchemy/statistic_sqlalchemy.py:62-65 | names and values are appended in pairs, so `len(X_names) == len(X_values)` for every group |
| Columns.PivotTotal | app/statistic_log/adapter/output/persistence/sqlalchemy/statistic_sqlalchemy.py:58-65 | the groups together hold one name per filed entry |
| Columns.KeyInGroupIff | app/statistic_log/adapter/output/persistence/sqlalchemy/statistic_sqlalchemy.py:58-65 | with distinct keys, a key is in a group exactly when its entry is filed there, so it is in at most one group |
| Columns.NamesFiledAgree | app/statistic_log/adapter/output/persistence/sqlalchemy/statistic.py:70-74 | two loop bodies that pick the same group for every entry produce the same names |
| Columns.PivotValuesFit | app/statistic_log/adapter/output/persistence/sqlalchemy/statistic_sqlalchemy.py:63-65 | a property every filed value has holds of every value in the groups |
| Records.OrEmpty | app/statistic_log/adapter/output/persistence/sqlalchemy/statistic_sqlalchemy.py:24-44 | an optional text field becomes `""` exactly when it is `None` or `""`; otherwise it is copied |
| Records.OrNoKeywords | app/statistic_log/adapter/output/persistence/sqlalchemy/statistic_sqlalchemy.py:38 | `page_keywords` becomes `[]` exactly when it is `None` or empty; otherwise it is copied |
| Records.ExtraItems | app/statistic_log/adapter/output/persistence/sqlalchemy/statistic_sqlalchemy.py:57 | a missing `extra_data` is an empty bag; a present one is walked as given |
| Records.Normalize | app/statistic_log/adapter/output/persistence/sqlalchemy/statistic_sqlalchemy.py:24-44 | each of the fifteen optional text fields becomes `""` exactly when it is `None` or `""`, and is otherwise copied; `page_keywords` becomes `[]` exactly when it is `None` or empty, and is otherwise copied. The legacy record at statistic.py:41-57 defaults the same fields the same way |
| Records.NormalizeAsCommand | app/statistic_log/adapter/output/persistence/sqlalchemy/statistic_sqlalchemy.py:22-44 | defaulting a command built from stored values gives those values back: nothing truthy is altered |
| Records.NormalizeIdempotent | app/statistic_log/adapter/output/persistence/sqlalchemy/statistic.py:41-57 | defaulting twice is defaulting once |
| Records.TimestampsDefaultToEmpty | app/statistic_log/adapter/output/persistence/sqlalchemy/statistic_sqlalchemy.py:24-26 | absent timestamps and time zone become `""`, never a clock reading |
| Records.StatisticRecord.constructor | app/statistic_log/adapter/output/persistence/sqlalchemy/statistic_sqlalchemy.py:22-55 | the record starts with the given id, snapshot and fixed fields, and ten empty lists |
| Records.StatisticRecord.Append | app/statistic_log/adapter/output/persistence/sqlalchemy/statistic_sqlalchemy.py:62-65 | appending changes the chosen group's two lists and nothing else |
| StatisticSqlAlchemy.DetermineType | app/statistic_log/adapter/output/persistence/sqlalchemy/statistic_sqlalchemy.py:112-127 | the result is in `types_map`; it is "bool" exactly for bools, "integer" exactly for ints, "number" exactly for floats, and "date" exactly for datetimes and strings that parse as timestamps |
| StatisticSqlAlchemy.ClassifyExamples | app/statistic_log/adapter/output/persistence/sqlalchemy/statistic_sqlalchemy.py:113-127 | `True`/`False` give "bool", never "integer"; 42 gives "integer"; 3.14 gives "number"; "hello" and "42" give "string"; `None` and a list give "string" |
| StatisticSqlAlchemy.ClassifyTimestamp | app/statistic_log/adapter/output/persistence/sqlalchemy/statistic_sqlalchemy.py:119-122 | "2024-01-15 10:30:00" gives "date" |
| StatisticSqlAlchemy.ClassifyFormattedDateTime | app/statistic_log/adapter/output/persistence/sqlalchemy/statistic_sqlalchemy.py:119-126 | a datetime and its `str()` text both give "date" |
| StatisticSqlAlchemy.Coerce | app/statistic_log/adapter/output/persistence/sqlalchemy/statistic_sqlalchemy.py:130-142 | only `int()`, `float()` and `strptime` can raise: an int or a bool cast to "integer" never raises and gives its integer value, and a str cast to "date" raises exactly when it does not parse as a timestamp |
| StatisticSqlAlchemy.ConvertValueForType | app/statistic_log/adapter/output/persistence/sqlalchemy/statistic_sqlalchemy.py:129-144 | for a group name in `types_map` (for "date", a str or a datetime) the result has the group's native type or is `str(value)`; a str converted as a date is a datetime exactly when it parses and is otherwise the same text; "string" always gives `str(value)` |
| StatisticSqlAlchemy.ConvertRouted | app/statistic_log/adapter/output/persistence/sqlalchemy/statistic_sqlalchemy.py:129-144 | for the group the classifier picks, conversion never raises. The result is the cast-free `Stored(v)`, whatever the float casts do, and it has the group's native type |
| StatisticSqlAlchemy.DateFallbackKeepsText | app/statistic_log/adapter/output/persistence/sqlalchemy/statistic_sqlalchemy.py:137-144 | an unparseable string converted as a date raises inside and comes back as the same text |
| StatisticSqlAlchemy.DateConversionRoundTrip | app/statistic_log/adapter/output/persistence/sqlalchemy/statistic_sqlalchemy.py:137-140 | converting `str(d)` as a date gives `d`; a non-string is passed through |
| StatisticSqlAlchemy.IntegerConversionRoundTrip | app/statistic_log/adapter/output/persistence/sqlalchemy/statistic_sqlalchemy.py:131-132 | converting `str(i)` as an integer gives `i`; text that is not an integer literal falls back to itself. The loop never reaches this case, because `_determine_type` sends a str only to "date" or "string" |
| StatisticSqlAlchemy.CreateLog | app/statistic_log/adapter/output/persistence/sqlalchemy/statistic_sqlalchemy.py:18-65 | the record has the given id and snapshot, the defaulted fixed fields, and the groups `Flatten` gives for the bag |
| StatisticSqlAlchemy.File | app/statistic_log/adapter/output/persistence/sqlalchemy/statistic_sqlalchemy.py:59-65 | an entry is skipped exactly when its value is `None`; otherwise it is filed under the classifier's group with its stored value, which has that group's native type |
| StatisticSqlAlchemy.Flatten | app/statistic_log/adapter/output/persistence/sqlalchemy/statistic_sqlalchemy.py:57-65 | every group has as many values as names, and the groups together hold one name per non-`None` entry |
| StatisticSqlAlchemy.FlattenGroup | app/statistic_log/adapter/output/persistence/sqlalchemy/statistic_sqlalchemy.py:57-65 | each group is the bag's non-`None` entries of that class, in bag order, with their stored values; nothing is sorted or deduplicated |
| StatisticSqlAlchemy.FlattenKeyGroup | app/statistic_log/adapter/output/persistence/sqlalchemy/statistic_sqlalchemy.py:58-65 | with distinct keys, a key is in group `c` exactly when its value is not `None` and is classified `c`, so each kept key is in exactly one group |
| StatisticSqlAlchemy.FlattenNative | app/statistic_log/adapter/output/persistence/sqlalchemy/statistic_sqlalchemy.py:60-65 | every stored value has its group's native type |
| StatisticSqlAlchemy.FlattenAllNone | app/statistic_log/adapter/output/persistence/sqlalchemy/statistic_sqlalchemy.py:57-59 | a bag of `None` values leaves all ten lists empty |
| StatisticSqlAlchemy.NullSkippedExample | app/statistic_log/adapter/output/persistence/sqlalchemy/statistic_sqlalchemy.py:58-65 | `{"a": None, "b": 1}` files only "b", under integer |
| StatisticSqlAlchemy.EndToEndExample | app/statistic_log/adapter/output/persistence/sqlalchemy/statistic_sqlalchemy.py:57-65 | a bag with one int, float, bool, timestamp string and plain string fills each group with one native value |
| StatisticLegacy.DetermineType | app/statistic_log/adapter/output/persistence/sqlalchemy/statistic.py:16-27 | the result always names a group of the record |
| StatisticLegacy.IsValidDateTimeFormat | app/statistic_log/adapter/output/persistence/sqlalchemy/statistic.py:9-14 | true exactly when `strptime` accepts the text; text that passes parses as a real datetime, and formatting that datetime and parsing it again gives the same result |
| StatisticLegacy.ValidFormatOfDateTime | app/statistic_log/adapter/output/persistence/sqlalchemy/statistic.py:9-14 | `str(d)` of every datetime passes the format test, and text that passes reads as a real datetime |
| StatisticLegacy.StringsTestedFirst | app/statistic_log/adapter/output/persistence/sqlalchemy/statistic.py:17-20 | a string is "date" exactly when it passes the format test, and "string" otherwise, as on the canonical path |
| StatisticLegacy.BoolIsInteger | app/statistic_log/adapter/output/persistence/sqlalchemy/statistic.py:21-22 | a bool is classified "integer" (the canonical path says "bool") |
| StatisticLegacy.BoolBranchUnreachable | app/statistic_log/adapter/output/persistence/sqlalchemy/statistic.py:25-26 | no value is ever classified "bool" |
| StatisticLegacy.FallbackIsString | app/statistic_log/adapter/output/persistence/sqlalchemy/statistic.py:27 | `None`, a datetime, a list and a dict are classified "string" |
| StatisticLegacy.ClassifiersAgreeIff | app/statistic_log/adapter/output/persistence/sqlalchemy/statistic.py:16-27 | the two classifiers agree exactly on values that are neither a bool nor a datetime |
| StatisticLegacy.IntegerNameRejected | app/statistic_log/adapter/output/persistence/sqlalchemy/statistic.py:33 | "interger" selects no group and "integer" is not accepted |
| StatisticLegacy.CreateLog | app/statistic_log/adapter/output/persistence/sqlalchemy/statistic.py:31-74 | the record has the given id and snapshot, the defaulted fixed fields, and the groups the legacy `Flatten` gives for the bag |
| StatisticLegacy.File | app/statistic_log/adapter/output/persistence/sqlalchemy/statistic.py:71-74 | an entry is dropped exactly when its value is an int or a bool (classified "integer", which the misspelled `types_map` lacks); otherwise it is filed unconverted under a group that is neither integer nor bool, and a `None` value is filed under string |
| StatisticLegacy.Flatten | app/statistic_log/adapter/output/persistence/sqlalchemy/statistic.py:69-74 | every group has as many values as names, and the groups together hold one name per entry that is neither an int nor a bool, `None` included |
| StatisticLegacy.FlattenGroup | app/statistic_log/adapter/output/persistence/sqlalchemy/statistic.py:69-74 | each group holds the keys and the unconverted values of the entries classified under it, in bag order; the integer group holds none |
| StatisticLegacy.IntegerAndBoolGroupsEmpty | app/statistic_log/adapter/output/persistence/sqlalchemy/statistic.py:33 | the integer and bool groups are always empty |
| StatisticLegacy.NoneFiledAsString | app/statistic_log/adapter/output/persistence/sqlalchemy/statistic.py:70-74 | with distinct keys, a `None`-valued key is in the string group, while the canonical path puts it in no group |
| StatisticLegacy.DatesStayText | app/statistic_log/adapter/output/persistence/sqlalchemy/statistic.py:74 | legacy date values are the timestamp strings as given, while canonical date values are datetimes |
| StatisticLegacy.SameNamesWithoutIntsBoolsDates | app/statistic_log/adapter/output/persistence/sqlalchemy/statistic.py:70-74 | on a bag of strings, floats, lists and dicts, both paths file the same keys in the same order in every group |
| StatisticLegacy.MisspelledIntegerExample | app/statistic_log/adapter/output/persistence/sqlalchemy/statistic.py:33 | `{"n": 5, "ok": True}` leaves every legacy group empty, while the canonical path files "n" under integer and "ok" under bool |

## Left out

- The insert itself is left out. That covers `session.execute(...)`, `session.close()` and `clickhouse_manager.insert_one`, and the wrapping of their errors into `HTTPException(500)` or `Exception`. `CreateLog` returns the record that would be inserted.
- `id` (`str(uuid.uuid4())`) and `_source` (`json.dumps(data.to_dict())`) are parameters of `CreateLog`. So the `TypeError` that `json.dumps` raises when a bag value is a `datetime` is not modelled. A bag read from a JSON request cannot hold one.
- `logging.info` is a side effect only.
- `find_by_user_id` and `count_by_user_id` are query plumbing.
- `_safe_get_string`, `_safe_get_datetime` and `_safe_get_array` are never called by `create_log`. `_safe_get_datetime` also reads the clock.
- Float values are opaque tokens known by their `repr()`. The interpreter's `int(float)`, `float(int)` and `float(str)` are the `Casts` parameter, and the routed conversion never consults them.
- `Strptime.Parse` accepts ASCII digits only. Python's regular expressions also accept other Unicode decimal digits. Locale-dependent behaviour, microseconds and time zones do not arise with this format and are not modelled.
- `PyValues.IntOfText` accepts ASCII digits only. It does not model the interpreter's limit on the number of digits that `int()` and `str()` convert. The loop only converts native ints this way.
- `PyValues.Truthy` judges a list or dict by its `repr()` text ("[]" or "{}"). A float is falsy when its `repr()` is "0.0" or "-0.0".
- Keys are `str`, so `str(key)` is the key itself. A bag is a sequence of pairs; the lemmas that need a dictionary's distinct keys require `DistinctKeys`.
- Absent timestamps are defaulted to `""` at `statistic_sqlalchemy.py:24-26` and `statistic.py:41-43`, not left unset; the model follows the code.

## Findings

| source | as written | input that shows it | evidently intended | confidence | as-written member | corrected member |
|---|---|---|---|---|---|---|
| app/statistic_log/adapter/output/persistence/sqlalchemy/statistic.py:33 | `types_map` spells "interger", so every value classified "integer" is dropped | `extra_data = {"n": 5, "ok": True}` | "n" in `integer_names` | high; not executed | StatisticLegacy.MisspelledIntegerExample | StatisticSqlAlchemy.FlattenKeyGroup |
| app/statistic_log/adapter/output/persistence/sqlalchemy/statistic.py:21-26 | the int test comes before the bool test, and a bool is an int, so the bool branch is dead | `extra_data = {"ok": True}` | "ok" in `bool_names` | high; not executed | StatisticLegacy.BoolBranchUnreachable | StatisticSqlAlchemy.DetermineType |
