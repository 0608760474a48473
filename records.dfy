/**
 * The inbound `CreateStatisticLogCommand`, the defaulting of its fixed
 * fields, and the record dictionary `create_log` assembles before handing
 * it to the database.  The record is a class: the flatten loop appends to
 * its ten group lists in place.
 */
module Records {
  import opened Wrappers
  import opened PyValues
  import opened Columns

  /** The command's fields; every one is optional.  `extraData` keeps the bag's insertion order. */
  datatype CreateCommand = CreateCommand(
    localTimestamp: Option<string>,
    timeZone: Option<string>,
    utcTimestamp: Option<string>,
    activityType: Option<string>,
    detail: Option<string>,
    userId: Option<string>,
    conversationId: Option<string>,
    msgId: Option<string>,
    extensionVersion: Option<string>,
    userAgent: Option<string>,
    agentName: Option<string>,
    agentVersion: Option<string>,
    currentUrl: Option<string>,
    pageTitle: Option<string>,
    pageDescription: Option<string>,
    pageKeywords: Option<seq<string>>,
    extraData: Option<seq<Entry>>)

  /** The fixed columns of a stored record, none of them null. */
  datatype Fixed = Fixed(
    localTimestamp: string,
    timeZone: string,
    utcTimestamp: string,
    userId: string,
    conversationId: string,
    msgId: string,
    activityType: string,
    detail: string,
    currentUrl: string,
    pageTitle: string,
    pageDescription: string,
    pageKeywords: seq<string>,
    userAgent: string,
    extensionVersion: string,
    agentName: string,
    agentVersion: string)

  /** `x if x else ""` for an optional text field: `None` and `""` are falsy. */
  function OrEmpty(o: Option<string>): (r: string)
    ensures r == "" <==> (o.None? || o.value == "")
    ensures r != "" ==> o == Some(r)
  {
    if o.Some? && o.value != "" then o.value else ""
  }

  /** `x if x else []` for the optional keyword list: `None` and `[]` are falsy. */
  function OrNoKeywords(o: Option<seq<string>>): (r: seq<string>)
    ensures r == [] <==> (o.None? || o.value == [])
    ensures r != [] ==> o == Some(r)
  {
    if o.Some? && o.value != [] then o.value else []
  }

  /** What `x if x else ""` promises of one field: the stored `x` is `""` exactly when the input is absent or empty, and the input otherwise. */
  predicate DefaultedFrom(x: string, o: Option<string>) {
    (x == "" <==> o.None? || o.value == "") && (x != "" ==> o == Some(x))
  }

  /** The fixed part of the record dictionary: every field is its input when that is truthy, and the empty default otherwise. */
  function Normalize(cmd: CreateCommand): (f: Fixed)
    ensures DefaultedFrom(f.localTimestamp, cmd.localTimestamp) && DefaultedFrom(f.timeZone, cmd.timeZone)
    ensures DefaultedFrom(f.utcTimestamp, cmd.utcTimestamp)
    ensures DefaultedFrom(f.userId, cmd.userId) && DefaultedFrom(f.conversationId, cmd.conversationId) && DefaultedFrom(f.msgId, cmd.msgId)
    ensures DefaultedFrom(f.activityType, cmd.activityType) && DefaultedFrom(f.detail, cmd.detail)
    ensures DefaultedFrom(f.currentUrl, cmd.currentUrl) && DefaultedFrom(f.pageTitle, cmd.pageTitle)
    ensures DefaultedFrom(f.pageDescription, cmd.pageDescription)
    ensures (f.pageKeywords == [] <==> cmd.pageKeywords.None? || cmd.pageKeywords.value == [])
    ensures f.pageKeywords != [] ==> cmd.pageKeywords == Some(f.pageKeywords)
    ensures DefaultedFrom(f.userAgent, cmd.userAgent) && DefaultedFrom(f.extensionVersion, cmd.extensionVersion)
    ensures DefaultedFrom(f.agentName, cmd.agentName) && DefaultedFrom(f.agentVersion, cmd.agentVersion)
  {
    Fixed(
      OrEmpty(cmd.localTimestamp), OrEmpty(cmd.timeZone), OrEmpty(cmd.utcTimestamp),
      OrEmpty(cmd.userId), OrEmpty(cmd.conversationId), OrEmpty(cmd.msgId),
      OrEmpty(cmd.activityType), OrEmpty(cmd.detail),
      OrEmpty(cmd.currentUrl), OrEmpty(cmd.pageTitle), OrEmpty(cmd.pageDescription),
      OrNoKeywords(cmd.pageKeywords),
      OrEmpty(cmd.userAgent), OrEmpty(cmd.extensionVersion), OrEmpty(cmd.agentName), OrEmpty(cmd.agentVersion))
  }

  /** The bag the loop walks: `extra_data`, or an empty one when that is `None` or empty. */
  function ExtraItems(cmd: CreateCommand): (bag: seq<Entry>)
    ensures cmd.extraData.None? ==> bag == []
    ensures cmd.extraData.Some? ==> bag == cmd.extraData.value
  {
    if cmd.extraData.Some? && cmd.extraData.value != [] then cmd.extraData.value else []
  }

  /** A command carrying every fixed value as given, with no extra data. */
  function AsCommand(f: Fixed): CreateCommand {
    CreateCommand(
      Some(f.localTimestamp), Some(f.timeZone), Some(f.utcTimestamp), Some(f.activityType), Some(f.detail),
      Some(f.userId), Some(f.conversationId), Some(f.msgId), Some(f.extensionVersion), Some(f.userAgent),
      Some(f.agentName), Some(f.agentVersion), Some(f.currentUrl), Some(f.pageTitle), Some(f.pageDescription),
      Some(f.pageKeywords), None)
  }

  /** A stored row as `create_log` builds it: id, fixed fields, the `_source` snapshot and the ten group lists. */
  class StatisticRecord {
    var id: string
    var source: string
    var fixed: Fixed
    var stringNames: seq<string>
    var stringValues: seq<PyVal>
    var integerNames: seq<string>
    var integerValues: seq<PyVal>
    var numberNames: seq<string>
    var numberValues: seq<PyVal>
    var boolNames: seq<string>
    var boolValues: seq<PyVal>
    var dateNames: seq<string>
    var dateValues: seq<PyVal>

    /** The ten lists read as five groups. */
    function Groups(): Columns.Groups
      reads this
    {
      Columns.Groups(
        Column(stringNames, stringValues), Column(integerNames, integerValues), Column(numberNames, numberValues),
        Column(boolNames, boolValues), Column(dateNames, dateValues))
    }

    /** The record dictionary before the loop: every group list empty. */
    constructor(id: string, source: string, fixed: Fixed)
      ensures this.id == id && this.source == source && this.fixed == fixed
      ensures Groups() == Empty
    {
      this.id := id;
      this.source := source;
      this.fixed := fixed;
      stringNames, stringValues := [], [];
      integerNames, integerValues := [], [];
      numberNames, numberValues := [], [];
      boolNames, boolValues := [], [];
      dateNames, dateValues := [], [];
    }

    /** Append `name` to group `c`'s names and `value` to its values; nothing else changes. */
    method Append(c: TypeClass, name: string, value: PyVal)
      modifies this
      ensures Groups() == old(Groups()).Append(c, name, value)
      ensures id == old(id) && source == old(source) && fixed == old(fixed)
    {
      match c
      case StringClass =>
        stringNames := stringNames + [name];
        stringValues := stringValues + [value];
      case IntegerClass =>
        integerNames := integerNames + [name];
        integerValues := integerValues + [value];
      case NumberClass =>
        numberNames := numberNames + [name];
        numberValues := numberValues + [value];
      case BoolClass =>
        boolNames := boolNames + [name];
        boolValues := boolValues + [value];
      case DateClass =>
        dateNames := dateNames + [name];
        dateValues := dateValues + [value];
    }
  }

  // ---------------------------------------------------------------- lemmas

  /** Normalizing a command built from fixed values gives those values back: nothing truthy is altered. */
  lemma NormalizeAsCommand(f: Fixed)
    ensures Normalize(AsCommand(f)) == f
  {
  }

  /** Normalizing is idempotent: defaulted fields stay as they are. */
  lemma NormalizeIdempotent(cmd: CreateCommand)
    ensures Normalize(AsCommand(Normalize(cmd))) == Normalize(cmd)
  {
    NormalizeAsCommand(Normalize(cmd));
  }

  /** Every timestamp field is `""` when absent; none is set to a clock reading. */
  lemma TimestampsDefaultToEmpty(cmd: CreateCommand)
    requires cmd.localTimestamp.None? && cmd.utcTimestamp.None? && cmd.timeZone.None?
    ensures Normalize(cmd).localTimestamp == "" && Normalize(cmd).utcTimestamp == "" && Normalize(cmd).timeZone == ""
  {
  }
}
