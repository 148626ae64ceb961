/**
 * One line of a session log, reduced to the fields the team-protect core reads.
 *
 * A log line is a JSON object.  The core only ever asks whether a key is
 * present, whether its value is a string, and whether the value is truthy in
 * Python's sense, so a JSON value is kept as one of four shapes.
 */
module Session {

  datatype Option<T> = None | Some(value: T)

  /** A JSON value as the core sees it: a missing key, JSON null, a string, or
      any other value (number, boolean, list, object) with its Python truthiness;
      `false` is `Other(false)`. */
  datatype Value = Absent | Null | Str(s: string) | Other(truthy: bool)

  /** Python truthiness of `obj.get(key)`. */
  predicate Truthy(v: Value) {
    match v
    case Absent => false
    case Null => false
    case Str(s) => s != ""
    case Other(t) => t
  }

  /** `obj.get(key)`: a missing key reads as None, which is serialised as null. */
  function Present(v: Value): (r: Value)
    ensures r != Absent
    ensures v != Absent ==> r == v
  {
    if v.Absent? then Null else v
  }

  /** `obj.get(key, default)` for a default string. */
  function OrString(v: Value, default: string): (r: Value)
    ensures v.Absent? ==> r == Str(default)
    ensures !v.Absent? ==> r == v
  {
    if v.Absent? then Str(default) else v
  }

  /** `d.get(key, default)` on an object whose values are strings. */
  function Lookup(d: map<string, string>, key: string, default: string): string {
    if key in d then d[key] else default
  }

  /** The `input` object of a tool invocation: its string-valued keys, and its
      `teammates` list of teammate descriptors (empty when the key is missing). */
  datatype ToolInput = ToolInput(fields: map<string, string>, teammates: seq<map<string, string>>)

  const NoInput := ToolInput(map[], [])

  /** An element of a `content` list.  `Obj` is a JSON object whose `type`,
      `name`, `input`, `content` and `text` keys are kept; anything else in the
      list is `NonObject`. */
  datatype Block =
    | NonObject
    | Obj(kind: Value, name: Value, input: ToolInput, content: Value, text: Value)

  /** `message.content`: a list of blocks, a plain string, or some other value.
      A missing `message` or `content` key reads as the empty list. */
  datatype Content = Blocks(blocks: seq<Block>) | Text(text: string) | OtherContent

  /** The keys of a log line that the core reads or writes: the top-level keys,
      and `message.role` and `message.content`. */
  datatype Entry = Entry(
    kind: Value,
    uuid: Value,
    parentUuid: Value,
    sessionId: Value,
    cwd: Value,
    gitBranch: Value,
    timestamp: Value,
    isSidechain: Value,
    userType: Value,
    role: Value,
    content: Content)

  /** The `(line index, entry, byte size)` triple the log store hands out. */
  datatype Message = Message(index: int, entry: Entry, size: nat)

  /** Non-decreasing line indices: the order the merge step establishes. */
  ghost predicate SortedByIndex(ms: seq<Message>) {
    forall i, j :: 0 <= i < j < |ms| ==> ms[i].index <= ms[j].index
  }
}
