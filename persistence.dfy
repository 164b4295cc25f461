/**
 * What the board keeps in `localStorage` (src/components/BoardArea.tsx): the
 * task list under `tasks`, the status filter under `statusFilter` and the
 * board title under `boardTitle`. Storage is a map from keys to strings; JSON
 * is a codec whose decoder reads back what its encoder wrote, and whose
 * decoder otherwise reports a parse error, a parsed non-array, or an array.
 */
module Persistence {
  import opened Wrappers
  import opened TaskTypes
  import opened TaskHeader

  type Storage = map<string, string>

  const TasksKey: string := "tasks"
  const StatusFilterKey: string := "statusFilter"
  const BoardTitleKey: string := "boardTitle"

  /** The outcome of `JSON.parse` as the loader inspects it. */
  datatype Parsed = ParseError | NotAnArray | JsonArray(items: seq<Task>)

  datatype Codec = Codec(encode: seq<Task> -> string, decode: string -> Parsed)

  /** `JSON.parse(JSON.stringify(tasks))` gives the tasks back, and the text is never empty. */
  ghost predicate Faithful(codec: Codec)
  {
    forall tasks :: codec.encode(tasks) != "" && codec.decode(codec.encode(tasks)) == JsonArray(tasks)
  }

  /**
   * The save effect: a non-empty list is written under `tasks`, an empty one
   * removes the key. No other key is touched.
   */
  function SaveTasks(st: Storage, codec: Codec, tasks: seq<Task>): (r: Storage)
    ensures forall k :: k != TasksKey ==> (k in r <==> k in st) && (k in r ==> r[k] == st[k])
    ensures TasksKey in r <==> |tasks| > 0
    ensures TasksKey in r ==> r[TasksKey] == codec.encode(tasks)
  {
    if |tasks| > 0 then st[TasksKey := codec.encode(tasks)] else st - {TasksKey}
  }

  /** The stored text under `tasks` when `if (savedTasks)` lets it through: present and non-empty. */
  function SavedText(st: Storage, key: string): Option<string>
  {
    if key in st && st[key] != "" then Some(st[key]) else None
  }

  /** The load effect's result: the list it adopts, if any, and the storage afterwards. */
  datatype TasksLoad = TasksLoad(adopted: Option<seq<Task>>, storage: Storage)

  /**
   * The load effect: only a non-empty array is adopted; only a parse failure
   * removes the key. A parsable non-array or an empty array is ignored and
   * left in storage.
   */
  function LoadTasks(st: Storage, codec: Codec): (r: TasksLoad)
    ensures r.adopted.Some? <==>
              (SavedText(st, TasksKey).Some? &&
               codec.decode(st[TasksKey]).JsonArray? && |codec.decode(st[TasksKey]).items| > 0)
    ensures r.adopted.Some? ==> r.adopted.value == codec.decode(st[TasksKey]).items
    ensures r.storage == if SavedText(st, TasksKey).Some? && codec.decode(st[TasksKey]).ParseError?
                         then st - {TasksKey} else st
  {
    match SavedText(st, TasksKey)
    case None => TasksLoad(None, st)
    case Some(text) =>
      match codec.decode(text)
      case ParseError => TasksLoad(None, st - {TasksKey})
      case NotAnArray => TasksLoad(None, st)
      case JsonArray(items) => TasksLoad(if |items| > 0 then Some(items) else None, st)
  }

  /** The stored filter is adopted only when it is one of the three filter names. */
  function LoadStatusFilter(st: Storage): (r: Option<StatusFilter>)
    ensures r.Some? <==> StatusFilterKey in st && st[StatusFilterKey] in {"all", "pending", "completed"}
    ensures r.Some? ==> FilterName(r.value) == st[StatusFilterKey]
  {
    match SavedText(st, StatusFilterKey)
    case None => None
    case Some(text) => ParseFilter(text)
  }

  /** `localStorage.setItem('statusFilter', filter)`. */
  function SaveStatusFilter(st: Storage, filter: StatusFilter): (r: Storage)
    ensures r.Keys == st.Keys + {StatusFilterKey}
    ensures r[StatusFilterKey] == FilterName(filter)
    ensures forall k :: k in st && k != StatusFilterKey ==> r[k] == st[k]
  {
    st[StatusFilterKey := FilterName(filter)]
  }

  /** The initial board title: the stored one, unless it is absent or empty. */
  function InitialBoardTitle(st: Storage): (r: string)
    ensures r != ""
    ensures r == (if BoardTitleKey in st && st[BoardTitleKey] != "" then st[BoardTitleKey] else DefaultTitle)
  {
    match SavedText(st, BoardTitleKey)
    case None => DefaultTitle
    case Some(text) => text
  }

  /** `localStorage.setItem('boardTitle', newTitle)`. */
  function SaveBoardTitle(st: Storage, title: string): (r: Storage)
    ensures r.Keys == st.Keys + {BoardTitleKey}
    ensures r[BoardTitleKey] == title
    ensures forall k :: k in st && k != BoardTitleKey ==> r[k] == st[k]
  {
    st[BoardTitleKey := title]
  }

  /**
   * Round trip: loading what a save wrote gives the same list back, field for
   * field and in order, and leaves storage as it was; an empty list reads back
   * as nothing adopted, which is the empty default.
   */
  lemma TasksRoundTrip(st: Storage, codec: Codec, tasks: seq<Task>)
    requires Faithful(codec)
    ensures var saved := SaveTasks(st, codec, tasks);
            LoadTasks(saved, codec) == TasksLoad(if |tasks| > 0 then Some(tasks) else None, saved)
  {
    var saved := SaveTasks(st, codec, tasks);
    if |tasks| > 0 {
      assert codec.decode(codec.encode(tasks)) == JsonArray(tasks);
    }
  }

  /** Corrupt data is discarded: text that does not parse adopts nothing and clears the key. */
  lemma CorruptTasksCleared(st: Storage, codec: Codec)
    requires TasksKey in st && st[TasksKey] != "" && codec.decode(st[TasksKey]) == ParseError
    ensures LoadTasks(st, codec).adopted == None
    ensures TasksKey !in LoadTasks(st, codec).storage
  {
  }

  /** A saved filter loads back as itself. */
  lemma StatusFilterRoundTrip(st: Storage, filter: StatusFilter)
    ensures LoadStatusFilter(SaveStatusFilter(st, filter)) == Some(filter)
  {
    FilterNameRoundTrip(filter);
  }

  /** A saved title loads back as itself, except that an empty one loads back as the default. */
  lemma BoardTitleRoundTrip(st: Storage, title: string)
    ensures InitialBoardTitle(SaveBoardTitle(st, title)) == if title == "" then DefaultTitle else title
  {
  }
}
