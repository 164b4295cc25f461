/**
 * The task record and its three closed enumerations (src/types/task.ts).
 * Every field of a task is mandatory; the enumerations are closed, so a
 * value of these types can only ever hold one of the listed variants.
 */
module TaskTypes {
  import opened Wrappers

  datatype Status = Pending | Completed
  datatype Category = Work | Personal | Other
  datatype Priority = High | Medium | Low

  /** `createdAt` is kept as the millisecond timestamp that `new Date(createdAt).getTime()` yields. */
  datatype Task = Task(
    id: string,
    title: string,
    description: string,
    dueDate: string,
    priority: Priority,
    category: Category,
    status: Status,
    createdAt: int)

  /** The string literal each status carries in the source. */
  function StatusName(s: Status): (name: string)
    ensures name == "pending" || name == "completed"
  {
    match s
    case Pending => "pending"
    case Completed => "completed"
  }

  function CategoryName(c: Category): (name: string)
    ensures name in {"Work", "Personal", "Other"}
  {
    match c
    case Work => "Work"
    case Personal => "Personal"
    case Other => "Other"
  }

  /** Reading a string back as a category: exactly the three literal names are accepted. */
  function ParseCategory(s: string): (r: Option<Category>)
    ensures r.Some? ==> CategoryName(r.value) == s
    ensures r.None? ==> s !in {"Work", "Personal", "Other"}
  {
    if s == "Work" then Some(Work)
    else if s == "Personal" then Some(Personal)
    else if s == "Other" then Some(Other)
    else None
  }

  /** Category names are a bijection between the enumeration and the three literals. */
  lemma {:induction false} CategoryRoundTrip(c: Category)
    ensures ParseCategory(CategoryName(c)) == Some(c)
  {
    match c
    case Work =>
    case Personal =>
    case Other =>
  }
}
