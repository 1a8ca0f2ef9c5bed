/** The task record and the four fixed board columns. */
module Tasks {

  import opened Wrappers

  /** The workflow stage of a task; one constructor per board column. */
  datatype Status = Backlog | Todo | InProgress | Done

  /** A task card. `id` and `created` are opaque strings supplied when the
      task is created (a millisecond clock reading and an ISO-8601 time
      stamp in the application). Nothing makes ids unique. */
  datatype Task = Task(
    id: string,
    title: string,
    description: string,
    status: Status,
    created: string)

  /** The columns in the order the board renders them, left to right. */
  const BoardColumns: seq<Status> := [Backlog, Todo, InProgress, Done]

  /** The column id, which is also the value a task's `status` holds. The
      id names its status back, so no two columns share an id. */
  function ColumnId(s: Status): (r: string)
    ensures StatusOfId(r) == Some(s)
  {
    match s
    case Backlog => "backlog"
    case Todo => "todo"
    case InProgress => "inprogress"
    case Done => "done"
  }

  /** The status a column id names, if any. */
  function StatusOfId(id: string): Option<Status>
  {
    if id == "backlog" then Some(Backlog)
    else if id == "todo" then Some(Todo)
    else if id == "inprogress" then Some(InProgress)
    else if id == "done" then Some(Done)
    else None
  }

  /** Every status has exactly one column. */
  lemma ColumnsAreComplete(s: Status)
    ensures s in BoardColumns
    ensures forall i, j :: 0 <= i < j < |BoardColumns| ==> BoardColumns[i] != BoardColumns[j]
  {
  }
}
