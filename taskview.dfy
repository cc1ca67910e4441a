/** The pure helpers of the task list (src/components/TaskList.tsx) and the
    dashboard's recent-tasks rows: colour classes, labels, the toggle rule
    and the card rendered for each task. The identical colour helpers in
    src/pages/Index.tsx are the same functions. */
module TaskView {
  import opened Tasks

  /** The status a task's button asks for: a completed task is reopened,
      any other task is completed. */
  function ToggleTarget(s: Status): (r: Status)
    ensures r != InProgress
    ensures r == Pending <==> s == Completed
    ensures r == Completed <==> s != Completed
  {
    if s == Completed then Pending else Completed
  }

  /** Toggling twice restores a pending or completed status; an in-progress
      task comes back as pending, not in progress. */
  lemma ToggleTwice(s: Status)
    ensures s != InProgress ==> ToggleTarget(ToggleTarget(s)) == s
    ensures s == InProgress ==> ToggleTarget(ToggleTarget(s)) == Pending
  {
  }

  const UndoLabel: string := "Отменить"
  const CompleteLabel: string := "Завершить"

  /** The caption of the toggle button. */
  function ToggleLabel(s: Status): (r: string)
    ensures r == UndoLabel <==> s == Completed
    ensures r == CompleteLabel <==> s != Completed
  {
    if s == Completed then UndoLabel else CompleteLabel
  }

  /** The colour class of the status dot: green when completed, blue when in
      progress, gray otherwise. */
  function StatusColor(s: Status): (r: string)
    ensures r == "bg-green-500" <==> s == Completed
    ensures r == "bg-blue-500" <==> s == InProgress
    ensures r == "bg-gray-400" <==> s == Pending
  {
    match s
    case Completed => "bg-green-500"
    case InProgress => "bg-blue-500"
    case _ => "bg-gray-400"
  }

  /** The colour classes of the priority badge: red for high, yellow for
      medium, green otherwise. */
  function PriorityColor(p: Priority): (r: string)
    ensures r == "bg-red-100 text-red-700" <==> p == High
    ensures r == "bg-yellow-100 text-yellow-700" <==> p == Medium
    ensures r == "bg-green-100 text-green-700" <==> p == Low
  {
    match p
    case High => "bg-red-100 text-red-700"
    case Medium => "bg-yellow-100 text-yellow-700"
    case _ => "bg-green-100 text-green-700"
  }

  /** The text of the priority badge. */
  function PriorityLabel(p: Priority): (r: string)
    ensures r == "Высокий" <==> p == High
    ensures r == "Средний" <==> p == Medium
    ensures r == "Низкий" <==> p == Low
  {
    match p
    case High => "Высокий"
    case Medium => "Средний"
    case _ => "Низкий"
  }

  /** What one rendered task card shows, and the status its button sends to
      `updateTaskStatus` together with the card's `key` (the task id). */
  datatype Card = Card(
    key: int,
    title: string,
    priorityLabel: string,
    priorityColor: string,
    description: string,
    project: string,
    dueDate: string,
    statusColor: string,
    buttonLabel: string,
    buttonTarget: Status)

  /** The card of one task. */
  function CardOf(t: Task): (c: Card)
    ensures c.key == t.id && c.title == t.title && c.description == t.description
    ensures c.project == t.project && c.dueDate == t.dueDate
    ensures c.buttonTarget == ToggleTarget(t.status) && c.buttonLabel == ToggleLabel(t.status)
    ensures c.priorityLabel == PriorityLabel(t.priority) && c.priorityColor == PriorityColor(t.priority)
    ensures c.statusColor == StatusColor(t.status)
  {
    Card(t.id, t.title, PriorityLabel(t.priority), PriorityColor(t.priority),
         t.description, t.project, t.dueDate, StatusColor(t.status),
         ToggleLabel(t.status), ToggleTarget(t.status))
  }

  /** `tasks.map(task => <Card …/>)`: one card per task, in list order. */
  function Cards(ts: seq<Task>): (r: seq<Card>)
    ensures |r| == |ts|
    ensures forall k :: 0 <= k < |ts| ==> r[k] == CardOf(ts[k])
  {
    if ts == [] then [] else [CardOf(ts[0])] + Cards(ts[1..])
  }

  /** Cards of a concatenation are the concatenated cards: appending a task
      appends exactly its card. */
  lemma CardsAppend(a: seq<Task>, b: seq<Task>)
    ensures Cards(a + b) == Cards(a) + Cards(b)
  {
  }

  /** Distinct priorities get distinct badges, so the badge identifies the
      priority. */
  lemma PriorityBadgeInjective(p: Priority, q: Priority)
    ensures PriorityLabel(p) == PriorityLabel(q) ==> p == q
    ensures PriorityColor(p) == PriorityColor(q) ==> p == q
  {
  }
}
