/** The task record, its two closed enumerations, the form draft and the
    three tasks the planner starts with (src/pages/Index.tsx). */
module Tasks {

  /** Lifecycle stage of a task: the union 'pending' | 'in_progress' | 'completed'. */
  datatype Status = Pending | InProgress | Completed

  /** Urgency tag of a task: the union 'low' | 'medium' | 'high'. */
  datatype Priority = Low | Medium | High

  /** One committed unit of work. `id` is a JavaScript number that the
      planner fills from the clock; here it is an unbounded integer. */
  datatype Task = Task(
    id: int,
    title: string,
    description: string,
    status: Status,
    priority: Priority,
    dueDate: string,
    project: string)

  /** The uncommitted form contents: a task without `id` and `status`. */
  datatype Draft = Draft(
    title: string,
    description: string,
    priority: Priority,
    project: string,
    dueDate: string)

  /** The draft the form starts from and is reset to after a commit. */
  function EmptyDraft(): (d: Draft)
    ensures d.title == [] && d.description == [] && d.project == [] && d.dueDate == []
    ensures d.priority == Medium
  {
    Draft("", "", Medium, "", "")
  }

  /** The collection the planner is mounted with. */
  function InitialTasks(): (ts: seq<Task>)
    ensures |ts| == 3
    ensures forall i :: 0 <= i < |ts| ==> ts[i].id == i + 1
  {
    [ Task(1, "Подготовить презентацию", "Создать слайды для встречи с клиентом",
           InProgress, High, "2024-12-25", "Проект Alpha"),
      Task(2, "Обновить документацию", "Добавить новые разделы API",
           Pending, Medium, "2024-12-28", "Проект Beta"),
      Task(3, "Провести код-ревью", "Проверить pull request команды",
           Completed, High, "2024-12-20", "Проект Alpha") ]
  }

  /** The identifiers occurring in a collection. */
  function Ids(ts: seq<Task>): set<int>
  {
    set i | 0 <= i < |ts| :: ts[i].id
  }

  /** No two tasks of the collection share an identifier. */
  predicate UniqueIds(ts: seq<Task>)
  {
    forall i, j :: 0 <= i < j < |ts| ==> ts[i].id != ts[j].id
  }

  lemma InitialTasksUnique()
    ensures UniqueIds(InitialTasks())
    ensures Ids(InitialTasks()) == {1, 2, 3}
  {
    var ts := InitialTasks();
    assert ts[0].id == 1 && ts[1].id == 2 && ts[2].id == 3;
    assert 1 in Ids(ts) && 2 in Ids(ts) && 3 in Ids(ts);
  }
}
