/** The state of the planner page (src/pages/Index.tsx): the ordered task
    list and the form draft, and the two transitions that replace them. */
module Planner {
  import opened Tasks
  import opened Text
  import opened Stats
  import opened TaskView

  /** The guard of `addTask`: `newTask.title.trim()` is a non-empty string,
      which holds exactly when the title has a character that is not
      whitespace. */
  predicate HasTitle(d: Draft)
    ensures HasTitle(d) <==> exists i :: 0 <= i < |d.title| && !IsWhitespace(d.title[i])
  {
    TrimEmptyIff(d.title);
    Trim(d.title) != []
  }

  /** The draft fields of a task: everything except `id` and `status`. */
  function DraftOf(t: Task): Draft
  {
    Draft(t.title, t.description, t.priority, t.project, t.dueDate)
  }

  /** The task `addTask` builds from the draft and the clock reading `id`. */
  function NewTask(d: Draft, id: int): (t: Task)
    ensures t.id == id && t.status == Pending
    ensures DraftOf(t) == d
  {
    Task(id, d.title, d.description, Pending, d.priority, d.dueDate, d.project)
  }

  /** `tasks.map(task => task.id === id ? { ...task, status } : task)`. */
  function WithStatus(ts: seq<Task>, id: int, s: Status): (r: seq<Task>)
    ensures |r| == |ts|
    ensures forall k :: 0 <= k < |ts| && ts[k].id != id ==> r[k] == ts[k]
    ensures forall k :: 0 <= k < |ts| && ts[k].id == id ==> r[k] == ts[k].(status := s)
  {
    if ts == [] then []
    else [if ts[0].id == id then ts[0].(status := s) else ts[0]] + WithStatus(ts[1..], id, s)
  }

  /** `tasks.slice(0, 3)`: the dashboard's recent tasks. */
  function RecentTasks(ts: seq<Task>): (r: seq<Task>)
    ensures |r| == if |ts| < 3 then |ts| else 3
    ensures r == ts[..|r|]
  {
    if |ts| <= 3 then ts else ts[..3]
  }

  /** The page component's state. */
  class Planner {
    var tasks: seq<Task>
    var draft: Draft

    /** The page mounts with the three initial tasks and an empty draft. */
    constructor ()
      ensures tasks == InitialTasks() && draft == EmptyDraft()
      ensures UniqueIds(tasks)
    {
      tasks := InitialTasks();
      draft := EmptyDraft();
      InitialTasksUnique();
    }

    /** `setNewTask` as the form calls it: the draft is replaced, the tasks
        are untouched. */
    method SetDraft(d: Draft)
      modifies this
      ensures draft == d && tasks == old(tasks)
    {
      draft := d;
    }

    /** `addTask`, with the reading of `Date.now()` passed in as `now`. A
        blank title leaves the whole state alone; otherwise one pending task
        copied from the draft is appended and the draft is reset. */
    method AddTask(now: int)
      modifies this
      ensures !HasTitle(old(draft)) ==> tasks == old(tasks) && draft == old(draft)
      ensures HasTitle(old(draft)) ==> tasks == old(tasks) + [NewTask(old(draft), now)]
      ensures HasTitle(old(draft)) ==> draft == EmptyDraft()
      ensures UniqueIds(old(tasks)) && now !in Ids(old(tasks)) ==> UniqueIds(tasks)
    {
      if Trim(draft.title) != [] {
        var task := Task(now, draft.title, draft.description, Pending,
                         draft.priority, draft.dueDate, draft.project);
        assert UniqueIds(tasks) && now !in Ids(tasks) ==> UniqueIds(tasks + [task]) by {
          if UniqueIds(tasks) && now !in Ids(tasks) {
            AppendFreshKeepsUnique(tasks, draft, now);
          }
        }
        tasks := tasks + [task];
        draft := Draft("", "", Medium, "", "");
      }
    }

    /** `updateTaskStatus`: every task with the given id gets the new status;
        the draft is untouched. */
    method UpdateTaskStatus(id: int, status: Status)
      modifies this
      ensures tasks == WithStatus(old(tasks), id, status) && draft == old(draft)
      ensures Ids(tasks) == Ids(old(tasks))
      ensures UniqueIds(old(tasks)) ==> UniqueIds(tasks)
    {
      WithStatusKeepsIds(tasks, id, status);
      tasks := WithStatus(tasks, id, status);
    }

    /** The toggle button of a task card: `updateTaskStatus(task.id, …)` with
        the target the card computed. */
    method ToggleTask(t: Task)
      modifies this
      ensures tasks == WithStatus(old(tasks), t.id, ToggleTarget(t.status)) && draft == old(draft)
    {
      UpdateTaskStatus(t.id, ToggleTarget(t.status));
    }
  }

  /** A committed draft grows the list by exactly one task at the end, and the
      list before it is untouched. */
  lemma AppendGrowsByOne(ts: seq<Task>, d: Draft, id: int)
    ensures |ts + [NewTask(d, id)]| == |ts| + 1
    ensures (ts + [NewTask(d, id)])[..|ts|] == ts
    ensures DraftOf((ts + [NewTask(d, id)])[|ts|]) == d
  {
  }

  /** An id that is not yet in use keeps the ids unique after the append. */
  lemma AppendFreshKeepsUnique(ts: seq<Task>, d: Draft, id: int)
    requires UniqueIds(ts) && id !in Ids(ts)
    ensures UniqueIds(ts + [NewTask(d, id)])
    ensures Ids(ts + [NewTask(d, id)]) == Ids(ts) + {id}
  {
    var r := ts + [NewTask(d, id)];
    forall i, j | 0 <= i < j < |r| ensures r[i].id != r[j].id {
      if j == |ts| {
        assert ts[i].id in Ids(ts);
      }
    }
    forall x | x in Ids(ts) + {id} ensures x in Ids(r) {
      if x == id {
        assert r[|ts|].id == id;
      } else {
        var i :| 0 <= i < |ts| && ts[i].id == x;
        assert r[i].id == x;
      }
    }
  }

  /** A committed draft adds one to the pending count and leaves the other
      counts alone. */
  lemma AppendCounts(ts: seq<Task>, d: Draft, id: int)
    ensures CountStatus(ts + [NewTask(d, id)], Pending) == CountStatus(ts, Pending) + 1
    ensures CountStatus(ts + [NewTask(d, id)], InProgress) == CountStatus(ts, InProgress)
    ensures CountStatus(ts + [NewTask(d, id)], Completed) == CountStatus(ts, Completed)
  {
    var t := NewTask(d, id);
    CountAppend(ts, [t], Pending);
    CountAppend(ts, [t], InProgress);
    CountAppend(ts, [t], Completed);
  }

  /** A committed draft appends exactly its own card to the task list view. */
  lemma AppendCards(ts: seq<Task>, d: Draft, id: int)
    ensures Cards(ts + [NewTask(d, id)]) == Cards(ts) + [CardOf(NewTask(d, id))]
  {
  }

  /** An id that names no task leaves the list exactly as it was. */
  lemma WithStatusAbsent(ts: seq<Task>, id: int, s: Status)
    requires id !in Ids(ts)
    ensures WithStatus(ts, id, s) == ts
  {
  }

  /** Setting the same status twice is the same as setting it once. */
  lemma WithStatusIdempotent(ts: seq<Task>, id: int, s: Status)
    ensures WithStatus(WithStatus(ts, id, s), id, s) == WithStatus(ts, id, s)
  {
  }

  /** The update never changes an id, so the id set and uniqueness survive. */
  lemma WithStatusKeepsIds(ts: seq<Task>, id: int, s: Status)
    ensures forall k :: 0 <= k < |ts| ==> WithStatus(ts, id, s)[k].id == ts[k].id
    ensures Ids(WithStatus(ts, id, s)) == Ids(ts)
    ensures UniqueIds(ts) ==> UniqueIds(WithStatus(ts, id, s))
  {
  }

  /** With unique ids, the update of the task at index `i` moves exactly one
      task from its old status's count to the new status's count. */
  lemma WithStatusCounts(ts: seq<Task>, i: nat, s: Status, x: Status)
    requires UniqueIds(ts) && i < |ts|
    ensures CountStatus(WithStatus(ts, ts[i].id, s), x)
         == CountStatus(ts, x) - (if ts[i].status == x then 1 else 0) + (if s == x then 1 else 0)
  {
    var r := WithStatus(ts, ts[i].id, s);
    var t := ts[i].(status := s);
    assert ts == ts[..i] + [ts[i]] + ts[i + 1..];
    assert r == ts[..i] + [t] + ts[i + 1..];
    CountAppend(ts[..i] + [ts[i]], ts[i + 1..], x);
    CountAppend(ts[..i], [ts[i]], x);
    CountAppend(ts[..i] + [t], ts[i + 1..], x);
    CountAppend(ts[..i], [t], x);
  }

  /** With unique ids, the toggle button of the task at index `i` flips
      whether it is completed and changes no other task. */
  lemma ToggleFlipsCompletion(ts: seq<Task>, i: nat)
    requires UniqueIds(ts) && i < |ts|
    ensures var r := WithStatus(ts, ts[i].id, ToggleTarget(ts[i].status));
      && (r[i].status == Completed <==> ts[i].status != Completed)
      && forall k :: 0 <= k < |ts| && k != i ==> r[k] == ts[k]
  {
  }

  /** The dashboard rows are the first cards (at most three) of the task list
      view. */
  lemma RecentCardsArePrefix(ts: seq<Task>)
    ensures Cards(RecentTasks(ts)) == Cards(ts)[..|RecentTasks(ts)|]
  {
  }

  /** The worked example of the statistics: completing the pending task 2 of
      the initial list leaves two completed, one in progress, none pending. */
  lemma CompleteSecondInitialTask()
    ensures ComputeStats(WithStatus(InitialTasks(), 2, Completed)).completed == 2
    ensures ComputeStats(WithStatus(InitialTasks(), 2, Completed)).inProgress == 1
    ensures ComputeStats(WithStatus(InitialTasks(), 2, Completed)).pending == 0
    ensures ComputeStats(WithStatus(InitialTasks(), 2, Completed)).total == 3
  {
  }
}
