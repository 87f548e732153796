/** The task list state of Frontend/src/pages/TaskPage.jsx: the optimistic
    completion toggle and its rollback, the removal after a confirmed
    delete, the title check before a task is submitted, the priority border
    colours, the split of pending tasks into current and upcoming ones, and
    the counts shown as statistics. Each server call is represented by its
    reply, a parameter; dates are whole day numbers. */
module TaskPage {
  import opened Common
  import Sequences
  import TaskModel

  /** A task as the page holds it. `completed` is a client-side flag the
      server never sends, so a fetched or created task has none. */
  datatype ClientTask = ClientTask(
    id: string,
    title: string,
    status: string,
    priority: string,
    dueDay: Option<int>,
    completed: Option<bool>)

  /** A task document in a server reply. */
  datatype TaskDoc = TaskDoc(id: string, title: string, status: string, priority: string, dueDay: Option<int>)

  function FromServer(d: TaskDoc): ClientTask {
    ClientTask(d.id, d.title, d.status, d.priority, d.dueDay, None)
  }

  /** The reply to a request: accepted with a body, refused for
      authentication (401 or 403), or failed, with the server's message if
      it gave one. */
  datatype Reply<T> = Accepted(body: T) | AuthRejected | Failed(message: Option<string>)

  /** JavaScript truthiness of the optional flag. */
  predicate IsSet(flag: Option<bool>) {
    flag == Some(true)
  }

  // ---------------------------------------------------------------------
  // toggleTaskCompletion

  /** The status the toggle sends: back to pending from a completed task,
      to completed otherwise. */
  function NewStatus(current: Option<bool>): (s: string)
    ensures IsSet(current) <==> s == "pending"
    ensures !IsSet(current) <==> s == "completed"
  {
    if IsSet(current) then "pending" else "completed"
  }

  /** The optimistic update: the tasks with the id get the flipped flag and
      the new status; all others are kept as they are. */
  function Toggled(ts: seq<ClientTask>, id: string, current: Option<bool>): (r: seq<ClientTask>)
    ensures |r| == |ts|
    ensures forall i :: 0 <= i < |ts| && ts[i].id != id ==> r[i] == ts[i]
    ensures forall i :: 0 <= i < |ts| && ts[i].id == id ==>
      r[i] == ts[i].(completed := Some(!IsSet(current)), status := NewStatus(current))
  {
    seq(|ts|, i requires 0 <= i < |ts| =>
      if ts[i].id == id then ts[i].(completed := Some(!IsSet(current)), status := NewStatus(current)) else ts[i])
  }

  /** The rollback after a failed update: the tasks with the id get back
      the flag that was passed in and the status that flag stands for. */
  function RolledBack(ts: seq<ClientTask>, id: string, current: Option<bool>): (r: seq<ClientTask>)
    ensures |r| == |ts|
    ensures forall i :: 0 <= i < |ts| && ts[i].id != id ==> r[i] == ts[i]
    ensures forall i :: 0 <= i < |ts| && ts[i].id == id ==>
      r[i] == ts[i].(completed := current, status := if IsSet(current) then "completed" else "pending")
  {
    seq(|ts|, i requires 0 <= i < |ts| =>
      if ts[i].id == id then ts[i].(completed := current, status := if IsSet(current) then "completed" else "pending")
      else ts[i])
  }

  /** The flag and the status of the toggled task agree, as they do for
      every task a card is shown for (those are pending, and none of them
      carries a set flag). */
  predicate AgreesWith(t: ClientTask, current: Option<bool>) {
    t.completed == current && t.status == (if IsSet(current) then "completed" else "pending")
  }

  /** A failed toggle leaves the list exactly as it was before the click. */
  lemma RollbackRestores(ts: seq<ClientTask>, id: string, current: Option<bool>)
    requires forall i :: 0 <= i < |ts| && ts[i].id == id ==> AgreesWith(ts[i], current)
    ensures RolledBack(Toggled(ts, id, current), id, current) == ts
  {
    var r := RolledBack(Toggled(ts, id, current), id, current);
    forall i | 0 <= i < |ts| ensures r[i] == ts[i] {
      if ts[i].id == id {
        assert AgreesWith(ts[i], current);
      }
    }
  }

  /** A task card shown in either list is pending; if its flag is not set
      (always the case for a task as it came from the server), it agrees
      with the flag the toggle is passed. */
  lemma ShownTaskAgrees(t: ClientTask)
    requires t.status == "pending" && !IsSet(t.completed)
    ensures AgreesWith(t, t.completed)
  {
  }

  // ---------------------------------------------------------------------
  // confirmDeleteTask

  /** `tasks.filter(task => task._id !== id)`. */
  function Without(ts: seq<ClientTask>, id: string): (r: seq<ClientTask>)
    ensures forall t :: t in r ==> t in ts && t.id != id
    ensures forall t :: t in ts && t.id != id ==> t in r
  {
    Sequences.Where(ts, (t: ClientTask) => t.id != id)
  }

  /** Removing keeps the other tasks in their order: removing from two
      parts and joining them is removing from the joined list. */
  lemma WithoutKeepsOrder(a: seq<ClientTask>, b: seq<ClientTask>, id: string)
    ensures Without(a + b, id) == Without(a, id) + Without(b, id)
  {
    Sequences.WhereAppend(a, b, (t: ClientTask) => t.id != id);
  }

  // ---------------------------------------------------------------------
  // handleNewTaskSubmit

  const MinTitleLength: nat := 3

  /** `!title.trim() || title.trim().length < 3`. */
  predicate TitleRejected(title: string) {
    Trim(title) == "" || |Trim(title)| < MinTitleLength
  }

  /** The page only refuses titles the server would refuse too: its
      minimum is the schema's; titles over the schema's maximum are not
      caught by the page and are refused by the server. */
  lemma TitleCheckMatchesSchema(title: string)
    ensures TitleRejected(title) ==> !TaskModel.TitleAccepted(title)
    ensures !TitleRejected(title) ==> (TaskModel.TitleAccepted(title) <==> |Trim(title)| <= TaskModel.TitleMaxLength)
  {
  }

  // ---------------------------------------------------------------------
  // getPriorityColor

  const RedBorder: string := "border-l-red-400/60"
  const AmberBorder: string := "border-l-amber-400/60"
  const EmeraldBorder: string := "border-l-emerald-400/60"
  const SlateBorder: string := "border-l-slate-400/60"

  /** high, medium and low get red, amber and emerald borders; anything
      else (in particular "urgent", which the schema allows) gets slate. */
  function PriorityColor(priority: string): (c: string)
    ensures priority == "high" <==> c == RedBorder
    ensures priority == "medium" <==> c == AmberBorder
    ensures priority == "low" <==> c == EmeraldBorder
    ensures priority !in {"high", "medium", "low"} <==> c == SlateBorder
  {
    if priority == "high" then RedBorder
    else if priority == "medium" then AmberBorder
    else if priority == "low" then EmeraldBorder
    else SlateBorder
  }

  /** Of the schema's four priorities, only "urgent" gets the default
      border. */
  lemma UrgentGetsDefaultBorder(p: TaskModel.Priority)
    ensures PriorityColor(TaskModel.PriorityName(p)) == SlateBorder <==> p == TaskModel.Urgent
  {
  }

  // ---------------------------------------------------------------------
  // currentTasks and upcomingTasks

  predicate IsPending(t: ClientTask) {
    t.status == "pending"
  }

  /** Pending with no due day or a due day not after today. */
  predicate IsCurrent(t: ClientTask, today: int) {
    IsPending(t) && (t.dueDay.None? || t.dueDay.value <= today)
  }

  /** Pending with a due day after today. */
  predicate IsUpcoming(t: ClientTask, today: int) {
    IsPending(t) && t.dueDay.Some? && t.dueDay.value > today
  }

  /** The sort key of `new Date(task.dueDate || 0)`: no due day sorts as
      day 0. */
  function DueKey(t: ClientTask): int {
    if t.dueDay.Some? then t.dueDay.value else 0
  }

  function ByDue(): (ClientTask, ClientTask) -> bool {
    (a: ClientTask, b: ClientTask) => DueKey(a) <= DueKey(b)
  }

  lemma ByDueIsTotalPreorder()
    ensures Sequences.TotalPreorder(ByDue())
  {
  }

  /** The current tasks: exactly the pending tasks with no due day or one
      not after today, sorted by due day, a missing one counting as 0. */
  function CurrentTasks(ts: seq<ClientTask>, today: int): (r: seq<ClientTask>)
    ensures forall t :: t in r ==> t in ts && IsCurrent(t, today)
    ensures forall t :: t in ts && IsCurrent(t, today) ==> t in r
    ensures multiset(r) == multiset(Sequences.Where(ts, (t: ClientTask) => IsCurrent(t, today)))
    ensures Sequences.Sorted(r, ByDue())
  {
    var picked := Sequences.Where(ts, (t: ClientTask) => IsCurrent(t, today));
    Sequences.SortPermutation(picked, ByDue());
    Sequences.SortKeepsMembers(picked, ByDue());
    ByDueIsTotalPreorder();
    Sequences.SortSorted(picked, ByDue());
    Sequences.Sort(picked, ByDue())
  }

  /** The upcoming tasks: exactly the pending tasks due after today, sorted
      by due day. */
  function UpcomingTasks(ts: seq<ClientTask>, today: int): (r: seq<ClientTask>)
    ensures forall t :: t in r ==> t in ts && IsUpcoming(t, today)
    ensures forall t :: t in ts && IsUpcoming(t, today) ==> t in r
    ensures multiset(r) == multiset(Sequences.Where(ts, (t: ClientTask) => IsUpcoming(t, today)))
    ensures Sequences.Sorted(r, ByDue())
  {
    var picked := Sequences.Where(ts, (t: ClientTask) => IsUpcoming(t, today));
    Sequences.SortPermutation(picked, ByDue());
    Sequences.SortKeepsMembers(picked, ByDue());
    ByDueIsTotalPreorder();
    Sequences.SortSorted(picked, ByDue());
    Sequences.Sort(picked, ByDue())
  }

  /** The two lists are disjoint and between them hold every pending task,
      each as often as it occurs in the list. */
  lemma CurrentAndUpcomingPartitionPending(ts: seq<ClientTask>, today: int)
    ensures multiset(CurrentTasks(ts, today)) + multiset(UpcomingTasks(ts, today))
      == multiset(Sequences.Where(ts, IsPending))
    ensures forall t :: t in CurrentTasks(ts, today) ==> t !in UpcomingTasks(ts, today)
  {
    Sequences.WherePartition(ts, (t: ClientTask) => IsCurrent(t, today),
      (t: ClientTask) => IsUpcoming(t, today), IsPending);
  }

  // ---------------------------------------------------------------------
  // The statistics

  function CompletedCount(ts: seq<ClientTask>): nat {
    |Sequences.Where(ts, (t: ClientTask) => t.status == "completed")|
  }

  /** The figure labelled "In Progress" counts the pending tasks. */
  function PendingCount(ts: seq<ClientTask>): nat {
    |Sequences.Where(ts, IsPending)|
  }

  /** The pending figure is the length of the two lists together, and the
      completed and pending figures never exceed the total. */
  lemma StatsAgreeWithLists(ts: seq<ClientTask>, today: int)
    ensures PendingCount(ts) == |CurrentTasks(ts, today)| + |UpcomingTasks(ts, today)|
    ensures CompletedCount(ts) + PendingCount(ts) <= |ts|
  {
    CurrentAndUpcomingPartitionPending(ts, today);
    assert |multiset(CurrentTasks(ts, today))| == |CurrentTasks(ts, today)|;
    Sequences.WherePartition(ts, (t: ClientTask) => t.status == "completed", IsPending,
      (t: ClientTask) => t.status == "completed" || IsPending(t));
    var either := Sequences.Where(ts, (t: ClientTask) => t.status == "completed" || IsPending(t));
    assert |multiset(either)| == |either| <= |ts|;
  }

  // ---------------------------------------------------------------------
  // The page's state

  const TitleMessage: string := "Task title is required and must be at least 3 characters long."
  const NoTokenToggleMessage: string := "Authentication token missing. Cannot update task. Please log in."
  const NoTokenAddMessage: string := "Authentication token missing. Cannot add task. Please log in."
  const NoTokenDeleteMessage: string := "Authentication token or task ID missing. Cannot delete task. Please log in."
  const FetchFailure: string := "Failed to fetch tasks"
  const ToggleFailure: string := "Failed to update task status"
  const AddFailure: string := "Failed to add task"
  const DeleteFailure: string := "Failed to delete task"

  /** `errorData.message || fallback`. */
  function MessageOr(m: Option<string>, fallback: string): string {
    if Truthy(m) then m.value else fallback
  }

  class Page {
    var tasks: seq<ClientTask>
    var error: Option<string>
    var token: Option<string>
    var taskToDeleteId: Option<string>

    /** The page after its first fetch of the task list, with the server's
        reply to the GET (`Accepted(None)` when the reply has no `docs`).
        Without a token nothing is fetched; a refused token leaves the list
        empty without a message; any other failure shows its message. */
    constructor (token: Option<string>, reply: Reply<Option<seq<TaskDoc>>>)
      ensures this.token == token && taskToDeleteId.None?
      ensures !Truthy(token) || !reply.Accepted? || reply.body.None? ==> tasks == []
      ensures Truthy(token) && reply.Accepted? && reply.body.Some? ==>
        |tasks| == |reply.body.value|
        && forall i :: 0 <= i < |reply.body.value| ==> tasks[i] == FromServer(reply.body.value[i])
      ensures Truthy(token) && reply.Failed? ==> error == Some(MessageOr(reply.message, FetchFailure))
      ensures !(Truthy(token) && reply.Failed?) ==> error.None?
    {
      this.token := token;
      tasks := [];
      error := None;
      taskToDeleteId := None;
      if Truthy(token) {
        match reply
        case Accepted(docs) =>
          if docs.Some? {
            var fetched := docs.value;
            tasks := seq(|fetched|, i requires 0 <= i < |fetched| => FromServer(fetched[i]));
          }
        case AuthRejected =>
        case Failed(m) =>
          error := Some(MessageOr(m, FetchFailure));
      }
    }

    /** toggleTaskCompletion, with the server's reply to the PUT. */
    method ToggleTaskCompletion(id: string, current: Option<bool>, reply: Reply<()>)
      modifies this
      ensures token == old(token) && taskToDeleteId == old(taskToDeleteId)
      ensures !Truthy(old(token)) ==> tasks == old(tasks) && error == Some(NoTokenToggleMessage)
      ensures Truthy(old(token)) && !reply.Failed? ==>
        tasks == Toggled(old(tasks), id, current) && error == old(error)
      ensures Truthy(old(token)) && reply.Failed? ==>
        tasks == RolledBack(Toggled(old(tasks), id, current), id, current)
        && error == Some(MessageOr(reply.message, ToggleFailure))
    {
      if !Truthy(token) {
        error := Some(NoTokenToggleMessage);
        return;
      }
      tasks := Toggled(tasks, id, current);
      if reply.Failed? {
        error := Some(MessageOr(reply.message, ToggleFailure));
        tasks := RolledBack(tasks, id, current);
      }
    }

    /** The delete button: remembers the task to delete. */
    method HandleDeleteClick(id: string)
      modifies this
      ensures taskToDeleteId == Some(id)
      ensures tasks == old(tasks) && error == old(error) && token == old(token)
    {
      taskToDeleteId := Some(id);
    }

    /** confirmDeleteTask, with the server's reply to the DELETE. */
    method ConfirmDeleteTask(reply: Reply<()>)
      modifies this
      ensures token == old(token)
      ensures !Truthy(old(token)) || !Truthy(old(taskToDeleteId)) ==>
        tasks == old(tasks) && taskToDeleteId == old(taskToDeleteId) && error == Some(NoTokenDeleteMessage)
      ensures Truthy(old(token)) && Truthy(old(taskToDeleteId)) && reply.Accepted? ==>
        tasks == Without(old(tasks), old(taskToDeleteId).value) && taskToDeleteId.None? && error.None?
      ensures Truthy(old(token)) && Truthy(old(taskToDeleteId)) && reply.AuthRejected? ==>
        tasks == old(tasks) && taskToDeleteId == old(taskToDeleteId) && error.None?
      ensures Truthy(old(token)) && Truthy(old(taskToDeleteId)) && reply.Failed? ==>
        tasks == old(tasks) && taskToDeleteId == old(taskToDeleteId)
        && error == Some(MessageOr(reply.message, DeleteFailure))
    {
      if !Truthy(token) || !Truthy(taskToDeleteId) {
        error := Some(NoTokenDeleteMessage);
        return;
      }
      error := None;
      match reply
      case Accepted(_) =>
        tasks := Without(tasks, taskToDeleteId.value);
        taskToDeleteId := None;
      case AuthRejected =>
      case Failed(m) =>
        error := Some(MessageOr(m, DeleteFailure));
    }

    /** handleNewTaskSubmit, with the server's reply to the POST. */
    method HandleNewTaskSubmit(title: string, reply: Reply<TaskDoc>)
      modifies this
      ensures token == old(token) && taskToDeleteId == old(taskToDeleteId)
      ensures TitleRejected(title) ==> tasks == old(tasks) && error == Some(TitleMessage)
      ensures !TitleRejected(title) && !Truthy(old(token)) ==> tasks == old(tasks) && error == Some(NoTokenAddMessage)
      ensures !TitleRejected(title) && Truthy(old(token)) ==>
        && (reply.Accepted? ==> tasks == old(tasks) + [FromServer(reply.body)] && error.None?)
        && (reply.AuthRejected? ==> tasks == old(tasks) && error.None?)
        && (reply.Failed? ==> tasks == old(tasks) && error == Some(MessageOr(reply.message, AddFailure)))
    {
      if TitleRejected(title) {
        error := Some(TitleMessage);
        return;
      }
      if !Truthy(token) {
        error := Some(NoTokenAddMessage);
        return;
      }
      error := None;
      match reply
      case Accepted(doc) =>
        tasks := tasks + [FromServer(doc)];
      case AuthRejected =>
      case Failed(m) =>
        error := Some(MessageOr(m, AddFailure));
    }
  }
}
