/**
 * The task list screen's logic: the filter pipeline over the annotated tasks
 * (date, then status, then search), the counts, and the screen state whose
 * toggle and delete update the list optimistically and roll back on failure.
 */
module TaskListScreen {
  import opened Wrappers
  import opened Text
  import opened Js
  import opened Dates
  import opened TaskItem
  import opened Seqs
  import opened DueMeta
  import opened TaskForm
  import TasksApi

  /** The date tab: "today" or "all". */
  datatype FilterTab = TodayTab | AllTab

  /** The status card: "all", "active" or "done". */
  datatype StatusFilter = AllStatuses | Active | Done

  /** A task with its due label and status, as the list renders it. */
  datatype ViewTask = ViewTask(task: Task, dueLabel: Option<string>, dueStatus: DueStatus)

  function ToView(t: Task, env: DateEnv): ViewTask {
    var m := GetDueMeta(t.dueDate, env);
    ViewTask(t, m.dueLabel, m.dueStatus)
  }

  /** `viewTasks`: every task annotated with its due label and status. */
  function ViewTasks(tasks: seq<Task>, env: DateEnv): (vs: seq<ViewTask>)
    ensures |vs| == |tasks| && forall i :: 0 <= i < |tasks| ==> vs[i] == ToView(tasks[i], env)
  {
    seq(|tasks|, i requires 0 <= i < |tasks| => ToView(tasks[i], env))
  }

  function TaskOf(v: ViewTask): Task { v.task }

  /** The tasks under a sequence of annotated tasks. */
  function TasksOf(vs: seq<ViewTask>): seq<Task> {
    Map(vs, TaskOf)
  }

  /** Annotating changes neither the tasks nor their order. */
  lemma TasksOfViewTasks(tasks: seq<Task>, env: DateEnv)
    ensures TasksOf(ViewTasks(tasks, env)) == tasks
  {
  }

  /** Kept by the "today" tab: due today, overdue, or without a due date. */
  predicate ShownToday(v: ViewTask) {
    v.dueStatus == Today || v.dueStatus == Overdue || v.dueStatus == DueNone
  }

  predicate IsOpen(v: ViewTask) { !v.task.completed }

  predicate IsDone(v: ViewTask) { v.task.completed }

  /** The date stage. */
  function ByDate(vs: seq<ViewTask>, filter: FilterTab): seq<ViewTask> {
    if filter == AllTab then vs else Filter(vs, ShownToday)
  }

  /** The status stage. */
  function ByStatus(vs: seq<ViewTask>, statusFilter: StatusFilter): seq<ViewTask> {
    match statusFilter
    case Active => Filter(vs, IsOpen)
    case Done => Filter(vs, IsDone)
    case AllStatuses => vs
  }

  /** `searchQuery.trim().toLowerCase()`. */
  function NormalizeQuery(query: string): string {
    ToLower(Trim(query))
  }

  /** The lower-cased title or the lower-cased description contains `q`; a missing field counts as "". */
  predicate Matches(v: ViewTask, q: string) {
    Includes(ToLower(v.task.title.GetOr("")), q) || Includes(ToLower(v.task.description.GetOr("")), q)
  }

  /** The search stage: an empty normalized query keeps everything. */
  function BySearch(vs: seq<ViewTask>, query: string): seq<ViewTask> {
    var q := NormalizeQuery(query);
    if |q| > 0 then Filter(vs, v => Matches(v, q)) else vs
  }

  /** `filteredViewTasks`: date, then status, then search. */
  function FilteredView(tasks: seq<Task>, env: DateEnv, filter: FilterTab, statusFilter: StatusFilter, query: string): seq<ViewTask> {
    BySearch(ByStatus(ByDate(ViewTasks(tasks, env), filter), statusFilter), query)
  }

  predicate PassesDate(v: ViewTask, filter: FilterTab) {
    filter == AllTab || v.dueStatus != Upcoming
  }

  predicate PassesStatus(v: ViewTask, statusFilter: StatusFilter) {
    match statusFilter
    case Active => !v.task.completed
    case Done => v.task.completed
    case AllStatuses => true
  }

  predicate PassesSearch(v: ViewTask, query: string) {
    IsBlank(query) || Matches(v, NormalizeQuery(query))
  }

  /** The date stage only removes items; "all" removes none and "today" removes exactly the upcoming ones. */
  lemma ByDateSpec(vs: seq<ViewTask>, filter: FilterTab)
    ensures IsSubsequence(ByDate(vs, filter), vs)
    ensures filter == AllTab ==> ByDate(vs, filter) == vs
    ensures forall v :: v in ByDate(vs, filter) <==> v in vs && PassesDate(v, filter)
  {
    FilterIsSubsequence(vs, ShownToday);
    FilterMembership(vs, ShownToday);
    SubsequenceReflexive(vs);
  }

  /** The status stage only removes items; "active" keeps the open ones, "done" the completed ones, "all" everything. */
  lemma ByStatusSpec(vs: seq<ViewTask>, statusFilter: StatusFilter)
    ensures IsSubsequence(ByStatus(vs, statusFilter), vs)
    ensures statusFilter == AllStatuses ==> ByStatus(vs, statusFilter) == vs
    ensures forall v :: v in ByStatus(vs, statusFilter) <==> v in vs && PassesStatus(v, statusFilter)
  {
    match statusFilter
    case Active =>
      FilterIsSubsequence(vs, IsOpen);
      FilterMembership(vs, IsOpen);
    case Done =>
      FilterIsSubsequence(vs, IsDone);
      FilterMembership(vs, IsDone);
    case AllStatuses =>
      SubsequenceReflexive(vs);
  }

  /**
   * The search stage only removes items; a query that is blank after trimming
   * keeps everything, any other keeps the items whose title or description
   * contains it, ignoring ASCII case.
   */
  lemma BySearchSpec(vs: seq<ViewTask>, query: string)
    ensures IsSubsequence(BySearch(vs, query), vs)
    ensures IsBlank(query) ==> BySearch(vs, query) == vs
    ensures forall v :: v in BySearch(vs, query) <==> v in vs && PassesSearch(v, query)
  {
    TrimEmptyIffBlank(query);
    var q := NormalizeQuery(query);
    assert |q| == |Trim(query)|;
    if |q| > 0 {
      var p := (v: ViewTask) => Matches(v, q);
      assert BySearch(vs, query) == Filter(vs, p);
      FilterIsSubsequence(vs, p);
      FilterMembership(vs, p);
      forall v
        ensures v in Filter(vs, p) <==> v in vs && p(v)
      {
      }
    } else {
      SubsequenceReflexive(vs);
    }
  }

  /** An annotated task passes the date tab, the status card and the search. */
  predicate PassesAll(v: ViewTask, filter: FilterTab, statusFilter: StatusFilter, query: string) {
    PassesDate(v, filter) && PassesStatus(v, statusFilter) && PassesSearch(v, query)
  }

  /** The three stages as one predicate. */
  function Stages(filter: FilterTab, statusFilter: StatusFilter, query: string): ViewTask -> bool {
    v => PassesAll(v, filter, statusFilter, query)
  }

  /** The date stage is a filter by `PassesDate`. */
  lemma ByDateIsFilter(vs: seq<ViewTask>, filter: FilterTab, pd: ViewTask -> bool)
    requires forall v :: pd(v) == PassesDate(v, filter)
    ensures ByDate(vs, filter) == Filter(vs, pd)
  {
    if filter == AllTab {
      FilterAll(vs, pd);
    } else {
      FilterAgree(vs, ShownToday, pd);
    }
  }

  /** The status stage is a filter by `PassesStatus`. */
  lemma ByStatusIsFilter(vs: seq<ViewTask>, statusFilter: StatusFilter, ps: ViewTask -> bool)
    requires forall v :: ps(v) == PassesStatus(v, statusFilter)
    ensures ByStatus(vs, statusFilter) == Filter(vs, ps)
  {
    match statusFilter
    case Active => FilterAgree(vs, IsOpen, ps);
    case Done => FilterAgree(vs, IsDone, ps);
    case AllStatuses => FilterAll(vs, ps);
  }

  /** The search stage is a filter by `PassesSearch`. */
  lemma BySearchIsFilter(vs: seq<ViewTask>, query: string, pq: ViewTask -> bool)
    requires forall v :: pq(v) == PassesSearch(v, query)
    ensures BySearch(vs, query) == Filter(vs, pq)
  {
    TrimEmptyIffBlank(query);
    var q := NormalizeQuery(query);
    assert |q| == |Trim(query)|;
    if |q| > 0 {
      FilterAgree(vs, v => Matches(v, q), pq);
    } else {
      FilterAll(vs, pq);
    }
  }

  /** The three stages one after the other filter the annotated tasks once, by all three together. */
  lemma FilteredViewIsStages(tasks: seq<Task>, env: DateEnv, filter: FilterTab, statusFilter: StatusFilter, query: string)
    ensures FilteredView(tasks, env, filter, statusFilter, query) == Filter(ViewTasks(tasks, env), Stages(filter, statusFilter, query))
  {
    var all := ViewTasks(tasks, env);
    var d := ByDate(all, filter);
    var s := ByStatus(d, statusFilter);
    var pd := (v: ViewTask) => PassesDate(v, filter);
    var ps := (v: ViewTask) => PassesStatus(v, statusFilter);
    var pq := (v: ViewTask) => PassesSearch(v, query);
    var pds := (v: ViewTask) => PassesDate(v, filter) && PassesStatus(v, statusFilter);
    ByDateIsFilter(all, filter, pd);
    ByStatusIsFilter(d, statusFilter, ps);
    BySearchIsFilter(s, query, pq);
    FilterFilter(all, pd, ps, pds);
    FilterFilter(all, pds, pq, Stages(filter, statusFilter, query));
  }

  /**
   * The rendered list is an order-preserving subsequence of the tasks, and an
   * annotated task is in it exactly when it passes all three stages: the
   * list is the annotated tasks filtered once by the three stages together,
   * with their order and repeats.
   */
  lemma FilteredViewSpec(tasks: seq<Task>, env: DateEnv, filter: FilterTab, statusFilter: StatusFilter, query: string)
    ensures IsSubsequence(FilteredView(tasks, env, filter, statusFilter, query), ViewTasks(tasks, env))
    ensures IsSubsequence(TasksOf(FilteredView(tasks, env, filter, statusFilter, query)), tasks)
    ensures forall v :: v in FilteredView(tasks, env, filter, statusFilter, query) <==>
      v in ViewTasks(tasks, env) && PassesDate(v, filter) && PassesStatus(v, statusFilter) && PassesSearch(v, query)
    ensures FilteredView(tasks, env, filter, statusFilter, query) == Filter(ViewTasks(tasks, env), Stages(filter, statusFilter, query))
  {
    var all := ViewTasks(tasks, env);
    var p := Stages(filter, statusFilter, query);
    var r := Filter(all, p);
    FilteredViewIsStages(tasks, env, filter, statusFilter, query);
    FilterIsSubsequence(all, p);
    FilterMembership(all, p);
    SubsequenceMap(r, all, TaskOf);
    TasksOfViewTasks(tasks, env);
  }

  /** Narrowing any filter narrows the list: today+active within today+all within all+all, which is every task. */
  lemma NarrowingFilters(tasks: seq<Task>, env: DateEnv)
    ensures IsSubsequence(FilteredView(tasks, env, TodayTab, Active, ""), FilteredView(tasks, env, TodayTab, AllStatuses, ""))
    ensures IsSubsequence(FilteredView(tasks, env, TodayTab, AllStatuses, ""), FilteredView(tasks, env, AllTab, AllStatuses, ""))
    ensures FilteredView(tasks, env, AllTab, AllStatuses, "") == ViewTasks(tasks, env)
  {
    var all := ViewTasks(tasks, env);
    var today := ByDate(all, TodayTab);
    var todayActive := ByStatus(today, Active);
    assert NormalizeQuery("") == "";
    assert FilteredView(tasks, env, TodayTab, Active, "") == todayActive;
    assert FilteredView(tasks, env, TodayTab, AllStatuses, "") == today;
    assert FilteredView(tasks, env, AllTab, AllStatuses, "") == all;
    ByStatusSpec(today, Active);
    ByDateSpec(all, TodayTab);
  }

  predicate IsCompletedTask(t: Task) { t.completed }

  predicate IsActiveTask(t: Task) { !t.completed }

  /** `completedCount`. */
  function CompletedCount(tasks: seq<Task>): nat {
    |Filter(tasks, IsCompletedTask)|
  }

  /** `activeCount`. */
  function ActiveCount(tasks: seq<Task>): nat {
    |Filter(tasks, IsActiveTask)|
  }

  /** Every task is counted once, as active or as completed: the two counts add up to `totalCount`. */
  lemma CountsAddUp(tasks: seq<Task>)
    ensures ActiveCount(tasks) + CompletedCount(tasks) == |tasks|
  {
    FilterPartition(tasks, IsActiveTask, IsCompletedTask);
  }

  /** The index `tasks.find(t => t.id === id)` stops at: the first task with that id. */
  function FindIndex(tasks: seq<Task>, id: string): (r: Option<nat>)
    ensures r.None? <==> forall i :: 0 <= i < |tasks| ==> tasks[i].id != Some(id)
    ensures r.Some? ==>
      r.value < |tasks| && tasks[r.value].id == Some(id) && forall j :: 0 <= j < r.value ==> tasks[j].id != Some(id)
  {
    if tasks == [] then None
    else if tasks[0].id == Some(id) then Some(0)
    else
      match FindIndex(tasks[1..], id)
      case None => None
      case Some(k) => Some(k + 1)
  }

  /** `tasks.find(t => t.id === id)`. */
  function Find(tasks: seq<Task>, id: string): Option<Task> {
    match FindIndex(tasks, id)
    case None => None
    case Some(k) => Some(tasks[k])
  }

  /** The optimistic list of a toggle: `completed` flipped on every task with the id. */
  function Toggled(tasks: seq<Task>, id: string): (r: seq<Task>)
    ensures |r| == |tasks|
    ensures forall i :: 0 <= i < |tasks| ==>
      r[i] == if tasks[i].id == Some(id) then tasks[i].(completed := !tasks[i].completed) else tasks[i]
  {
    seq(|tasks|, i requires 0 <= i < |tasks| =>
      if tasks[i].id == Some(id) then tasks[i].(completed := !tasks[i].completed) else tasks[i])
  }

  /** The optimistic flip touches only `completed` of the matching tasks, and flipping again restores the list. */
  lemma ToggledSpec(tasks: seq<Task>, id: string)
    ensures forall i :: 0 <= i < |tasks| ==>
      Toggled(tasks, id)[i].(completed := tasks[i].completed) == tasks[i] &&
      (Toggled(tasks, id)[i].completed != tasks[i].completed <==> tasks[i].id == Some(id))
    ensures Toggled(Toggled(tasks, id), id) == tasks
    ensures FindIndex(tasks, id).None? ==> Toggled(tasks, id) == tasks
  {
  }

  /** The update a toggle sends: the target's own title, description and due date, with `completed` flipped. */
  function ToggleRequest(target: Task): TaskFormValues {
    TaskFormValues(target.title, target.description, target.dueDate, !target.completed)
  }

  /** The list after a confirmed delete: every task with the id removed. */
  function RemoveId(tasks: seq<Task>, id: string): seq<Task> {
    Filter(tasks, (t: Task) => t.id != Some(id))
  }

  /** A delete removes every task with the id and keeps the others in order; an unknown id changes nothing. */
  lemma RemoveIdSpec(tasks: seq<Task>, id: string)
    ensures IsSubsequence(RemoveId(tasks, id), tasks)
    ensures forall t :: t in RemoveId(tasks, id) <==> t in tasks && t.id != Some(id)
    ensures FindIndex(tasks, id).None? ==> RemoveId(tasks, id) == tasks
  {
    FilterIsSubsequence(tasks, (t: Task) => t.id != Some(id));
    if FindIndex(tasks, id).None? {
      FilterAll(tasks, (t: Task) => t.id != Some(id));
    }
  }

  /** The confirmation dialog of a delete: the id, the title it names, and the list as it was when it opened. */
  datatype DeleteDialog = DeleteDialog(id: string, title: Option<string>, prev: seq<Task>)

  /** The state of the task list screen. */
  class TaskListState {
    var filter: FilterTab
    var statusFilter: StatusFilter
    var tasks: seq<Task>
    var loading: bool
    var searchOpen: bool
    var searchQuery: string
    var selectedTask: Option<Task>

    constructor ()
      ensures filter == AllTab && statusFilter == AllStatuses && tasks == [] && !loading
      ensures !searchOpen && searchQuery == "" && selectedTask.None?
    {
      filter := AllTab;
      statusFilter := AllStatuses;
      tasks := [];
      loading := false;
      searchOpen := false;
      searchQuery := "";
      selectedTask := None;
    }

    /** The load effect: the fetched tasks replace the list; on an error the list stays; loading ends either way. */
    method Load(res: Response, env: DateEnv)
      modifies this`tasks, this`loading
      ensures !loading
      ensures tasks == if TasksApi.FetchTasks(res, env).Success? then TasksApi.FetchTasks(res, env).value else old(tasks)
    {
      loading := true;
      var fetched := TasksApi.FetchTasks(res, env);
      if fetched.Success? {
        tasks := fetched.value;
      }
      loading := false;
    }

    /**
     * `handleToggleTask(id)`: an unknown id does nothing. Otherwise the list
     * is replaced by its optimistic copy, the update is sent, and when the
     * update fails the list is set back to the snapshot taken before.
     */
    method ToggleTask(id: string, res: Response, env: DateEnv) returns (request: Option<TaskFormValues>)
      modifies this`tasks
      ensures request.None? <==> Find(old(tasks), id).None?
      ensures request.Some? ==> request.value == ToggleRequest(Find(old(tasks), id).value)
      ensures tasks == if request.Some? && TasksApi.UpdateTask(res, env).Success? then Toggled(old(tasks), id) else old(tasks)
    {
      var target := Find(tasks, id);
      if target.None? {
        return None;
      }
      var prevTasks := tasks;
      tasks := Toggled(tasks, id);
      request := Some(ToggleRequest(target.value));
      if TasksApi.UpdateTask(res, env).Failure? {
        tasks := prevTasks;
      }
    }

    /** `handleDeleteTask(id)`: an unknown id opens nothing; otherwise the dialog captures the list as it is now. */
    method RequestDelete(id: string) returns (dialog: Option<DeleteDialog>)
      ensures dialog.None? <==> Find(tasks, id).None?
      ensures dialog.Some? ==> dialog.value == DeleteDialog(id, Find(tasks, id).value.title, tasks)
    {
      var target := Find(tasks, id);
      if target.None? {
        return None;
      }
      dialog := Some(DeleteDialog(id, target.value.title, tasks));
    }

    /**
     * The dialog's destructive button: the tasks with the id leave the current
     * list at once; when the delete fails the list becomes the dialog's
     * snapshot. Pressing cancel calls nothing.
     */
    method ConfirmDelete(dialog: DeleteDialog, res: Response)
      modifies this`tasks
      ensures tasks == if TasksApi.DeleteTask(res).Success? then RemoveId(old(tasks), dialog.id) else dialog.prev
    {
      var prev := dialog.prev;
      tasks := RemoveId(tasks, dialog.id);
      if TasksApi.DeleteTask(res).Failure? {
        tasks := prev;
      }
    }

    /** The search button: opens or closes the search bar; closing it clears the query. */
    method ToggleSearch()
      modifies this`searchOpen, this`searchQuery
      ensures searchOpen == !old(searchOpen)
      ensures searchQuery == if searchOpen then old(searchQuery) else ""
    {
      searchOpen := !searchOpen;
      if !searchOpen {
        searchQuery := "";
      }
    }

    /** `handlePressTask(id)`: opens the detail of the task with the id, if there is one. */
    method PressTask(id: string)
      modifies this`selectedTask
      ensures selectedTask == if Find(tasks, id).Some? then Find(tasks, id) else old(selectedTask)
    {
      var t := Find(tasks, id);
      if t.Some? {
        selectedTask := t;
      }
    }

    /** Closing the detail. */
    method CloseDetail()
      modifies this`selectedTask
      ensures selectedTask.None?
    {
      selectedTask := None;
    }

    /** The detail's edit button: closes the detail and hands the task it showed to `onEditTask`. */
    method EditSelected() returns (toEdit: Option<Task>)
      modifies this`selectedTask
      ensures selectedTask.None? && toEdit == old(selectedTask)
    {
      toEdit := selectedTask;
      selectedTask := None;
    }
  }
}
