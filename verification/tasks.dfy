/**
 * The to-do list: an ordered list of tasks (newest first) and a view filter, both kept in the
 * browser's key-value storage. The pure functions say what each operation does to the list; the
 * class `TaskList` holds the list, the filter and the storage, and updates them in place.
 */
module Tasks {
  import opened Options
  import opened Sequences
  import opened Text

  datatype Task = Task(id: int, text: string, category: string, completed: bool, createdAt: string)

  /**
   * The text stored under the tasks key: the JSON encoding of a task list, the empty string, or
   * text that `JSON.parse` rejects.
   */
  datatype TasksEntry = Encoded(tasks: seq<Task>) | EmptyText | Malformed

  /**
   * The two storage entries of the list (`studyHub_tasks`, `studyHub_filter`; `None` when the key
   * is absent) and the number of `setItem` writes performed so far.
   */
  datatype Store = Store(tasksEntry: Option<TasksEntry>, filterEntry: Option<string>, writes: nat)

  const ALL := "all"
  const ACTIVE := "active"
  const COMPLETED := "completed"

  // ----- storage -----

  /** `saveTasks`: write the encoded list under the tasks key. */
  function StoreTasks(st: Store, tasks: seq<Task>): Store {
    st.(tasksEntry := Some(Encoded(tasks)), writes := st.writes + 1)
  }

  /** `saveCurrentFilter`: write the filter under the filter key. */
  function StoreFilter(st: Store, filter: string): Store {
    st.(filterEntry := Some(filter), writes := st.writes + 1)
  }

  /** What `loadTasks` reads back: `None` where `JSON.parse` throws; a missing or empty entry is `[]`. */
  function DecodeTasks(entry: Option<TasksEntry>): Option<seq<Task>> {
    match entry
    case None => Some([])
    case Some(EmptyText) => Some([])
    case Some(Encoded(tasks)) => Some(tasks)
    case Some(Malformed) => None
  }

  /** What `loadCurrentFilter` reads back: a missing or empty entry means `'all'`. */
  function FilterOrDefault(entry: Option<string>): string {
    if entry == None || entry == Some("") then ALL else entry.value
  }

  /** Saving the list and loading it again gives back the same list. */
  lemma TasksRoundTrip(st: Store, tasks: seq<Task>)
    ensures DecodeTasks(StoreTasks(st, tasks).tasksEntry) == Some(tasks)
    ensures StoreTasks(st, tasks).filterEntry == st.filterEntry
  {
  }

  /** A saved filter reloads as itself, except the empty string, which reloads as `'all'`. */
  lemma FilterRoundTrip(st: Store, filter: string)
    ensures FilterOrDefault(StoreFilter(st, filter).filterEntry) == (if filter == "" then ALL else filter)
    ensures FilterOrDefault(None) == ALL
  {
  }

  // ----- the list operations -----

  /** The task `addTask` creates: trimmed text, not completed. */
  function NewTask(id: int, text: string, category: string, createdAt: string): Task {
    Task(id, text, category, false, createdAt)
  }

  /** The position `tasks.find` stops at: the first task with this id, if any. */
  function FirstIndexOf(tasks: seq<Task>, id: int): (r: Option<nat>)
    ensures r.Some? ==> r.value < |tasks| && tasks[r.value].id == id
    ensures r.Some? ==> forall j :: 0 <= j < r.value ==> tasks[j].id != id
    ensures r.None? ==> forall j :: 0 <= j < |tasks| ==> tasks[j].id != id
  {
    if tasks == [] then None
    else if tasks[0].id == id then Some(0)
    else
      match FirstIndexOf(tasks[1..], id)
      case None => None
      case Some(i) => Some(i + 1)
  }

  /** `toggleTaskComplete`: flip `completed` on the task `find` returns. */
  function Toggled(tasks: seq<Task>, id: int): seq<Task> {
    match FirstIndexOf(tasks, id)
    case None => tasks
    case Some(i) => tasks[i := tasks[i].(completed := !tasks[i].completed)]
  }

  /** `deleteTask`: keep the tasks whose id differs. */
  function WithoutId(tasks: seq<Task>, id: int): seq<Task> {
    Filter(tasks, (t: Task) => t.id != id)
  }

  predicate IsActive(t: Task) {
    !t.completed
  }

  predicate IsCompleted(t: Task) {
    t.completed
  }

  /** `getFilteredTasks`: the tasks the current filter selects, in list order. */
  function FilteredView(tasks: seq<Task>, filter: string): (r: seq<Task>)
    ensures IsSubsequence(r, tasks)
    ensures filter == ACTIVE ==> forall t :: t in r <==> t in tasks && !t.completed
    ensures filter == COMPLETED ==> forall t :: t in r <==> t in tasks && t.completed
    ensures filter != ACTIVE && filter != COMPLETED ==> r == tasks
  {
    if filter == ACTIVE then
      FilterIsSubsequence(tasks, IsActive);
      Filter(tasks, IsActive)
    else if filter == COMPLETED then
      FilterIsSubsequence(tasks, IsCompleted);
      Filter(tasks, IsCompleted)
    else
      FilterKeepsAll(tasks, (t: Task) => true);
      FilterIsSubsequence(tasks, (t: Task) => true);
      tasks
  }

  // ----- properties -----

  /**
   * Toggling changes only the `completed` flag, and only on the first task carrying the id;
   * length, order and every other field stay as they were.
   */
  lemma ToggleFlipsFirstMatchOnly(tasks: seq<Task>, id: int)
    ensures var r := Toggled(tasks, id);
      |r| == |tasks| &&
      (forall j :: 0 <= j < |tasks| ==> r[j].(completed := tasks[j].completed) == tasks[j]) &&
      (forall j :: 0 <= j < |tasks| ==>
         (r[j].completed != tasks[j].completed <==>
            tasks[j].id == id && forall k :: 0 <= k < j ==> tasks[k].id != id))
  {
  }

  /** `find` depends only on the ids, position by position. */
  lemma FirstIndexOfSameIds(a: seq<Task>, b: seq<Task>, id: int)
    requires |a| == |b| && forall j :: 0 <= j < |a| ==> a[j].id == b[j].id
    ensures FirstIndexOf(a, id) == FirstIndexOf(b, id)
  {
  }

  /** Toggling the same id twice restores the list. */
  lemma ToggleTwiceRestores(tasks: seq<Task>, id: int)
    ensures Toggled(Toggled(tasks, id), id) == tasks
  {
    var once := Toggled(tasks, id);
    FirstIndexOfSameIds(once, tasks, id);
  }

  /** Toggling an id no task carries leaves the list as it is. */
  lemma ToggleUnknownIdChangesNothing(tasks: seq<Task>, id: int)
    requires forall j :: 0 <= j < |tasks| ==> tasks[j].id != id
    ensures Toggled(tasks, id) == tasks
  {
  }

  /**
   * Deleting removes every task with the id and keeps all others in order, each as often as the
   * list holds it; an absent id changes nothing, and deleting again changes nothing.
   */
  lemma DeleteRemovesAllMatches(tasks: seq<Task>, id: int)
    ensures var r := WithoutId(tasks, id);
      IsSubsequence(r, tasks) &&
      (forall t :: t in r <==> t in tasks && t.id != id) &&
      (forall t :: multiset(r)[t] == (if t.id != id then multiset(tasks)[t] else 0)) &&
      WithoutId(r, id) == r
    ensures (forall j :: 0 <= j < |tasks| ==> tasks[j].id != id) ==> WithoutId(tasks, id) == tasks
  {
    var p := (t: Task) => t.id != id;
    assert WithoutId(tasks, id) == Filter(tasks, p);
    FilterIsSubsequence(tasks, p);
    FilterCounts(tasks, p);
    FilterIdempotent(tasks, p);
    if forall j :: 0 <= j < |tasks| ==> tasks[j].id != id {
      FilterKeepsAll(tasks, p);
    }
  }

  /**
   * The active and the completed views split the list: together they hold every task exactly as
   * often as the list does.
   */
  lemma ViewsPartitionTasks(tasks: seq<Task>)
    ensures multiset(FilteredView(tasks, ACTIVE)) + multiset(FilteredView(tasks, COMPLETED)) == multiset(tasks)
    ensures |FilteredView(tasks, ACTIVE)| + |FilteredView(tasks, COMPLETED)| == |tasks|
  {
    FilterPartition(tasks, IsActive, IsCompleted);
  }

  /** A freshly added task heads the `'all'` and `'active'` views and is absent from `'completed'`. */
  lemma NewTaskHeadsViews(tasks: seq<Task>, id: int, text: string, category: string, createdAt: string)
    ensures var t := NewTask(id, text, category, createdAt);
      FilteredView([t] + tasks, ALL)[0] == t &&
      FilteredView([t] + tasks, ACTIVE)[0] == t &&
      t !in FilteredView([t] + tasks, COMPLETED)
  {
    var t := NewTask(id, text, category, createdAt);
    assert ([t] + tasks)[1..] == tasks;
  }

  /**
   * Ids come from the clock and may repeat. Then toggling and deleting disagree in scope: toggle
   * flips only the first task with the id, delete removes all of them.
   */
  lemma CollidingIdsToggleVersusDelete()
    ensures var a := Task(7, "read", "", false, "");
      var b := Task(7, "write", "", false, "");
      Toggled([a, b], 7) == [a.(completed := true), b] && WithoutId([a, b], 7) == []
  {
    var a := Task(7, "read", "", false, "");
    var b := Task(7, "write", "", false, "");
    assert [a, b][1..] == [b];
    assert [b][1..] == [];
  }

  /** The to-do variables of the page and the storage they are persisted to. */
  class TaskList {
    var tasks: seq<Task>
    var currentFilter: string
    var store: Store

    /** Loading the stored list now would give back exactly the list in memory. */
    predicate Persisted()
      reads this
    {
      DecodeTasks(store.tasksEntry) == Some(tasks)
    }

    /** The variables as declared, over storage left by earlier visits. */
    constructor (store: Store)
      ensures tasks == [] && currentFilter == ALL && this.store == store
    {
      tasks := [];
      currentFilter := ALL;
      this.store := store;
    }

    /** Replace the list by the stored one; `ok` is false where `JSON.parse` would throw. */
    method LoadTasks() returns (ok: bool)
      modifies this
      ensures ok <==> DecodeTasks(store.tasksEntry).Some?
      ensures ok ==> Persisted()
      ensures !ok ==> tasks == old(tasks)
      ensures store == old(store) && currentFilter == old(currentFilter)
    {
      var decoded := DecodeTasks(store.tasksEntry);
      ok := decoded.Some?;
      if ok {
        tasks := decoded.value;
      }
    }

    method SaveTasks()
      modifies this
      ensures store == StoreTasks(old(store), tasks) && Persisted()
      ensures tasks == old(tasks) && currentFilter == old(currentFilter)
    {
      store := StoreTasks(store, tasks);
    }

    method LoadCurrentFilter()
      modifies this
      ensures currentFilter == FilterOrDefault(store.filterEntry)
      ensures tasks == old(tasks) && store == old(store)
    {
      currentFilter := FilterOrDefault(store.filterEntry);
    }

    method SaveCurrentFilter()
      modifies this
      ensures store == StoreFilter(old(store), currentFilter)
      ensures tasks == old(tasks) && currentFilter == old(currentFilter)
    {
      store := StoreFilter(store, currentFilter);
    }

    /**
     * `addTask` for the typed text `input`: blank text is ignored without any write; otherwise the
     * new task goes in front and the list is saved. `id` and `createdAt` are the clock readings.
     */
    method AddTask(input: string, category: string, id: int, createdAt: string)
      modifies this
      ensures IsBlank(input) ==> tasks == old(tasks) && store == old(store)
      ensures !IsBlank(input) ==>
        tasks == [NewTask(id, Trim(input), category, createdAt)] + old(tasks) &&
        store == StoreTasks(old(store), tasks) && Persisted()
      ensures currentFilter == old(currentFilter)
    {
      TrimEmptyIffBlank(input);
      var text := Trim(input);
      if text == [] {
        return;
      }
      var task := NewTask(id, text, category, createdAt);
      tasks := [task] + tasks;
      SaveTasks();
    }

    /** Flip the first task with this id and save; an unknown id changes and writes nothing. */
    method ToggleTaskComplete(taskId: int)
      modifies this
      ensures tasks == Toggled(old(tasks), taskId)
      ensures FirstIndexOf(old(tasks), taskId).None? ==> store == old(store)
      ensures FirstIndexOf(old(tasks), taskId).Some? ==> store == StoreTasks(old(store), tasks) && Persisted()
      ensures currentFilter == old(currentFilter)
    {
      var found := FirstIndexOf(tasks, taskId);
      if found.Some? {
        var i := found.value;
        tasks := tasks[i := tasks[i].(completed := !tasks[i].completed)];
        SaveTasks();
      }
    }

    /** Remove every task with this id, then save, whether or not anything was removed. */
    method DeleteTask(taskId: int)
      modifies this
      ensures tasks == WithoutId(old(tasks), taskId)
      ensures store == StoreTasks(old(store), tasks) && Persisted()
      ensures currentFilter == old(currentFilter)
    {
      tasks := WithoutId(tasks, taskId);
      SaveTasks();
    }

    /** Select a view and save the choice; the list itself is untouched. */
    method FilterTasks(filter: string)
      modifies this
      ensures currentFilter == filter && tasks == old(tasks)
      ensures store == StoreFilter(old(store), filter)
    {
      currentFilter := filter;
      SaveCurrentFilter();
    }

    function GetFilteredTasks(): seq<Task>
      reads this
    {
      FilteredView(tasks, currentFilter)
    }
  }
}
