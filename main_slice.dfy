/**
 * The application store: tasks, focus sessions, the ids of tasks focused
 * on today, and the settings, with the reducers that update them in place
 * and the two selectors over the task list.
 *
 * Each reducer is a method of `MainStore` that modifies only the fields the
 * source assigns; generated ids (uuid) and the current time are arguments.
 * The list operations are specified by the functions at the top of the
 * module, and their properties are the lemmas at the bottom.
 */
module MainSlice {
  import opened Data
  import Algorithm

  datatype DateFormat = Normal | Relative

  datatype SortField = ByPriority | ByStatus | ByDueDate | ByCreatedAt

  datatype SortOrder = Asc | Desc

  datatype SortConfig = SortConfig(field: SortField, order: SortOrder)

  /** Duration of a session, in minutes, when the payload gives none. */
  const DEFAULT_SESSION_MINUTES: int := 25

  /** Number of tasks the home screen lists as "top tasks". */
  const TOP_TASK_COUNT: nat := 3

  /** A settings update; `None` marks a field the payload leaves out. */
  datatype SettingsPatch = SettingsPatch(
    timeDuration: Option<int>,
    autoStartTimer: Option<bool>,
    dateFormat: Option<DateFormat>)

  /** The payload of `addTask`: a task without its id and creation time. */
  datatype NewTask = NewTask(title: string, priority: int, status: int, dueDate: Option<int>)

  /**
   * What an edit payload says about the due date. Object spread copies a
   * key that is present with the value `undefined`, so an edit can clear
   * the due date (`SetDue(None)`) as well as leave it alone (`KeepDue`).
   */
  datatype DuePatch = KeepDue | SetDue(due: Option<int>)

  /** The payload of `editTask`: any subset of a task's fields. */
  datatype TaskPatch = TaskPatch(
    id: Option<Id>,
    title: Option<string>,
    priority: Option<int>,
    status: Option<int>,
    createdAt: Option<int>,
    dueDate: DuePatch)

  /** `{ ...task, ...patch }`: the payload's fields override the task's. */
  function ApplyPatch(t: Task, p: TaskPatch): Task {
    Task(
      if p.id.Some? then p.id.value else t.id,
      if p.title.Some? then p.title.value else t.title,
      if p.priority.Some? then p.priority.value else t.priority,
      if p.status.Some? then p.status.value else t.status,
      if p.createdAt.Some? then p.createdAt.value else t.createdAt,
      if p.dueDate.SetDue? then p.dueDate.due else t.dueDate)
  }

  /** The task record `addTask` pushes. */
  function NewTaskRecord(payload: NewTask, id: Id, now: int): Task {
    Task(id, payload.title, payload.priority, payload.status, now, payload.dueDate)
  }

  /** The list after removing the first element whose key is `id`, if any. */
  function DeleteFirst<T>(s: seq<T>, key: T -> Id, id: Id): seq<T> {
    var i := FindIndex(s, key, id);
    if i == -1 then s else RemoveAt(s, i)
  }

  /** `!payload.id`: the id is missing or the empty string. */
  predicate MissingId(p: TaskPatch) { p.id.None? || p.id.value == "" }

  /** The task list after `editTask(p)`. */
  function EditFirst(tasks: seq<Task>, p: TaskPatch): seq<Task> {
    if MissingId(p) then tasks
    else
      var i := FindIndex(tasks, TaskKey, p.id.value);
      if i == -1 then tasks else tasks[i := ApplyPatch(tasks[i], p)]
  }

  class MainStore {
    var date: Option<string>
    var sessions: seq<Session>
    var tasks: seq<Task>
    var todayFocusTasks: seq<Id>
    var sortConfig: SortConfig
    var timeDuration: int
    var autoStartTimer: bool
    var dateFormat: DateFormat

    /** Task ids and session ids are unique. */
    ghost predicate Valid()
      reads this
    {
      UniqueKeys(tasks, TaskKey) && UniqueKeys(sessions, SessionKey)
    }

    /** The initial state. */
    constructor ()
      ensures date == None && sessions == [] && tasks == [] && todayFocusTasks == []
      ensures sortConfig == SortConfig(ByPriority, Desc)
      ensures timeDuration == 25 && !autoStartTimer && dateFormat == Normal
      ensures Valid()
    {
      date := None;
      sessions := [];
      tasks := [];
      todayFocusTasks := [];
      sortConfig := SortConfig(ByPriority, Desc);
      timeDuration := 25;
      autoStartTimer := false;
      dateFormat := Normal;
    }

    /** `changeSettings`: each field given in the payload is overwritten. */
    method ChangeSettings(payload: SettingsPatch)
      modifies this`timeDuration, this`autoStartTimer, this`dateFormat
      ensures timeDuration == if payload.timeDuration.Some? then payload.timeDuration.value else old(timeDuration)
      ensures autoStartTimer == if payload.autoStartTimer.Some? then payload.autoStartTimer.value else old(autoStartTimer)
      ensures dateFormat == if payload.dateFormat.Some? then payload.dateFormat.value else old(dateFormat)
    {
      if payload.timeDuration.Some? {
        timeDuration := payload.timeDuration.value;
      }
      if payload.autoStartTimer.Some? {
        autoStartTimer := payload.autoStartTimer.value;
      }
      if payload.dateFormat.Some? {
        dateFormat := payload.dateFormat.value;
      }
    }

    /** `setDate`: a new day is recorded and today's focus list emptied. */
    method SetDate(day: string)
      modifies this`date, this`todayFocusTasks
      ensures old(date) == Some(day) ==> date == old(date) && todayFocusTasks == old(todayFocusTasks)
      ensures old(date) != Some(day) ==> date == Some(day) && todayFocusTasks == []
    {
      if date == Some(day) {
        return;
      }
      date := Some(day);
      todayFocusTasks := [];
    }

    /** `startSession`: appends one session, 25 minutes long unless told otherwise. */
    method StartSession(taskId: Id, duration: Option<int>, freshId: Id, now: int)
      modifies this`sessions
      ensures sessions == old(sessions) +
        [Session(freshId, taskId, now, if duration.Some? then duration.value else DEFAULT_SESSION_MINUTES, None)]
      ensures old(Valid()) && freshId !in Keys(old(sessions), SessionKey) ==> Valid()
    {
      sessions := sessions + [Session(freshId, taskId, now, if duration.Some? then duration.value else DEFAULT_SESSION_MINUTES, None)];
      if old(Valid()) && freshId !in Keys(old(sessions), SessionKey) {
        AppendFreshKeepsUnique(old(sessions), SessionKey, sessions[|sessions| - 1]);
      }
    }

    /**
     * `completeSession`: the task of the first session with this id joins
     * today's focus list; an unknown id changes nothing. The session list
     * itself is never touched (no completion time is recorded).
     */
    method CompleteSession(id: Id)
      modifies this`todayFocusTasks
      ensures var i := FindIndex(sessions, SessionKey, id);
        todayFocusTasks == if i == -1 then old(todayFocusTasks)
                           else old(todayFocusTasks) + [sessions[i].taskId]
    {
      var i := FindIndex(sessions, SessionKey, id);
      if i == -1 {
        return;
      }
      todayFocusTasks := todayFocusTasks + [sessions[i].taskId];
    }

    /** `deleteSession`: removes the first session with this id, if there is one. */
    method DeleteSession(id: Id)
      modifies this`sessions
      ensures sessions == DeleteFirst(old(sessions), SessionKey, id)
      ensures old(Valid()) ==> Valid()
    {
      var i := FindIndex(sessions, SessionKey, id);
      if i == -1 {
        return;
      }
      sessions := RemoveAt(sessions, i);
      if old(Valid()) {
        DeleteFirstKeepsUnique(old(sessions), SessionKey, id);
      }
    }

    /** `addTask`: appends the payload as a task with a fresh id and creation time. */
    method AddTask(payload: NewTask, freshId: Id, now: int)
      modifies this`tasks
      ensures tasks == old(tasks) + [NewTaskRecord(payload, freshId, now)]
      ensures old(Valid()) && freshId !in Keys(old(tasks), TaskKey) ==> Valid()
    {
      tasks := tasks + [NewTaskRecord(payload, freshId, now)];
      if old(Valid()) && freshId !in Keys(old(tasks), TaskKey) {
        AppendFreshKeepsUnique(old(tasks), TaskKey, NewTaskRecord(payload, freshId, now));
      }
    }

    /** `editTask`: merges the payload into the first task with its id. */
    method EditTask(payload: TaskPatch)
      modifies this`tasks
      ensures tasks == EditFirst(old(tasks), payload)
      ensures old(Valid()) ==> Valid()
    {
      if MissingId(payload) {
        return;
      }
      var i := FindIndex(tasks, TaskKey, payload.id.value);
      if i == -1 {
        return;
      }
      tasks := tasks[i := ApplyPatch(tasks[i], payload)];
      EditFirstKeepsIds(old(tasks), payload);
    }

    /** `deleteTask`: removes the first task with this id, if there is one. */
    method DeleteTask(id: Id)
      modifies this`tasks
      ensures tasks == DeleteFirst(old(tasks), TaskKey, id)
      ensures old(Valid()) ==> Valid()
    {
      var i := FindIndex(tasks, TaskKey, id);
      if i == -1 {
        return;
      }
      tasks := RemoveAt(tasks, i);
      if old(Valid()) {
        DeleteFirstKeepsUnique(old(tasks), TaskKey, id);
      }
    }

    /** `clearAllTasks`: empties tasks, sessions and the focus list; settings stay. */
    method ClearAllTasks()
      modifies this`tasks, this`sessions, this`todayFocusTasks
      ensures tasks == [] && sessions == [] && todayFocusTasks == []
      ensures Valid()
    {
      tasks := [];
      sessions := [];
      todayFocusTasks := [];
    }

    /**
     * `setSortConfig`: the payload becomes the sort configuration (the
     * source's fallback assignment before it is overwritten at once).
     */
    method SetSortConfig(config: SortConfig)
      modifies this`sortConfig
      ensures sortConfig == config
    {
      sortConfig := config;
    }
  }

  // ---------------------------------------------------------------------
  // Selectors

  /** `todayTopTasks`: the first (at most) three ranked tasks. */
  function TodayTopTasks(tasks: seq<Task>, today: int): (r: seq<Task>)
    ensures var ranked := Algorithm.WeightedTasks(tasks, today);
      |r| == (if |ranked| < TOP_TASK_COUNT then |ranked| else TOP_TASK_COUNT)
      && r == ranked[..|r|]
  {
    var ranked := Algorithm.WeightedTasks(tasks, today);
    if |ranked| < TOP_TASK_COUNT then ranked else ranked[..TOP_TASK_COUNT]
  }

  predicate CompletedOn(t: Task, isToday: int -> bool) {
    t.status == COMPLETED && isToday(t.createdAt)
  }

  /** The filter `todayCompletedTasks` applies. */
  function CompletedToday(isToday: int -> bool): Task -> bool {
    t => CompletedOn(t, isToday)
  }

  /**
   * `todayCompletedTasks`: the completed tasks created today, each as often
   * as in the list; `TodayCompletedInOrder` states that the list order is
   * kept. Whether a timestamp falls on the current day is `isToday`.
   */
  function TodayCompletedTasks(tasks: seq<Task>, isToday: int -> bool): (r: seq<Task>)
    ensures forall t :: t in r <==> t in tasks && t.status == COMPLETED && isToday(t.createdAt)
    ensures forall t ::
              multiset(r)[t] == if CompletedOn(t, isToday) then multiset(tasks)[t] else 0
  {
    FilterCount(tasks, CompletedToday(isToday));
    Filter(tasks, CompletedToday(isToday))
  }

  /**
   * The selector keeps the list order: it distributes over concatenation,
   * and a single task is listed exactly when it is completed today.
   */
  lemma TodayCompletedInOrder(a: seq<Task>, b: seq<Task>, t: Task, isToday: int -> bool)
    ensures TodayCompletedTasks(a + b, isToday) == TodayCompletedTasks(a, isToday) + TodayCompletedTasks(b, isToday)
    ensures TodayCompletedTasks([t], isToday) ==
      if t.status == COMPLETED && isToday(t.createdAt) then [t] else []
  {
    FilterAppend(a, b, CompletedToday(isToday));
    FilterSingleton(t, CompletedToday(isToday));
  }

  // ---------------------------------------------------------------------
  // Properties of the list operations

  /** Appending an element with a new key keeps the keys unique. */
  lemma AppendFreshKeepsUnique<T>(s: seq<T>, key: T -> Id, x: T)
    requires UniqueKeys(s, key)
    requires key(x) !in Keys(s, key)
    ensures UniqueKeys(s + [x], key)
  {
    forall i, j | 0 <= i < j < |s| + 1 ensures key((s + [x])[i]) != key((s + [x])[j]) {
      if j == |s| {
        assert key(s[i]) in Keys(s, key);
      }
    }
  }

  /**
   * Deleting by id removes exactly the first element with that id, keeping
   * the order of the others; with no such element nothing changes.
   */
  lemma DeleteFirstSpec<T>(s: seq<T>, key: T -> Id, id: Id)
    ensures id !in Keys(s, key) ==> DeleteFirst(s, key, id) == s
    ensures id in Keys(s, key) ==>
      exists k :: 0 <= k < |s| && key(s[k]) == id
        && (forall i :: 0 <= i < k ==> key(s[i]) != id)
        && DeleteFirst(s, key, id) == s[..k] + s[k + 1..]
  {
    var i := FindIndex(s, key, id);
    if id in Keys(s, key) {
      var k :| 0 <= k < |s| && key(s[k]) == id;
      assert i != -1;
    } else {
      assert forall k :: 0 <= k < |s| ==> key(s[k]) in Keys(s, key);
    }
  }

  /** Deleting by id from a list with unique ids removes exactly that id. */
  lemma DeleteFirstKeepsUnique<T>(s: seq<T>, key: T -> Id, id: Id)
    requires UniqueKeys(s, key)
    ensures UniqueKeys(DeleteFirst(s, key, id), key)
    ensures Keys(DeleteFirst(s, key, id), key) == Keys(s, key) - {id}
  {
    var i := FindIndex(s, key, id);
    var r := DeleteFirst(s, key, id);
    if i == -1 {
      assert forall k :: 0 <= k < |s| ==> key(s[k]) != id;
    } else {
      assert forall a, b :: 0 <= a < b < |r| ==> key(r[a]) != key(r[b]) by {
        forall a, b | 0 <= a < b < |r| ensures key(r[a]) != key(r[b]) {
          var a' := if a < i then a else a + 1;
          var b' := if b < i then b else b + 1;
          assert r[a] == s[a'] && r[b] == s[b'];
        }
      }
      forall x | x in Keys(r, key) ensures x in Keys(s, key) - {id} {
        var a :| 0 <= a < |r| && key(r[a]) == x;
        var a' := if a < i then a else a + 1;
        assert r[a] == s[a'];
        assert a' != i;
      }
      forall x | x in Keys(s, key) - {id} ensures x in Keys(r, key) {
        var a :| 0 <= a < |s| && key(s[a]) == x;
        assert a != i;
        var a' := if a < i then a else a - 1;
        assert r[a'] == s[a];
      }
    }
  }

  /**
   * `editTask` leaves the list unchanged when the id is missing, empty or
   * unknown; otherwise it rewrites the first task with that id, merged with
   * the payload, and no other task.
   */
  lemma EditFirstSpec(tasks: seq<Task>, p: TaskPatch)
    ensures |EditFirst(tasks, p)| == |tasks|
    ensures MissingId(p) || p.id.value !in Keys(tasks, TaskKey) ==> EditFirst(tasks, p) == tasks
    ensures !MissingId(p) && p.id.value in Keys(tasks, TaskKey) ==>
      exists k :: 0 <= k < |tasks| && tasks[k].id == p.id.value
        && (forall i :: 0 <= i < k ==> tasks[i].id != p.id.value)
        && EditFirst(tasks, p) == tasks[k := ApplyPatch(tasks[k], p)]
  {
    if !MissingId(p) {
      var i := FindIndex(tasks, TaskKey, p.id.value);
      if p.id.value in Keys(tasks, TaskKey) {
        var k :| 0 <= k < |tasks| && tasks[k].id == p.id.value;
        assert TaskKey(tasks[k]) == p.id.value;
        assert i != -1;
      } else {
        assert forall k :: 0 <= k < |tasks| ==> TaskKey(tasks[k]) in Keys(tasks, TaskKey);
      }
    }
  }

  /** An edit never changes which id sits at which position. */
  lemma EditFirstKeepsIds(tasks: seq<Task>, p: TaskPatch)
    ensures |EditFirst(tasks, p)| == |tasks|
    ensures forall k :: 0 <= k < |tasks| ==> EditFirst(tasks, p)[k].id == tasks[k].id
    ensures UniqueKeys(tasks, TaskKey) ==> UniqueKeys(EditFirst(tasks, p), TaskKey)
  {
  }

  /** Fields the payload leaves out keep their values. */
  lemma ApplyPatchKeepsAbsentFields(t: Task, p: TaskPatch)
    ensures p.title.None? ==> ApplyPatch(t, p).title == t.title
    ensures p.priority.None? ==> ApplyPatch(t, p).priority == t.priority
    ensures p.status.None? ==> ApplyPatch(t, p).status == t.status
    ensures p.createdAt.None? ==> ApplyPatch(t, p).createdAt == t.createdAt
    ensures p.dueDate.KeepDue? ==> ApplyPatch(t, p).dueDate == t.dueDate
    ensures p == TaskPatch(None, None, None, None, None, KeepDue) ==> ApplyPatch(t, p) == t
  {
  }

  /** Applying the same edit twice is the same as applying it once. */
  lemma EditFirstIdempotent(tasks: seq<Task>, p: TaskPatch)
    ensures EditFirst(EditFirst(tasks, p), p) == EditFirst(tasks, p)
  {
    EditFirstKeepsIds(tasks, p);
    if !MissingId(p) {
      var r := EditFirst(tasks, p);
      var i := FindIndex(tasks, TaskKey, p.id.value);
      var j := FindIndex(r, TaskKey, p.id.value);
      assert forall k :: 0 <= k < |tasks| ==> TaskKey(r[k]) == TaskKey(tasks[k]);
      assert i == j by {
        if i == -1 {
          assert forall k :: 0 <= k < |r| ==> TaskKey(r[k]) != p.id.value;
        } else {
          assert TaskKey(r[i]) == p.id.value;
          assert forall k :: 0 <= k < i ==> TaskKey(r[k]) != p.id.value;
        }
      }
    }
  }

  /**
   * The top tasks are active tasks of the list, in ranking order, and no
   * active task left out ranks strictly above one that is shown.
   */
  lemma TopTasksAreBest(tasks: seq<Task>, today: int)
    ensures var top := TodayTopTasks(tasks, today);
      && (forall i :: 0 <= i < |top| ==> top[i] in tasks && top[i].status != COMPLETED)
      && Algorithm.Ranked(top, today)
    ensures var ranked := Algorithm.WeightedTasks(tasks, today);
      forall i, j :: 0 <= i < TOP_TASK_COUNT <= j < |ranked| ==>
        Algorithm.Compare(ranked[i], ranked[j], today) <= 0
  {
    var ranked := Algorithm.WeightedTasks(tasks, today);
    var top := TodayTopTasks(tasks, today);
    forall i | 0 <= i < |top| ensures top[i] in tasks && top[i].status != COMPLETED {
      assert top[i] == ranked[i];
      Algorithm.RankingMembership(tasks, today, ranked[i]);
    }
  }
}
