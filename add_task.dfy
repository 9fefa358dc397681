/**
 * The add/edit task screen: the form, its validation, the store action a
 * submitted form becomes, and deleting the task being edited.
 *
 * The task passed to the screen arrives as JSON text; whether it parsed is
 * the `TaskParam` argument. Due dates are day numbers, so the conversion to
 * a `Date` and back to an ISO string is the identity here.
 */
module AddTask {
  import opened Data
  import opened Numbers
  import opened MainSlice
  import Algorithm

  /** The form; `None` is an unset (`undefined`) field. */
  datatype Form = Form(title: string, priority: Option<int>, dueDate: Option<int>, status: Option<int>)

  /** The form a new task starts from: empty title, no priority, To Do. */
  const DEFAULT_FORM: Form := Form("", None, None, Some(TO_DO))

  /** One `updateForm(key, value)` call. */
  datatype FormField =
    | TitleField(title: string)
    | PriorityField(priority: Option<int>)
    | DueDateField(dueDate: Option<int>)
    | StatusField(status: Option<int>)

  /** `{ ...prev, [key]: value }`. */
  function SetField(f: Form, field: FormField): Form {
    match field
    case TitleField(v) => f.(title := v)
    case PriorityField(v) => f.(priority := v)
    case DueDateField(v) => f.(dueDate := v)
    case StatusField(v) => f.(status := v)
  }

  /** An update writes its own field and leaves the other three as they were. */
  lemma SetFieldFrame(f: Form, field: FormField)
    ensures var g := SetField(f, field);
      && (if field.TitleField? then g.title == field.title else g.title == f.title)
      && (if field.PriorityField? then g.priority == field.priority else g.priority == f.priority)
      && (if field.DueDateField? then g.dueDate == field.dueDate else g.dueDate == f.dueDate)
      && (if field.StatusField? then g.status == field.status else g.status == f.status)
  {
  }

  /** JavaScript's `!x` on an optional number: unset or zero. */
  predicate Falsy(x: Option<int>) { x.None? || x.value == 0 }

  /** The alert `handleSubmit` raises, in the order the checks run. */
  datatype FormError = MissingTitle | MissingPriority | MissingStatus

  /** `handleSubmit`'s checks: a non-blank title, then a priority, then a status. */
  function ValidateForm(f: Form): (r: Option<FormError>)
    ensures r.None? <==> Trim(f.title) != "" && !Falsy(f.priority) && !Falsy(f.status)
    ensures r == Some(MissingTitle) <==> Trim(f.title) == ""
    ensures r == Some(MissingPriority) <==> Trim(f.title) != "" && Falsy(f.priority)
    ensures r == Some(MissingStatus) <==> Trim(f.title) != "" && !Falsy(f.priority) && Falsy(f.status)
  {
    if |f.title| == 0 || Trim(f.title) == "" then Some(MissingTitle)
    else if Falsy(f.priority) then Some(MissingPriority)
    else if Falsy(f.status) then Some(MissingStatus)
    else None
  }

  /**
   * A title of white space only is as missing as an empty one, and the
   * untouched form is refused for its title.
   */
  lemma BlankTitleRefused(f: Form)
    ensures (forall i :: 0 <= i < |f.title| ==> IsWhitespace(f.title[i])) ==> ValidateForm(f) == Some(MissingTitle)
    ensures ValidateForm(DEFAULT_FORM) == Some(MissingTitle)
  {
    TrimEmptyIffBlank(f.title);
    assert |DEFAULT_FORM.title| == 0;
  }

  /** What a valid form is dispatched as. */
  datatype Action = AddAction(payload: NewTask) | EditAction(patch: TaskPatch)

  /**
   * The edit payload `{ id: taskId, ...form, dueDate }`: every form field
   * is present, so a cleared due date clears the task's due date.
   */
  function EditPatch(id: Id, f: Form): TaskPatch
    requires f.priority.Some? && f.status.Some?
  {
    TaskPatch(Some(id), Some(f.title), f.priority, f.status, None, SetDue(f.dueDate))
  }

  /** `isEditMode && taskId`: an edit needs a non-empty id. */
  predicate EditsTask(isEditMode: bool, taskId: Option<Id>) {
    isEditMode && taskId.Some? && taskId.value != ""
  }

  /** `handleSubmit` on values: the refusal, or the action dispatched. */
  function SubmitAction(f: Form, isEditMode: bool, taskId: Option<Id>): (r: Result<Action, FormError>)
    ensures r.Failure? <==> ValidateForm(f).Some?
    ensures r.Failure? ==> r.error == ValidateForm(f).value
    ensures r.Success? ==> (r.value.EditAction? <==> EditsTask(isEditMode, taskId))
    ensures r.Success? && r.value.AddAction? ==>
      r.value.payload == NewTask(f.title, f.priority.value, f.status.value, f.dueDate)
    ensures r.Success? && r.value.EditAction? ==>
      var p := r.value.patch;
      p.id == taskId && p.title == Some(f.title) && p.priority == f.priority && p.status == f.status
      && p.createdAt.None? && p.dueDate == SetDue(f.dueDate)
  {
    match ValidateForm(f)
    case Some(e) => Failure(e)
    case None =>
      if EditsTask(isEditMode, taskId) then Success(EditAction(EditPatch(taskId.value, f)))
      else Success(AddAction(NewTask(f.title, f.priority.value, f.status.value, f.dueDate)))
  }

  /** The form filled in from a task being edited. */
  function LoadForm(t: Task): Form {
    Form(t.title, Some(t.priority), t.dueDate, Some(t.status))
  }

  /**
   * Opening a stored task for editing and saving the form untouched leaves
   * the task list as it was, provided the task passes validation (ids are
   * unique, so the edit hits this very task).
   */
  lemma EditUnchangedRoundTrip(tasks: seq<Task>, t: Task)
    requires UniqueKeys(tasks, TaskKey) && t in tasks
    requires t.id != "" && Trim(t.title) != "" && t.priority != 0 && t.status != 0
    ensures SubmitAction(LoadForm(t), true, Some(t.id)).Success?
    ensures var r := SubmitAction(LoadForm(t), true, Some(t.id));
      r.value.EditAction? && EditFirst(tasks, r.value.patch) == tasks
  {
    var k := UniqueIndex(tasks, t);
    var p := LoadedEditAction(t);
    assert ApplyPatch(t, p) == t;
    assert tasks[k := t] == tasks;
  }

  /** With unique ids, looking up a listed task's id finds that very task. */
  lemma UniqueIndex(tasks: seq<Task>, t: Task) returns (k: nat)
    requires UniqueKeys(tasks, TaskKey) && t in tasks
    ensures k < |tasks| && tasks[k] == t && FindIndex(tasks, TaskKey, t.id) == k
  {
    k :| 0 <= k < |tasks| && tasks[k] == t;
  }

  /** A loaded, valid task is submitted as an edit carrying its own fields. */
  lemma LoadedEditAction(t: Task) returns (p: TaskPatch)
    requires t.id != "" && Trim(t.title) != "" && t.priority != 0 && t.status != 0
    ensures p == EditPatch(t.id, LoadForm(t))
    ensures SubmitAction(LoadForm(t), true, Some(t.id)) == Success(EditAction(p))
  {
    var f := LoadForm(t);
    assert ValidateForm(f).None?;
    p := EditPatch(t.id, f);
  }

  /**
   * A task added from the form with a status other than Completed is
   * among the ranked tasks right away.
   */
  lemma AddedTaskIsRanked(tasks: seq<Task>, f: Form, freshId: Id, now: int, today: int)
    requires SubmitAction(f, false, None).Success?
    requires f.status != Some(COMPLETED)
    ensures var r := SubmitAction(f, false, None);
      r.value.AddAction?
      && NewTaskRecord(r.value.payload, freshId, now) in
           Algorithm.WeightedTasks(tasks + [NewTaskRecord(r.value.payload, freshId, now)], today)
  {
    var r := SubmitAction(f, false, None);
    var t := NewTaskRecord(r.value.payload, freshId, now);
    Algorithm.RankingMembership(tasks + [t], today, t);
  }

  /** The `task` route parameter. */
  datatype TaskParam = NoTask | Unparsable | Parsed(task: Task)

  class Screen {
    const store: MainStore
    var form: Form
    var isEditMode: bool
    var taskId: Option<Id>

    constructor (store: MainStore)
      ensures this.store == store && form == DEFAULT_FORM && !isEditMode && taskId.None?
    {
      this.store := store;
      form := DEFAULT_FORM;
      isEditMode := false;
      taskId := None;
    }

    /**
     * The mount effect: a task that parsed switches to edit mode and fills
     * the form; a missing or unparsable one changes nothing.
     */
    method LoadTask(param: TaskParam)
      modifies this`form, this`isEditMode, this`taskId
      ensures param.Parsed? ==> isEditMode && taskId == Some(param.task.id) && form == LoadForm(param.task)
      ensures !param.Parsed? ==> form == old(form) && isEditMode == old(isEditMode) && taskId == old(taskId)
    {
      if param.Parsed? {
        isEditMode := true;
        taskId := Some(param.task.id);
        form := LoadForm(param.task);
      }
    }

    /** `updateForm`. */
    method UpdateForm(field: FormField)
      modifies this`form
      ensures form == SetField(old(form), field)
    {
      form := SetField(form, field);
    }

    /**
     * `handleSubmit`: a refused form raises its alert and changes nothing;
     * a valid one is added or edited and the screen is left.
     */
    method Submit(freshId: Id, now: int) returns (alert: Option<FormError>, navigateBack: bool)
      modifies store`tasks
      ensures match SubmitAction(form, isEditMode, taskId)
        case Failure(e) => alert == Some(e) && !navigateBack && store.tasks == old(store.tasks)
        case Success(AddAction(p)) =>
          alert.None? && navigateBack && store.tasks == old(store.tasks) + [NewTaskRecord(p, freshId, now)]
        case Success(EditAction(p)) =>
          alert.None? && navigateBack && store.tasks == EditFirst(old(store.tasks), p)
      ensures old(store.Valid()) && freshId !in Keys(old(store.tasks), TaskKey) ==> store.Valid()
    {
      var action := SubmitAction(form, isEditMode, taskId);
      if action.Failure? {
        alert := Some(action.error);
        navigateBack := false;
        return;
      }
      match action.value {
        case AddAction(p) => store.AddTask(p, freshId, now);
        case EditAction(p) => store.EditTask(p);
      }
      alert := None;
      navigateBack := true;
    }

    /**
     * `handleDelete`: outside edit mode, or without an id, nothing happens;
     * otherwise the task is deleted when the user confirms, and the screen
     * is left.
     */
    method HandleDelete(userConfirms: bool) returns (navigateBack: bool)
      modifies store`tasks
      ensures navigateBack <==> EditsTask(isEditMode, taskId) && userConfirms
      ensures store.tasks == if navigateBack then DeleteFirst(old(store.tasks), TaskKey, taskId.value)
                             else old(store.tasks)
      ensures old(store.Valid()) ==> store.Valid()
    {
      navigateBack := false;
      if !EditsTask(isEditMode, taskId) {
        return;
      }
      if userConfirms {
        store.DeleteTask(taskId.value);
        navigateBack := true;
      }
    }
  }
}
