/**
 * The add/edit task form (`TaskModal`): a form record and a calendar-visibility
 * flag, replaced property by property by the form's handlers, a prefill rule run
 * whenever the modal opens, and a save guard that refuses a blank title.
 */
module TaskModal {
  import opened Wrappers
  import opened Text
  import opened TaskStore

  /** The form record; unlike a stored task, description and priority are always set. */
  datatype FormData = FormData(
    title: string,
    description: string,
    dueDate: string,
    priority: Priority,
    status: Status)
  {
    /** The record as `addTask` receives it: the five properties, all present. */
    function AsInput(): TaskInput {
      TaskInput(title, Some(description), status, dueDate, Some(priority))
    }

    /** The record as `updateTask` receives it: the five form properties present,
        `id`, `createdAt` and `updatedAt` absent. */
    function AsPatch(): TaskPatch {
      TaskPatch(Keep, Put(title), Put(Some(description)), Put(status), Put(dueDate),
                Put(Some(priority)), Keep, Keep)
    }
  }

  /** The record of a form opened for a new task. */
  const EmptyForm := FormData("", "", "", Medium, Pending)

  /** The record the prefill effect installs: a copy of the task being edited,
      with "" for a missing description and Medium for a missing priority, or the
      empty form when creating. */
  function PrefillFor(editingTask: Option<Task>): (f: FormData)
    ensures editingTask.None? ==> f.title == "" && f.description == "" && f.dueDate == ""
    ensures editingTask.None? ==> f.priority == Medium && f.status == Pending
    ensures editingTask.Some? ==> f.title == editingTask.value.title
    ensures editingTask.Some? ==> f.status == editingTask.value.status
    ensures editingTask.Some? ==> f.dueDate == editingTask.value.dueDate
    ensures editingTask.Some? && editingTask.value.description.Some? ==>
      f.description == editingTask.value.description.value
    ensures editingTask.Some? && editingTask.value.description.None? ==> f.description == ""
    ensures editingTask.Some? && editingTask.value.priority.Some? ==>
      f.priority == editingTask.value.priority.value
    ensures editingTask.Some? && editingTask.value.priority.None? ==> f.priority == Medium
  {
    match editingTask
    case Some(t) =>
      FormData(t.title, t.description.GetOr(""), t.dueDate, t.priority.GetOr(Medium), t.status)
    case None => EmptyForm
  }

  class TaskForm {
    var formData: FormData
    var showCalendar: bool

    /** Initial state: the empty form, calendar hidden. */
    constructor ()
      ensures formData == EmptyForm && !showCalendar
    {
      formData := EmptyForm;
      showCalendar := false;
    }

    /** The effect run when `editingTask` or `visible` changes. */
    method Prefill(editingTask: Option<Task>)
      modifies this`formData
      ensures formData == PrefillFor(editingTask)
    {
      formData := PrefillFor(editingTask);
    }

    /** `handleSaveTask`: nothing is handed on when the title is empty or all
        whitespace; otherwise the form record is handed to `onSave` exactly as it
        stands, untrimmed title included. The form itself is not changed. */
    method HandleSaveTask() returns (saved: Option<FormData>)
      ensures saved.None? <==> forall i :: 0 <= i < |formData.title| ==> IsWhitespace(formData.title[i])
      ensures saved.Some? ==> saved.value == formData
    {
      if IsBlank(formData.title) {
        return None;
      }
      saved := Some(formData);
    }

    /** The title input's `onChangeText`. */
    method SetTitle(text: string)
      modifies this`formData
      ensures formData == old(formData).(title := text)
    {
      formData := formData.(title := text);
    }

    /** The description input's `onChangeText`. */
    method SetDescription(text: string)
      modifies this`formData
      ensures formData == old(formData).(description := text)
    {
      formData := formData.(description := text);
    }

    /** A priority button. */
    method SetPriority(priority: Priority)
      modifies this`formData
      ensures formData == old(formData).(priority := priority)
    {
      formData := formData.(priority := priority);
    }

    /** A status button. */
    method SetStatus(status: Status)
      modifies this`formData
      ensures formData == old(formData).(status := status)
    {
      formData := formData.(status := status);
    }

    /** The due-date field: shows the calendar. */
    method OpenCalendar()
      modifies this`showCalendar
      ensures showCalendar
    {
      showCalendar := true;
    }

    /** The calendar's Done button: hides it. */
    method CloseCalendar()
      modifies this`showCalendar
      ensures !showCalendar
    {
      showCalendar := false;
    }

    /** `handleDateSelect`, given the date already formatted: sets the due date,
        keeps every other property of the form, and hides the calendar. */
    method HandleDateSelect(dateString: string)
      modifies this
      ensures formData == old(formData).(dueDate := dateString)
      ensures !showCalendar
    {
      formData := formData.(dueDate := dateString);
      showCalendar := false;
    }
  }

  /** A form opened for a new task cannot be saved until a title is typed. */
  lemma NewFormIsRefused()
    ensures IsBlank(PrefillFor(None).title)
  {
  }

  /** Opening a task for edit and saving the form untouched writes the task back
      as it was, except that a missing description becomes "", a missing priority
      becomes Medium, and `updatedAt` is stamped. */
  lemma UntouchedEditSavesBack(t: Task, now: string)
    ensures Merge(t, PrefillFor(Some(t)).AsPatch(), now)
      == t.(description := Some(t.description.GetOr("")),
            priority := Some(t.priority.GetOr(Medium)),
            updatedAt := now)
  {
  }

  /** An update made through the form never touches a task's `id` or `createdAt`,
      because the form record does not carry them. */
  lemma FormUpdateKeepsIdentity(t: Task, f: FormData, now: string)
    ensures Merge(t, f.AsPatch(), now).id == t.id
    ensures Merge(t, f.AsPatch(), now).createdAt == t.createdAt
    ensures Merge(t, f.AsPatch(), now).title == f.title
  {
  }
}
