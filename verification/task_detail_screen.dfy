/**
 * The task detail screen: the shown task `task`, an edit buffer `editedTask`, an
 * edit-mode flag and the comment input. Edits go to the buffer; Save commits it,
 * Cancel throws it away. The screen keeps its own task record, not the store's.
 */
module TaskDetailScreen {
  import opened Text
  import TaskStore

  /** The record this screen shows (richer than a stored task). */
  datatype DetailTask = DetailTask(
    id: string,
    title: string,
    description: string,
    status: TaskStore.Status,
    priority: TaskStore.Priority,
    dueDate: string,
    createdAt: string,
    category: string,
    estimatedTime: string,
    attachments: int,
    comments: int,
    isUrgent: bool,
    isFavorite: bool)

  /** The task the screen starts with. */
  const InitialTask := DetailTask(
    "1",
    "Design Project UI",
    "Create modern and responsive user interface designs for the new project. "
      + "Focus on user experience and accessibility standards.",
    TaskStore.InProgress,
    TaskStore.High,
    "2025-11-11",
    "2025-11-01",
    "Design",
    "8 hours",
    3,
    5,
    true,
    false)

  class TaskDetail {
    var task: DetailTask
    var editedTask: DetailTask
    var isEditing: bool
    var newComment: string

    /** Initial state: the buffer is a copy of the task, not editing, no comment typed. */
    constructor ()
      ensures task == InitialTask && editedTask == task && !isEditing && newComment == ""
    {
      task := InitialTask;
      editedTask := InitialTask;
      isEditing := false;
      newComment := "";
    }

    /** `handleSave`: commits the buffer and leaves edit mode. */
    method HandleSave()
      modifies this
      ensures task == old(editedTask) && editedTask == old(editedTask)
      ensures !isEditing && newComment == old(newComment)
    {
      task := editedTask;
      isEditing := false;
    }

    /** The Cancel button: leaves edit mode and discards the buffer's edits. */
    method Cancel()
      modifies this
      ensures task == old(task) && editedTask == old(task)
      ensures !isEditing && newComment == old(newComment)
    {
      isEditing := false;
      editedTask := task;
    }

    /** The header's edit button: flips edit mode and leaves the buffer as it is,
        so edits not yet saved are still there when edit mode is entered again. */
    method ToggleEditing()
      modifies this`isEditing
      ensures isEditing == !old(isEditing)
    {
      isEditing := !isEditing;
    }

    /** `handleStatusChange`: sets the buffer's status. */
    method HandleStatusChange(newStatus: TaskStore.Status)
      modifies this`editedTask
      ensures editedTask == old(editedTask).(status := newStatus)
    {
      editedTask := editedTask.(status := newStatus);
    }

    /** `handlePriorityChange`: sets the buffer's priority. */
    method HandlePriorityChange(newPriority: TaskStore.Priority)
      modifies this`editedTask
      ensures editedTask == old(editedTask).(priority := newPriority)
    {
      editedTask := editedTask.(priority := newPriority);
    }

    /** The title input shown in edit mode. */
    method EditTitle(text: string)
      modifies this`editedTask
      ensures editedTask == old(editedTask).(title := text)
    {
      editedTask := editedTask.(title := text);
    }

    /** The description input shown in edit mode. */
    method EditDescription(text: string)
      modifies this`editedTask
      ensures editedTask == old(editedTask).(description := text)
    {
      editedTask := editedTask.(description := text);
    }

    /** `toggleFavorite`: flips the buffer's favourite flag (the shown task keeps its own). */
    method ToggleFavorite()
      modifies this`editedTask
      ensures editedTask == old(editedTask).(isFavorite := !old(editedTask).isFavorite)
    {
      editedTask := editedTask.(isFavorite := !editedTask.isFavorite);
    }

    /** `markAsComplete`: sets status Completed in both the task and the buffer,
        each keeping its other properties. */
    method MarkAsComplete()
      modifies this
      ensures task == old(task).(status := TaskStore.Completed)
      ensures editedTask == old(editedTask).(status := TaskStore.Completed)
      ensures isEditing == old(isEditing) && newComment == old(newComment)
    {
      task := task.(status := TaskStore.Completed);
      editedTask := editedTask.(status := TaskStore.Completed);
    }

    /** The comment input's `onChangeText`. */
    method SetNewComment(text: string)
      modifies this`newComment
      ensures newComment == text
    {
      newComment := text;
    }

    /** `addComment`: clears the input when it holds some non-whitespace
        character, and otherwise does nothing; no comment is stored and the
        comment count is never changed. */
    method AddComment()
      modifies this`newComment
      ensures (forall i :: 0 <= i < |old(newComment)| ==> IsWhitespace(old(newComment)[i]))
              ==> newComment == old(newComment)
      ensures (exists i :: 0 <= i < |old(newComment)| && !IsWhitespace(old(newComment)[i]))
              ==> newComment == ""
    {
      if !IsBlank(newComment) {
        newComment := "";
      }
    }
  }

  /** Toggling the favourite flag twice gives back the buffer it started from. */
  method FavoriteTwiceRestores(d: TaskDetail)
    modifies d
    ensures d.editedTask == old(d.editedTask) && d.task == old(d.task)
  {
    d.ToggleFavorite();
    d.ToggleFavorite();
  }

  /** Closing edit mode with the header button and opening it again keeps an
      unsaved status change in the buffer, while the shown task never sees it. */
  method UnsavedEditSurvivesToggle(d: TaskDetail, s: TaskStore.Status)
    requires !d.isEditing
    modifies d
    ensures d.isEditing && d.editedTask.status == s && d.task == old(d.task)
  {
    d.ToggleEditing();
    d.HandleStatusChange(s);
    d.ToggleEditing();
    d.ToggleEditing();
  }

  /** Whatever was edited, Cancel brings the buffer back to the shown task, and
      Save, once edit mode is entered again, commits nothing new. */
  method CancelThenSaveChangesNothing(d: TaskDetail, s: TaskStore.Status, title: string)
    modifies d
    ensures d.task == old(d.task) && d.editedTask == old(d.task) && !d.isEditing
  {
    d.HandleStatusChange(s);
    d.EditTitle(title);
    d.Cancel();
    d.ToggleEditing();
    d.HandleSave();
  }
}
