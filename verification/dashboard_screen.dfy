/**
 * The dashboard screen: a snapshot of the store's list in screen state, the
 * status counts and "first three unless expanded" view derived from it, and the
 * handlers that drive the store (save from the form, confirmed delete, sample tasks).
 */
module DashboardScreen {
  import opened Wrappers
  import opened TaskStore
  import opened TaskModal

  /** The summary card for `status`: how many listed tasks have exactly that status. */
  function StatusCount(tasks: seq<Task>, status: Status): (n: nat)
    ensures n <= |tasks|
    ensures n == 0 <==> forall t :: t in tasks ==> t.status != status
  {
    var r := WithStatus(tasks, status);
    assert r != [] ==> r[0] in r;
    |r|
  }

  /** The three summary cards together count every listed task once. */
  lemma {:induction false} StatusCountsSumToTotal(tasks: seq<Task>)
    ensures StatusCount(tasks, Pending) + StatusCount(tasks, InProgress)
            + StatusCount(tasks, Completed) == |tasks|
  {
    if tasks != [] {
      StatusCountsSumToTotal(tasks[1..]);
    }
  }

  /** A newly added task raises the count of its own status by one and no other. */
  lemma StatusCountAfterAdd(t: Task, tasks: seq<Task>, status: Status)
    ensures StatusCount([t] + tasks, status)
            == StatusCount(tasks, status) + (if t.status == status then 1 else 0)
  {
  }

  /** The list shown: everything when expanded, otherwise at most the first three
      tasks, in store order. */
  function DisplayedTasks(tasks: seq<Task>, isViewAllVisible: bool): (r: seq<Task>)
    ensures |r| <= |tasks| && r == tasks[..|r|]
    ensures isViewAllVisible ==> |r| == |tasks|
    ensures !isViewAllVisible ==> |r| == (if |tasks| < 3 then |tasks| else 3)
  {
    if isViewAllVisible then tasks else tasks[..if |tasks| < 3 then |tasks| else 3]
  }

  /** Whether the "See All" button is shown. */
  predicate ShowSeeAll(tasks: seq<Task>, isViewAllVisible: bool): (b: bool)
    ensures b <==> |DisplayedTasks(tasks, isViewAllVisible)| < |tasks|
  {
    !isViewAllVisible && |tasks| > 3
  }

  /** Whether the "Collapse" button is shown. */
  predicate ShowCollapse(tasks: seq<Task>, isViewAllVisible: bool): (b: bool)
    ensures b ==> DisplayedTasks(tasks, isViewAllVisible) == tasks && tasks != []
  {
    isViewAllVisible && |tasks| > 0
  }

  /** "See All" is offered exactly when the displayed list hides some task; the
      two buttons are never shown together; with more than three tasks one of
      them is always shown. */
  lemma HeaderButtons(tasks: seq<Task>, isViewAllVisible: bool)
    ensures ShowSeeAll(tasks, isViewAllVisible)
            <==> |DisplayedTasks(tasks, isViewAllVisible)| < |tasks|
    ensures !(ShowSeeAll(tasks, isViewAllVisible) && ShowCollapse(tasks, isViewAllVisible))
    ensures |tasks| > 3 ==> ShowSeeAll(tasks, isViewAllVisible) || ShowCollapse(tasks, isViewAllVisible)
  {
  }

  /** The three sample tasks, in the order `addSampleTasks` adds them; the due
      dates are the formatted dates two days on, one day on and today. */
  function SampleTasks(inTwoDays: string, tomorrow: string, today: string): (r: seq<TaskInput>)
    ensures |r| == 3
  {
    [ TaskInput("Plan weekly schedule",
                Some("Create and prioritize tasks for the upcoming week"),
                Pending, inTwoDays, Some(High)),
      TaskInput("Complete project proposal",
                Some("Finish writing and reviewing the client proposal"),
                InProgress, tomorrow, Some(High)),
      TaskInput("Team meeting preparation",
                Some("Prepare agenda and materials for team meeting"),
                Completed, today, Some(Medium)) ]
  }

  class Dashboard {
    const db: TasksDatabase
    var tasks: seq<Task>
    var isModalVisible: bool
    var isViewAllVisible: bool
    var editingTask: Option<Task>

    /** The screen's initial state: the store's list, modal closed, collapsed,
        nothing being edited. */
    constructor (db: TasksDatabase)
      ensures this.db == db && tasks == db.tasks
      ensures !isModalVisible && !isViewAllVisible && editingTask == None
    {
      this.db := db;
      tasks := db.tasks;
      isModalVisible := false;
      isViewAllVisible := false;
      editingTask := None;
    }

    /** `handleSaveTask`: with a task being edited, updates it in the store and
        refreshes the list only if the update found it; otherwise adds one task
        and refreshes. Either way editing ends and the modal closes. */
    method HandleSaveTask(formData: FormData, stamp: Stamp, now: string)
      modifies this, db
      ensures editingTask == None && !isModalVisible && isViewAllVisible == old(isViewAllVisible)
      ensures old(editingTask).Some? ==>
        var i := FindIndex(old(db.tasks), old(editingTask).value.id);
        && (i == -1 ==> db.tasks == old(db.tasks) && tasks == old(tasks))
        && (i >= 0 ==> db.tasks == old(db.tasks)[i := Merge(old(db.tasks)[i], formData.AsPatch(), now)]
                       && tasks == db.tasks)
      ensures old(editingTask).None? ==>
        db.tasks == [NewTask(formData.AsInput(), stamp)] + old(db.tasks) && tasks == db.tasks
    {
      if editingTask.Some? {
        var updated := db.UpdateTask(editingTask.value.id, formData.AsPatch(), now);
        if updated.Some? {
          tasks := db.GetAllTasks();
        }
      } else {
        var _ := db.AddTask(formData.AsInput(), stamp);
        tasks := db.GetAllTasks();
      }
      editingTask := None;
      isModalVisible := false;
    }

    /** The confirmed branch of `handleDeleteTask`: every task holding `id` leaves
        the store and the list is refreshed. */
    method HandleDeleteConfirmed(id: string)
      modifies this, db
      ensures db.tasks == WithoutId(old(db.tasks), id) && tasks == db.tasks
      ensures isModalVisible == old(isModalVisible) && isViewAllVisible == old(isViewAllVisible)
      ensures editingTask == old(editingTask)
    {
      var _ := db.DeleteTask(id);
      tasks := db.GetAllTasks();
    }

    /** `handleEditTask`: opens the modal on `task`. */
    method HandleEditTask(task: Task)
      modifies this
      ensures editingTask == Some(task) && isModalVisible
      ensures tasks == old(tasks) && isViewAllVisible == old(isViewAllVisible)
    {
      editingTask := Some(task);
      isModalVisible := true;
    }

    /** The floating add button (and the empty state's "Add Sample Schedule" button,
        which does the same): opens the modal for a new task. */
    method OpenNewTask()
      modifies this
      ensures editingTask == None && isModalVisible
      ensures tasks == old(tasks) && isViewAllVisible == old(isViewAllVisible)
    {
      editingTask := None;
      isModalVisible := true;
    }

    /** The modal's `onClose`: stops editing and closes the modal, store untouched. */
    method CloseModal()
      modifies this
      ensures editingTask == None && !isModalVisible
      ensures tasks == old(tasks) && isViewAllVisible == old(isViewAllVisible)
    {
      editingTask := None;
      isModalVisible := false;
    }

    /** The "See All" button: expands the list. */
    method SeeAll()
      modifies this`isViewAllVisible
      ensures isViewAllVisible
    {
      isViewAllVisible := true;
    }

    /** The "Collapse" button: back to the first three. */
    method Collapse()
      modifies this`isViewAllVisible
      ensures !isViewAllVisible
    {
      isViewAllVisible := false;
    }

    /** `addSampleTasks`: adds the three samples one after the other, so the last
        one added ends up in front, then refreshes the list. */
    method AddSampleTasks(dueDates: seq<string>, stamps: seq<Stamp>)
      requires |dueDates| == 3 && |stamps| == 3
      modifies this, db
      ensures var samples := SampleTasks(dueDates[0], dueDates[1], dueDates[2]);
        db.tasks == [NewTask(samples[2], stamps[2]), NewTask(samples[1], stamps[1]),
                     NewTask(samples[0], stamps[0])] + old(db.tasks)
      ensures tasks == db.tasks
      ensures isModalVisible == old(isModalVisible) && isViewAllVisible == old(isViewAllVisible)
      ensures editingTask == old(editingTask)
      ensures db.tasks[0].title == "Team meeting preparation"
      ensures db.tasks[1].title == "Complete project proposal"
      ensures db.tasks[2].title == "Plan weekly schedule"
    {
      var samples := SampleTasks(dueDates[0], dueDates[1], dueDates[2]);
      var i := 0;
      while i < |samples|
        invariant 0 <= i <= |samples|
        invariant |db.tasks| == |old(db.tasks)| + i && db.tasks[i..] == old(db.tasks)
        invariant forall k :: 0 <= k < i ==> db.tasks[i - 1 - k] == NewTask(samples[k], stamps[k])
        invariant isModalVisible == old(isModalVisible) && isViewAllVisible == old(isViewAllVisible)
        invariant editingTask == old(editingTask)
      {
        var _ := db.AddTask(samples[i], stamps[i]);
        i := i + 1;
      }
      tasks := db.GetAllTasks();
    }
  }
}
