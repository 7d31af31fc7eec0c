/**
 * The in-memory task store (`TasksDatabase`): an ordered list of task records,
 * newest first, with add, update, delete and two lookups.
 *
 * The wall clock is injected: every `addTask` receives a `Stamp` holding the three
 * clock readings `addTask` takes (`Date.now()` for the id, then one
 * `toISOString()` each for `createdAt` and `updatedAt`), every `updateTask` the
 * single reading it takes for `updatedAt`. Nothing makes ids unique; uniqueness is
 * proved below only for callers that supply a fresh id.
 */
module TaskStore {
  import opened Wrappers

  datatype Status = Pending | InProgress | Completed
  datatype Priority = Low | Medium | High

  /** A stored task; `description` and `priority` are optional properties. */
  datatype Task = Task(
    id: string,
    title: string,
    description: Option<string>,
    status: Status,
    dueDate: string,
    priority: Option<Priority>,
    createdAt: string,
    updatedAt: string)

  /** The argument of `addTask`: a task without `id`, `createdAt` and `updatedAt`. */
  datatype TaskInput = TaskInput(
    title: string,
    description: Option<string>,
    status: Status,
    dueDate: string,
    priority: Option<Priority>)

  /** One property of a `Partial<Task>`: the key is either not there (`Keep`) or
      there with a value (`Put`); for an optional property the value may be undefined. */
  datatype Field<T> = Keep | Put(value: T) {
    function Over(prev: T): T {
      if Put? then value else prev
    }
  }

  /** The argument of `updateTask`: any subset of the task's properties, `id` and
      `createdAt` included, since `updateTask` does not exclude them. */
  datatype TaskPatch = TaskPatch(
    id: Field<string>,
    title: Field<string>,
    description: Field<Option<string>>,
    status: Field<Status>,
    dueDate: Field<string>,
    priority: Field<Option<Priority>>,
    createdAt: Field<string>,
    updatedAt: Field<string>)

  const NoChanges := TaskPatch(Keep, Keep, Keep, Keep, Keep, Keep, Keep, Keep)

  /** The three clock readings of one `addTask` call: the millisecond count that
      becomes the id, and two separate ISO timestamps. */
  datatype Stamp = Stamp(millis: string, createdAt: string, updatedAt: string)

  /** The record `addTask` builds: every input property copied, identity and
      timestamps taken from the clock. */
  function NewTask(input: TaskInput, stamp: Stamp): (t: Task)
    ensures t.id == stamp.millis && t.createdAt == stamp.createdAt && t.updatedAt == stamp.updatedAt
    ensures t.title == input.title && t.description == input.description && t.status == input.status
    ensures t.dueDate == input.dueDate && t.priority == input.priority
  {
    Task(stamp.millis, input.title, input.description, input.status, input.dueDate,
         input.priority, stamp.createdAt, stamp.updatedAt)
  }

  /** `{ ...t, ...updates, updatedAt: now }`: a shallow merge in which every
      property present in `updates` wins, then `updatedAt` is forced to `now`. */
  function Merge(t: Task, updates: TaskPatch, now: string): (r: Task)
    ensures r.updatedAt == now
  {
    Task(
      updates.id.Over(t.id),
      updates.title.Over(t.title),
      updates.description.Over(t.description),
      updates.status.Over(t.status),
      updates.dueDate.Over(t.dueDate),
      updates.priority.Over(t.priority),
      updates.createdAt.Over(t.createdAt),
      now)
  }

  /** `findIndex(t => t.id === id)`: the first index holding `id`, or -1. */
  function FindIndex(ts: seq<Task>, id: string): (r: int)
    ensures -1 <= r < |ts|
    ensures r == -1 <==> forall j :: 0 <= j < |ts| ==> ts[j].id != id
    ensures r >= 0 ==> ts[r].id == id && forall j :: 0 <= j < r ==> ts[j].id != id
  {
    if ts == [] then -1
    else if ts[0].id == id then 0
    else
      var k := FindIndex(ts[1..], id);
      if k == -1 then -1 else k + 1
  }

  /** `find(t => t.id === id) || null`: the first task holding `id`, if any. */
  function Find(ts: seq<Task>, id: string): (r: Option<Task>)
    ensures r.Some? ==> r.value in ts && r.value.id == id
    ensures r.None? ==> forall t :: t in ts ==> t.id != id
  {
    if ts == [] then None
    else if ts[0].id == id then Some(ts[0])
    else Find(ts[1..], id)
  }

  /** `filter(t => t.id !== id)`: every task not holding `id`, in store order. */
  function WithoutId(ts: seq<Task>, id: string): (r: seq<Task>)
    ensures |r| <= |ts|
    ensures forall t :: t in r <==> t in ts && t.id != id
  {
    if ts == [] then []
    else if ts[0].id != id then [ts[0]] + WithoutId(ts[1..], id)
    else WithoutId(ts[1..], id)
  }

  /** `filter(t => t.status === status)`: every task with that status, in store order. */
  function WithStatus(ts: seq<Task>, status: Status): (r: seq<Task>)
    ensures |r| <= |ts|
    ensures forall t :: t in r <==> t in ts && t.status == status
  {
    if ts == [] then []
    else if ts[0].status == status then [ts[0]] + WithStatus(ts[1..], status)
    else WithStatus(ts[1..], status)
  }

  /** No two stored tasks share an id: nothing in `TasksDatabase` enforces it. */
  ghost predicate UniqueIds(ts: seq<Task>) {
    forall i, j :: 0 <= i < j < |ts| ==> ts[i].id != ts[j].id
  }

  class TasksDatabase {
    var tasks: seq<Task>

    /** The store starts empty. */
    constructor ()
      ensures tasks == []
    {
      tasks := [];
    }

    /** `getAllTasks`: the whole list in store order, unchanged. */
    method GetAllTasks() returns (r: seq<Task>)
      ensures r == tasks
    {
      r := tasks;
    }

    /** `addTask`: builds the record from the input and the clock and puts it in
        front (`unshift`); every earlier task follows in its old order. */
    method AddTask(input: TaskInput, stamp: Stamp) returns (t: Task)
      modifies this
      ensures t == NewTask(input, stamp)
      ensures tasks == [t] + old(tasks)
    {
      t := NewTask(input, stamp);
      tasks := [t] + tasks;
    }

    /** `updateTask`: null and no change for an unknown id; otherwise the first
        task holding `id` is replaced by the merge, and the merged record returned. */
    method UpdateTask(id: string, updates: TaskPatch, now: string) returns (r: Option<Task>)
      modifies this
      ensures FindIndex(old(tasks), id) == -1 ==> r == None && tasks == old(tasks)
      ensures FindIndex(old(tasks), id) >= 0 ==>
        var i := FindIndex(old(tasks), id);
        && tasks == old(tasks)[i := Merge(old(tasks)[i], updates, now)]
        && r == Some(tasks[i])
    {
      var taskIndex := FindIndex(tasks, id);
      if taskIndex == -1 {
        return None;
      }
      tasks := tasks[taskIndex := Merge(tasks[taskIndex], updates, now)];
      r := Some(tasks[taskIndex]);
    }

    /** `deleteTask`: keeps every task not holding `id`, and reports whether the
        list got shorter, which is exactly whether some task held `id`. */
    method DeleteTask(id: string) returns (removed: bool)
      modifies this
      ensures tasks == WithoutId(old(tasks), id)
      ensures removed == (|tasks| < |old(tasks)|)
      ensures removed <==> exists t :: t in old(tasks) && t.id == id
    {
      var initialLength := |tasks|;
      WithoutIdShrinksIffPresent(tasks, id);
      tasks := WithoutId(tasks, id);
      removed := |tasks| < initialLength;
    }

    /** `getTaskById`: the first task holding `id`, or null. */
    method GetTaskById(id: string) returns (r: Option<Task>)
      ensures r.None? <==> forall j :: 0 <= j < |tasks| ==> tasks[j].id != id
      ensures r.Some? ==> r.value == tasks[FindIndex(tasks, id)]
    {
      r := Find(tasks, id);
      FindIsFirstIndex(tasks, id);
    }

    /** `getTasksByStatus`: exactly the tasks with that status, in store order. */
    method GetTasksByStatus(status: Status) returns (r: seq<Task>)
      ensures forall t :: t in r <==> t in tasks && t.status == status
      ensures r == WithStatus(tasks, status)
    {
      r := WithStatus(tasks, status);
    }
  }

  // ---------------------------------------------------------------------------
  // Properties of the store's operations

  /** `find` and `findIndex` agree: the task `getTaskById` returns is the one at
      the index `updateTask` would change. */
  lemma {:induction false} FindIsFirstIndex(ts: seq<Task>, id: string)
    ensures Find(ts, id).None? <==> FindIndex(ts, id) == -1
    ensures Find(ts, id).Some? ==> Find(ts, id).value == ts[FindIndex(ts, id)]
  {
    if ts != [] && ts[0].id != id {
      FindIsFirstIndex(ts[1..], id);
    }
  }

  /** Filtering by id distributes over concatenation: the tasks that remain keep
      their relative order. */
  lemma {:induction false} WithoutIdAppend(a: seq<Task>, b: seq<Task>, id: string)
    ensures WithoutId(a + b, id) == WithoutId(a, id) + WithoutId(b, id)
  {
    if a == [] {
      assert a + b == b;
    } else {
      assert (a + b)[1..] == a[1..] + b;
      WithoutIdAppend(a[1..], b, id);
    }
  }

  /** Filtering by status distributes over concatenation: the selected tasks keep
      their store order. */
  lemma {:induction false} WithStatusAppend(a: seq<Task>, b: seq<Task>, status: Status)
    ensures WithStatus(a + b, status) == WithStatus(a, status) + WithStatus(b, status)
  {
    if a == [] {
      assert a + b == b;
    } else {
      assert (a + b)[1..] == a[1..] + b;
      WithStatusAppend(a[1..], b, status);
    }
  }

  /** Delete with an id nobody holds leaves the list exactly as it was. */
  lemma {:induction false} WithoutAbsentId(ts: seq<Task>, id: string)
    requires forall t :: t in ts ==> t.id != id
    ensures WithoutId(ts, id) == ts
  {
    if ts != [] {
      assert ts == [ts[0]] + ts[1..];
      WithoutAbsentId(ts[1..], id);
    }
  }

  /** The list gets shorter under delete exactly when some task holds the id, so
      `deleteTask` returns true exactly then. */
  lemma {:induction false} WithoutIdShrinksIffPresent(ts: seq<Task>, id: string)
    ensures |WithoutId(ts, id)| < |ts| <==> exists t :: t in ts && t.id == id
  {
    if ts != [] {
      WithoutIdShrinksIffPresent(ts[1..], id);
      assert ts == [ts[0]] + ts[1..];
      if ts[0].id != id {
        assert forall t :: t in ts && t.id == id ==> t in ts[1..];
      }
    }
  }

  /** A second delete of the same id finds nothing: it returns false and changes nothing. */
  lemma SecondDeleteIsNoOp(ts: seq<Task>, id: string)
    ensures WithoutId(WithoutId(ts, id), id) == WithoutId(ts, id)
    ensures !(|WithoutId(WithoutId(ts, id), id)| < |WithoutId(ts, id)|)
  {
  }

  /** Tasks sharing one id are all removed by one delete: with duplicate ids
      (several `addTask` calls in one millisecond) delete takes them all. */
  lemma {:induction false} DeleteTakesEveryHolder(ts: seq<Task>, id: string)
    ensures |WithoutId(ts, id)| == |ts| - CountId(ts, id)
  {
    if ts != [] {
      DeleteTakesEveryHolder(ts[1..], id);
    }
  }

  /** The number of tasks holding `id`. */
  function CountId(ts: seq<Task>, id: string): (n: nat)
    ensures n <= |ts|
    ensures n == 0 <==> forall j :: 0 <= j < |ts| ==> ts[j].id != id
  {
    if ts == [] then 0
    else (if ts[0].id == id then 1 else 0) + CountId(ts[1..], id)
  }

  /** With unique ids every id is held at most once, so delete removes at most one task. */
  lemma {:induction false} UniqueIdsCountAtMostOne(ts: seq<Task>, id: string)
    requires UniqueIds(ts)
    ensures CountId(ts, id) <= 1
  {
    if ts != [] {
      assert UniqueIds(ts[1..]) by {
        forall i, j | 0 <= i < j < |ts[1..]| ensures ts[1..][i].id != ts[1..][j].id {
          assert ts[1..][i] == ts[i + 1] && ts[1..][j] == ts[j + 1];
        }
      }
      UniqueIdsCountAtMostOne(ts[1..], id);
      if ts[0].id == id {
        assert forall j :: 0 <= j < |ts[1..]| ==> ts[1..][j].id != id by {
          forall j | 0 <= j < |ts[1..]| ensures ts[1..][j].id != id {
            assert ts[1..][j] == ts[j + 1];
          }
        }
      }
    }
  }

  /** Adding a task whose id no stored task holds keeps ids unique; `addTask`'s
      clock-derived id gives no such guarantee. */
  lemma AddFreshKeepsUnique(ts: seq<Task>, input: TaskInput, stamp: Stamp)
    requires UniqueIds(ts)
    requires forall t :: t in ts ==> t.id != stamp.millis
    ensures UniqueIds([NewTask(input, stamp)] + ts)
  {
  }

  /** Adding a task whose id is already stored breaks uniqueness: nothing in
      `addTask` prevents it. */
  lemma AddStaleIdBreaksUnique(ts: seq<Task>, input: TaskInput, stamp: Stamp)
    requires exists t :: t in ts && t.id == stamp.millis
    ensures !UniqueIds([NewTask(input, stamp)] + ts)
  {
    var us := [NewTask(input, stamp)] + ts;
    var t :| t in ts && t.id == stamp.millis;
    var j :| 0 <= j < |ts| && ts[j] == t;
    assert us[0].id == us[j + 1].id;
  }

  /** Delete keeps ids unique: it only drops tasks. */
  lemma {:induction false} DeleteKeepsUnique(ts: seq<Task>, id: string)
    requires UniqueIds(ts)
    ensures UniqueIds(WithoutId(ts, id))
  {
    if ts != [] {
      assert UniqueIds(ts[1..]) by {
        forall i, j | 0 <= i < j < |ts[1..]| ensures ts[1..][i].id != ts[1..][j].id {
          assert ts[1..][i] == ts[i + 1] && ts[1..][j] == ts[j + 1];
        }
      }
      DeleteKeepsUnique(ts[1..], id);
      if ts[0].id != id {
        var rest := WithoutId(ts[1..], id);
        var r := [ts[0]] + rest;
        forall i, j | 0 <= i < j < |r| ensures r[i].id != r[j].id {
          assert r[j] == rest[j - 1] && r[j] in ts[1..];
          if i == 0 {
            var k :| 0 <= k < |ts[1..]| && ts[1..][k] == r[j];
            assert ts[k + 1] == r[j];
          } else {
            assert r[i] == rest[i - 1];
          }
        }
      }
    }
  }

  /** Update keeps ids unique as long as the patch leaves `id` alone. */
  lemma UpdateKeepsUnique(ts: seq<Task>, id: string, updates: TaskPatch, now: string)
    requires UniqueIds(ts)
    requires updates.id.Keep?
    requires FindIndex(ts, id) >= 0
    ensures UniqueIds(ts[FindIndex(ts, id) := Merge(ts[FindIndex(ts, id)], updates, now)])
  {
  }

  /** The merge writes exactly the properties present in the patch, keeps the
      others, and always ends with `updatedAt` set to `now`. */
  lemma MergeOverwritesPresentKeepsAbsent(t: Task, updates: TaskPatch, now: string)
    ensures var r := Merge(t, updates, now);
      && (updates.id.Put? ==> r.id == updates.id.value) && (updates.id.Keep? ==> r.id == t.id)
      && (updates.title.Put? ==> r.title == updates.title.value) && (updates.title.Keep? ==> r.title == t.title)
      && (updates.status.Put? ==> r.status == updates.status.value) && (updates.status.Keep? ==> r.status == t.status)
      && (updates.description.Put? ==> r.description == updates.description.value)
      && (updates.description.Keep? ==> r.description == t.description)
      && (updates.dueDate.Put? ==> r.dueDate == updates.dueDate.value)
      && (updates.dueDate.Keep? ==> r.dueDate == t.dueDate)
      && (updates.priority.Put? ==> r.priority == updates.priority.value)
      && (updates.priority.Keep? ==> r.priority == t.priority)
      && (updates.createdAt.Put? ==> r.createdAt == updates.createdAt.value)
      && (updates.createdAt.Keep? ==> r.createdAt == t.createdAt)
  {
  }

  /** An empty patch changes nothing but `updatedAt`. */
  lemma MergeNothing(t: Task, now: string)
    ensures Merge(t, NoChanges, now) == t.(updatedAt := now)
  {
  }

  /** Applying the same patch twice with the same clock reading is the same as once. */
  lemma MergeIdempotent(t: Task, updates: TaskPatch, now: string)
    ensures Merge(Merge(t, updates, now), updates, now) == Merge(t, updates, now)
  {
  }

  /** The store does not protect identity: a patch carrying `id` and `createdAt`
      overwrites both, whatever the stored task held. */
  lemma MergeOverwritesIdentity(t: Task, now: string)
    ensures var r := Merge(t, NoChanges.(id := Put("other"), createdAt := Put("bogus")), now);
      r.id == "other" && r.createdAt == "bogus"
  {
  }

  /** After an update of a present id, `getTaskById` on the same id (when the
      patch keeps the id) returns the record `updateTask` returned. */
  lemma {:induction false} FindAfterUpdate(ts: seq<Task>, id: string, updates: TaskPatch, now: string)
    requires FindIndex(ts, id) >= 0
    requires updates.id.Keep?
    ensures var i := FindIndex(ts, id);
      Find(ts[i := Merge(ts[i], updates, now)], id) == Some(Merge(ts[i], updates, now))
  {
    var i := FindIndex(ts, id);
    var us := ts[i := Merge(ts[i], updates, now)];
    FindIsFirstIndex(us, id);
    assert us[i].id == id;
    assert forall j :: 0 <= j < i ==> us[j].id != id;
  }
}
