/** The to-do screen (TaskUi): an in-memory list of tasks plus the state of
    the "Add New Task" dialog. Each handler replaces the whole list with a
    new one built by map, filter or prepend; those list transforms are the
    pure functions below, and the screen's mutable state is the class
    TaskUi at the end of the module. */
module Tasks {
  import opened Text

  datatype TaskPriority = High | Medium | Low

  /** The in-memory task. The id is a random UUID and createdAt the wall
      clock at construction; both are supplied by the caller here. */
  datatype Task = Task(
    id: string,
    name: string,
    description: string,
    isCompleted: bool,
    createdAt: int,
    priority: TaskPriority)

  predicate HasId(tasks: seq<Task>, id: string)
  {
    exists i :: 0 <= i < |tasks| && tasks[i].id == id
  }

  /** No two tasks of the list share an id. */
  predicate UniqueIds(tasks: seq<Task>)
  {
    forall i, j :: 0 <= i < j < |tasks| ==> tasks[i].id != tasks[j].id
  }

  /** `a` is `b` with at most its completion flag changed. */
  predicate SameExceptCompletion(a: Task, b: Task)
  {
    a.(isCompleted := b.isCompleted) == b
  }

  // ---------------------------------------------------------------------
  // Toggle: the checkbox handler maps over the list and flips the matching task

  /** Flips the completion flag of exactly the tasks whose id is `id`;
      every other field, every other task, the length and the order stay. */
  function Toggle(tasks: seq<Task>, id: string): (r: seq<Task>)
    ensures |r| == |tasks|
    ensures forall i :: 0 <= i < |tasks| ==> SameExceptCompletion(r[i], tasks[i])
    ensures forall i :: 0 <= i < |tasks| ==>
              (r[i].isCompleted != tasks[i].isCompleted <==> tasks[i].id == id)
  {
    if tasks == [] then []
    else
      var t := tasks[0];
      [if t.id == id then t.(isCompleted := !t.isCompleted) else t] + Toggle(tasks[1..], id)
  }

  /** Toggling the same id twice gives back the original list. */
  lemma {:induction false} ToggleTwice(tasks: seq<Task>, id: string)
    ensures Toggle(Toggle(tasks, id), id) == tasks
  {
    if tasks != [] {
      ToggleTwice(tasks[1..], id);
    }
  }

  /** Toggling an id that no task carries leaves the list as it was. */
  lemma {:induction false} ToggleAbsent(tasks: seq<Task>, id: string)
    requires !HasId(tasks, id)
    ensures Toggle(tasks, id) == tasks
  {
    if tasks != [] {
      assert !HasId(tasks[1..], id) by {
        forall i | 0 <= i < |tasks[1..]| ensures tasks[1..][i].id != id {
          assert tasks[1..][i] == tasks[i + 1];
        }
      }
      ToggleAbsent(tasks[1..], id);
    }
  }

  /** Toggling keeps every id in place, so distinct ids stay distinct. */
  lemma ToggleKeepsUniqueIds(tasks: seq<Task>, id: string)
    requires UniqueIds(tasks)
    ensures UniqueIds(Toggle(tasks, id))
  {
    var r := Toggle(tasks, id);
    forall i | 0 <= i < |r| ensures r[i].id == tasks[i].id {
      assert SameExceptCompletion(r[i], tasks[i]);
    }
  }

  // ---------------------------------------------------------------------
  // Delete: the delete button keeps the tasks whose id differs

  /** Removes every task whose id is `id` and keeps the others; an absent id
      is a no-op. */
  function Delete(tasks: seq<Task>, id: string): (r: seq<Task>)
    ensures |r| <= |tasks|
    ensures forall t :: t in r <==> t in tasks && t.id != id
    ensures !HasId(tasks, id) ==> r == tasks
  {
    if tasks == [] then []
    else
      var rest := Delete(tasks[1..], id);
      assert tasks == [tasks[0]] + tasks[1..];
      assert !HasId(tasks, id) ==> !HasId(tasks[1..], id) by {
        if HasId(tasks[1..], id) {
          var i :| 0 <= i < |tasks[1..]| && tasks[1..][i].id == id;
          assert tasks[i + 1].id == id;
        }
      }
      (if tasks[0].id != id then [tasks[0]] else []) + rest
  }

  /** Deleting distributes over concatenation: the survivors keep their
      relative order. */
  lemma {:induction false} DeleteAppend(a: seq<Task>, b: seq<Task>, id: string)
    ensures Delete(a + b, id) == Delete(a, id) + Delete(b, id)
  {
    if a != [] {
      assert (a + b)[0] == a[0] && (a + b)[1..] == a[1..] + b;
      DeleteAppend(a[1..], b, id);
    } else {
      assert a + b == b;
    }
  }

  /** With distinct ids, deleting the id of the task at position k removes
      exactly that task and nothing else, keeping the order of the rest. */
  lemma DeleteAt(tasks: seq<Task>, id: string, k: int)
    requires UniqueIds(tasks)
    requires 0 <= k < |tasks| && tasks[k].id == id
    ensures Delete(tasks, id) == tasks[..k] + tasks[k + 1..]
  {
    var before, after := tasks[..k], tasks[k + 1..];
    var front := before + [tasks[k]];
    assert tasks == front + after;
    assert !HasId(before, id) by {
      forall i | 0 <= i < |before| ensures before[i].id != id {
        assert before[i] == tasks[i];
      }
    }
    assert !HasId(after, id) by {
      forall i | 0 <= i < |after| ensures after[i].id != id {
        assert after[i] == tasks[k + 1 + i];
      }
    }
    assert Delete([tasks[k]], id) == [] by {
      assert [tasks[k]][1..] == [];
    }
    DeleteAppend(before, [tasks[k]], id);
    assert Delete(front, id) == before;
    DeleteAppend(front, after, id);
  }

  /** With distinct ids, a delete shortens the list by one when the id is
      present and by none when it is absent. */
  lemma DeleteLength(tasks: seq<Task>, id: string)
    requires UniqueIds(tasks)
    ensures |Delete(tasks, id)| == if HasId(tasks, id) then |tasks| - 1 else |tasks|
  {
    if HasId(tasks, id) {
      var k :| 0 <= k < |tasks| && tasks[k].id == id;
      DeleteAt(tasks, id, k);
    }
  }

  /** Deleting keeps a subset of the tasks, so distinct ids stay distinct. */
  lemma {:induction false} DeleteKeepsUniqueIds(tasks: seq<Task>, id: string)
    requires UniqueIds(tasks)
    ensures UniqueIds(Delete(tasks, id))
  {
    if tasks != [] {
      var rest := tasks[1..];
      assert UniqueIds(rest) by {
        forall i, j | 0 <= i < j < |rest| ensures rest[i].id != rest[j].id {
          assert rest[i] == tasks[i + 1] && rest[j] == tasks[j + 1];
        }
      }
      DeleteKeepsUniqueIds(rest, id);
      var kept := Delete(rest, id);
      forall j | 0 <= j < |kept| ensures kept[j].id != tasks[0].id {
        assert kept[j] in rest;
        var m :| 0 <= m < |rest| && rest[m] == kept[j];
        assert rest[m] == tasks[m + 1];
      }
    }
  }

  // ---------------------------------------------------------------------
  // Submit: the new task goes in front of the existing list

  /** Putting a task with a fresh id in front keeps the ids distinct. */
  lemma PrependFreshKeepsUniqueIds(t: Task, tasks: seq<Task>)
    requires UniqueIds(tasks) && !HasId(tasks, t.id)
    ensures UniqueIds([t] + tasks)
  {
    var r := [t] + tasks;
    forall i, j | 0 <= i < j < |r| ensures r[i].id != r[j].id {
      assert r[j] == tasks[j - 1];
      if i > 0 {
        assert r[i] == tasks[i - 1];
      }
    }
  }

  // ---------------------------------------------------------------------
  // Header: the number of completed tasks and the progress bar

  /** The number of completed tasks. */
  function CompletedCount(tasks: seq<Task>): (n: nat)
    ensures n <= |tasks|
    ensures n == 0 <==> forall i :: 0 <= i < |tasks| ==> !tasks[i].isCompleted
    ensures n == |tasks| <==> forall i :: 0 <= i < |tasks| ==> tasks[i].isCompleted
  {
    if tasks == [] then 0
    else
      var rest := CompletedCount(tasks[1..]);
      assert forall i :: 1 <= i < |tasks| ==> tasks[i] == tasks[1..][i - 1];
      (if tasks[0].isCompleted then 1 else 0) + rest
  }

  /** With distinct ids, toggling the task at position k moves the completed
      count by exactly one, down if it was completed and up otherwise. */
  lemma {:induction false} ToggleCompletedCount(tasks: seq<Task>, id: string, k: int)
    requires UniqueIds(tasks)
    requires 0 <= k < |tasks| && tasks[k].id == id
    ensures CompletedCount(Toggle(tasks, id))
            == if tasks[k].isCompleted then CompletedCount(tasks) - 1 else CompletedCount(tasks) + 1
  {
    var rest := tasks[1..];
    if k == 0 {
      assert !HasId(rest, id) by {
        forall i | 0 <= i < |rest| ensures rest[i].id != id {
          assert rest[i] == tasks[i + 1];
        }
      }
      ToggleAbsent(rest, id);
    } else {
      assert UniqueIds(rest) by {
        forall i, j | 0 <= i < j < |rest| ensures rest[i].id != rest[j].id {
          assert rest[i] == tasks[i + 1] && rest[j] == tasks[j + 1];
        }
      }
      assert rest[k - 1] == tasks[k];
      ToggleCompletedCount(rest, id, k - 1);
    }
  }

  /** The progress bar's value: completed / total, and 0 when there are no
      tasks (no division by zero). Kotlin computes it in Float; here it is
      exact. */
  function Progress(totalTasks: int, completedTasks: int): (p: real)
    ensures totalTasks <= 0 ==> p == 0.0
    ensures totalTasks > 0 ==> p * totalTasks as real == completedTasks as real
    ensures 0 <= completedTasks <= totalTasks ==> 0.0 <= p <= 1.0
  {
    if totalTasks > 0 then
      completedTasks as real / totalTasks as real
    else
      0.0
  }

  // ---------------------------------------------------------------------
  // getFakeTasks: the list the screen starts with

  // The text of the eight sample tasks.
  const SampleName0: string := "Complete project proposal"
  const SampleDescription0: string :=
    "Finish the quarterly project proposal and submit it to the team for review. Include budget estimates and timeline."
  const SampleName1: string := "Team meeting at 3 PM"
  const SampleDescription1: string :=
    "Weekly team sync to discuss progress and blockers"
  const SampleName2: string := "Review code changes"
  const SampleDescription2: string :=
    "Go through the pull requests and provide feedback to junior developers"
  const SampleName3: string := "Update documentation"
  const SampleDescription3: string :=
    "Update the API documentation with new endpoints and examples"
  const SampleName4: string := "Buy groceries"
  const SampleDescription4: string :=
    "Get milk, bread, eggs, and vegetables for the week"
  const SampleName5: string := "Prepare presentation"
  const SampleDescription5: string :=
    "Create slides for tomorrow's client presentation. Include demo and pricing details."
  const SampleName6: string := "Call dentist"
  const SampleDescription6: string :=
    "Schedule appointment for dental cleaning"
  const SampleName7: string := "Exercise workout"
  const SampleDescription7: string :=
    "30 minutes cardio and strength training at the gym"

  /** The k-th of the eight sample tasks, with its own id and timestamp. */
  function SampleTask(k: nat, id: string, createdAt: int): (t: Task)
    requires k < 8
    ensures t.id == id && t.createdAt == createdAt
    ensures t.isCompleted <==> k == 1 || k == 4 || k == 7
  {
    match k
    case 0 => Task(id, SampleName0, SampleDescription0, false, createdAt, High)
    case 1 => Task(id, SampleName1, SampleDescription1, true, createdAt, Medium)
    case 2 => Task(id, SampleName2, SampleDescription2, false, createdAt, Medium)
    case 3 => Task(id, SampleName3, SampleDescription3, false, createdAt, Low)
    case 4 => Task(id, SampleName4, SampleDescription4, true, createdAt, Low)
    case 5 => Task(id, SampleName5, SampleDescription5, false, createdAt, High)
    case 6 => Task(id, SampleName6, SampleDescription6, false, createdAt, Medium)
    case 7 => Task(id, SampleName7, SampleDescription7, true, createdAt, Medium)
  }

  /** getFakeTasks(): the eight sample tasks the screen starts with. Each
      Task(...) call draws its own UUID and timestamp; they are the
      parameters. */
  function FakeTasks(ids: seq<string>, createdAt: seq<int>): (r: seq<Task>)
    requires |ids| == 8 && |createdAt| == 8
    ensures |r| == 8
    ensures forall i :: 0 <= i < 8 ==> r[i].id == ids[i] && r[i].createdAt == createdAt[i]
  {
    seq(8, i requires 0 <= i < 8 => SampleTask(i, ids[i], createdAt[i]))
  }

  /** Three of the eight sample tasks start out completed. */
  lemma FakeTasksCompleted(ids: seq<string>, createdAt: seq<int>)
    requires |ids| == 8 && |createdAt| == 8
    ensures CompletedCount(FakeTasks(ids, createdAt)) == 3
  {
    var r := FakeTasks(ids, createdAt);
    assert CompletedCount(r[7..]) == 1;
    assert CompletedCount(r[6..]) == 1;
    assert CompletedCount(r[5..]) == 1;
    assert CompletedCount(r[4..]) == 2;
    assert CompletedCount(r[3..]) == 2;
    assert CompletedCount(r[2..]) == 2;
    assert CompletedCount(r[1..]) == 3;
  }

  /** Eight distinct UUIDs give a list whose ids are distinct. */
  lemma FakeTasksUniqueIds(ids: seq<string>, createdAt: seq<int>)
    requires |ids| == 8 && |createdAt| == 8
    requires forall i, j :: 0 <= i < j < 8 ==> ids[i] != ids[j]
    ensures UniqueIds(FakeTasks(ids, createdAt))
  {
  }

  // ---------------------------------------------------------------------
  // Runs of edits: what the list goes through across many handler calls

  /** One replacement of the list by a handler: a submit puts a task in
      front, the checkbox toggles an id, the delete button deletes one. */
  datatype ListEdit = Prepend(task: Task) | ToggleId(id: string) | DeleteId(id: string)

  function ApplyEdit(tasks: seq<Task>, edit: ListEdit): seq<Task>
  {
    match edit
    case Prepend(t) => [t] + tasks
    case ToggleId(id) => Toggle(tasks, id)
    case DeleteId(id) => Delete(tasks, id)
  }

  /** The list after the edits, applied first to last. */
  function ApplyEdits(tasks: seq<Task>, edits: seq<ListEdit>): seq<Task>
    decreases |edits|
  {
    if edits == [] then tasks else ApplyEdits(ApplyEdit(tasks, edits[0]), edits[1..])
  }

  /** Every task put in front carries an id that no task in the list has at
      that moment (what a fresh UUID provides). */
  predicate FreshPrepends(tasks: seq<Task>, edits: seq<ListEdit>)
    decreases |edits|
  {
    edits != [] ==>
      && (edits[0].Prepend? ==> !HasId(tasks, edits[0].task.id))
      && FreshPrepends(ApplyEdit(tasks, edits[0]), edits[1..])
  }

  /** How many tasks the edits put in front. */
  function PrependCount(edits: seq<ListEdit>): nat
  {
    if edits == [] then 0 else (if edits[0].Prepend? then 1 else 0) + PrependCount(edits[1..])
  }

  /** How many of the deletes found a task with their id. */
  function MatchedDeletes(tasks: seq<Task>, edits: seq<ListEdit>): nat
    decreases |edits|
  {
    if edits == [] then 0
    else
      (if edits[0].DeleteId? && HasId(tasks, edits[0].id) then 1 else 0)
      + MatchedDeletes(ApplyEdit(tasks, edits[0]), edits[1..])
  }

  /** One edit keeps the ids distinct, given a fresh id for a new task. */
  lemma ApplyEditKeepsUniqueIds(tasks: seq<Task>, edit: ListEdit)
    requires UniqueIds(tasks)
    requires edit.Prepend? ==> !HasId(tasks, edit.task.id)
    ensures UniqueIds(ApplyEdit(tasks, edit))
    ensures |ApplyEdit(tasks, edit)| ==
              |tasks| + (if edit.Prepend? then 1 else 0)
              - (if edit.DeleteId? && HasId(tasks, edit.id) then 1 else 0)
  {
    match edit
    case Prepend(t) => PrependFreshKeepsUniqueIds(t, tasks);
    case ToggleId(id) => ToggleKeepsUniqueIds(tasks, id);
    case DeleteId(id) =>
      DeleteKeepsUniqueIds(tasks, id);
      DeleteLength(tasks, id);
  }

  /** Starting from distinct ids, any run of submits with fresh ids,
      toggles and deletes keeps the ids distinct, and the list grows by one
      per submit and shrinks by one per delete that found its task. */
  lemma {:induction false} ApplyEditsInvariant(tasks: seq<Task>, edits: seq<ListEdit>)
    requires UniqueIds(tasks) && FreshPrepends(tasks, edits)
    ensures UniqueIds(ApplyEdits(tasks, edits))
    ensures |ApplyEdits(tasks, edits)| == |tasks| + PrependCount(edits) - MatchedDeletes(tasks, edits)
    decreases |edits|
  {
    if edits != [] {
      ApplyEditKeepsUniqueIds(tasks, edits[0]);
      ApplyEditsInvariant(ApplyEdit(tasks, edits[0]), edits[1..]);
    }
  }

  // ---------------------------------------------------------------------
  // The screen state

  class TaskUi {
    var tasks: seq<Task>
    var showAddTaskDialog: bool
    var taskName: string
    var taskDescription: string
    var selectedPriority: TaskPriority

    /** The dialog is closed and its fields hold their defaults. */
    predicate FormCleared()
      reads this
    {
      !showAddTaskDialog && taskName == "" && taskDescription == "" && selectedPriority == Medium
    }

    /** The screen opens on the sample tasks with the dialog closed. Eight
        distinct UUIDs make the ids distinct from the start, and every
        handler below keeps them so. */
    constructor (ids: seq<string>, createdAt: seq<int>)
      requires |ids| == 8 && |createdAt| == 8
      requires forall i, j :: 0 <= i < j < 8 ==> ids[i] != ids[j]
      ensures tasks == FakeTasks(ids, createdAt)
      ensures UniqueIds(tasks)
      ensures FormCleared()
    {
      FakeTasksUniqueIds(ids, createdAt);
      tasks := FakeTasks(ids, createdAt);
      showAddTaskDialog := false;
      taskName := "";
      taskDescription := "";
      selectedPriority := Medium;
    }

    /** The floating action button opens the dialog. */
    method OnAddTaskClick()
      modifies this
      ensures showAddTaskDialog
      ensures tasks == old(tasks) && taskName == old(taskName)
      ensures taskDescription == old(taskDescription) && selectedPriority == old(selectedPriority)
    {
      showAddTaskDialog := true;
    }

    method OnTaskNameChange(value: string)
      modifies this
      ensures taskName == value
      ensures tasks == old(tasks) && showAddTaskDialog == old(showAddTaskDialog)
      ensures taskDescription == old(taskDescription) && selectedPriority == old(selectedPriority)
    {
      taskName := value;
    }

    method OnTaskDescriptionChange(value: string)
      modifies this
      ensures taskDescription == value
      ensures tasks == old(tasks) && showAddTaskDialog == old(showAddTaskDialog)
      ensures taskName == old(taskName) && selectedPriority == old(selectedPriority)
    {
      taskDescription := value;
    }

    method OnPriorityChange(priority: TaskPriority)
      modifies this
      ensures selectedPriority == priority
      ensures tasks == old(tasks) && showAddTaskDialog == old(showAddTaskDialog)
      ensures taskName == old(taskName) && taskDescription == old(taskDescription)
    {
      selectedPriority := priority;
    }

    /** The checkbox of a task: flips that task and leaves the form alone. */
    method OnToggleComplete(taskId: string)
      modifies this
      ensures tasks == Toggle(old(tasks), taskId)
      ensures old(UniqueIds(tasks)) ==> UniqueIds(tasks)
      ensures showAddTaskDialog == old(showAddTaskDialog) && taskName == old(taskName)
      ensures taskDescription == old(taskDescription) && selectedPriority == old(selectedPriority)
    {
      if UniqueIds(tasks) {
        ToggleKeepsUniqueIds(tasks, taskId);
      }
      tasks := Toggle(tasks, taskId);
    }

    /** The delete button of a task. */
    method OnDeleteTask(taskId: string)
      modifies this
      ensures tasks == Delete(old(tasks), taskId)
      ensures old(UniqueIds(tasks)) ==> UniqueIds(tasks)
      ensures showAddTaskDialog == old(showAddTaskDialog) && taskName == old(taskName)
      ensures taskDescription == old(taskDescription) && selectedPriority == old(selectedPriority)
    {
      if UniqueIds(tasks) {
        DeleteKeepsUniqueIds(tasks, taskId);
      }
      tasks := Delete(tasks, taskId);
    }

    /** Cancel, the close icon or a dismiss request: closes and clears the
        dialog, keeps the list. */
    method OnDismiss()
      modifies this
      ensures FormCleared()
      ensures tasks == old(tasks)
    {
      showAddTaskDialog := false;
      taskName := "";
      taskDescription := "";
      selectedPriority := Medium;
    }

    /** "Add Task". A blank name is ignored without a message. Otherwise a
        new, not completed task with the trimmed name and description, the
        selected priority, the id `freshId` and the time `now` goes to the
        front of the list, and the dialog is closed and cleared. */
    method OnSubmit(freshId: string, now: int)
      modifies this
      ensures IsBlank(old(taskName)) ==>
                && tasks == old(tasks) && showAddTaskDialog == old(showAddTaskDialog)
                && taskName == old(taskName) && taskDescription == old(taskDescription)
                && selectedPriority == old(selectedPriority)
      ensures !IsBlank(old(taskName)) ==>
                && tasks == [Task(freshId, Trim(old(taskName)), Trim(old(taskDescription)),
                                  false, now, old(selectedPriority))] + old(tasks)
                && FormCleared()
      ensures !IsBlank(old(taskName)) ==> |tasks| == |old(tasks)| + 1 && !IsBlank(tasks[0].name)
      ensures old(UniqueIds(tasks)) && !old(HasId(tasks, freshId)) ==> UniqueIds(tasks)
    {
      if !IsBlank(taskName) {
        var name := Trim(taskName);
        BlankAfterTrim(taskName);
        var newTask := Task(freshId, name, Trim(taskDescription), false, now, selectedPriority);
        var updated := [newTask] + tasks;
        if UniqueIds(tasks) && !HasId(tasks, freshId) {
          PrependFreshKeepsUniqueIds(newTask, tasks);
        }
        tasks := updated;
        showAddTaskDialog := false;
        taskName := "";
        taskDescription := "";
        selectedPriority := Medium;
      }
    }

    /** What TaskHeader shows: the completed and total counts and the
        progress bar's value. */
    method Header() returns (totalTasks: int, completedTasks: int, progress: real)
      ensures totalTasks == |tasks| && completedTasks == CompletedCount(tasks)
      ensures 0 <= completedTasks <= totalTasks
      ensures progress == Progress(totalTasks, completedTasks)
      ensures 0.0 <= progress <= 1.0
    {
      totalTasks := |tasks|;
      completedTasks := CompletedCount(tasks);
      progress := Progress(totalTasks, completedTasks);
    }
  }

  /** The walk-through of the to-do screen starting from an empty list:
      add "Buy milk" (low), add "Call mom" (high), complete the first,
      delete the second. One completed task remains and progress is 1. */
  lemma ExampleSession(id1: string, id2: string, now1: int, now2: int)
    requires id1 != id2
    ensures var t1 := Task(id1, "Buy milk", "", false, now1, Low);
            var t2 := Task(id2, "Call mom", "", false, now2, High);
            var after := ApplyEdits([], [Prepend(t1), Prepend(t2), ToggleId(id1), DeleteId(id2)]);
            && after == [t1.(isCompleted := true)]
            && Progress(|after|, CompletedCount(after)) == 1.0
  {
    var t1 := Task(id1, "Buy milk", "", false, now1, Low);
    var t2 := Task(id2, "Call mom", "", false, now2, High);
    var edits := [Prepend(t1), Prepend(t2), ToggleId(id1), DeleteId(id2)];
    var added := ApplyEdit(ApplyEdit([], edits[0]), edits[1]);
    assert added == [t2, t1];
    var toggled := Toggle(added, id1);
    assert toggled == [t2, t1.(isCompleted := true)];
    calc {
      ApplyEdits([], edits);
      ApplyEdits(added, edits[2..]);
      ApplyEdits(toggled, edits[3..]);
      ApplyEdits(Delete(toggled, id2), []);
    }
  }
}
