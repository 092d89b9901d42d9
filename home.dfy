/** The to-do list kept by the Home screen (src/pages/Home.tsx): adding a task,
    toggling its `done` flag and removing it. Ids are not required to be unique;
    like the source's `find` and `findIndex`, toggle and remove act on the FIRST
    task whose id matches. */
module HomePage {
  import opened TasksList

  // ---------------------------------------------------------------------------
  // Specification of the list operations
  // ---------------------------------------------------------------------------

  /** `tasks.some(task => task.title === title)`: scan the list and stop at
      the first task carrying exactly this title (case-sensitive). */
  function HasTitle(tasks: seq<Task>, title: string): (r: bool)
    ensures r <==> exists i :: 0 <= i < |tasks| && tasks[i].title == title
  {
    if tasks == [] then false
    else if tasks[0].title == title then true
    else
      var r := HasTitle(tasks[1..], title);
      assert r ==> exists i :: 0 <= i < |tasks| && tasks[i].title == title by {
        if r {
          var j :| 0 <= j < |tasks| - 1 && tasks[1..][j].title == title;
          assert tasks[j + 1].title == title;
        }
      }
      r
  }

  /** Some task carries this id. */
  predicate HasId(tasks: seq<Task>, id: int) {
    exists i :: 0 <= i < |tasks| && tasks[i].id == id
  }

  /** No two tasks share an id. */
  ghost predicate UniqueIds(tasks: seq<Task>) {
    forall i, j :: 0 <= i < j < |tasks| ==> tasks[i].id != tasks[j].id
  }

  /** No two tasks share a title. */
  ghost predicate UniqueTitles(tasks: seq<Task>) {
    forall i, j :: 0 <= i < j < |tasks| ==> tasks[i].title != tasks[j].title
  }

  /** Position of the first task with this id, or -1 when there is none:
      the answer of `findIndex(task => task.id === id)`. */
  function FirstIndex(tasks: seq<Task>, id: int): (r: int)
    ensures -1 <= r < |tasks|
    ensures r == -1 <==> !HasId(tasks, id)
    ensures 0 <= r ==> tasks[r].id == id && forall i :: 0 <= i < r ==> tasks[i].id != id
  {
    if tasks == [] then -1
    else if tasks[0].id == id then 0
    else
      var r := FirstIndex(tasks[1..], id);
      if r == -1 then -1 else r + 1
  }

  /** Reference definition of toggling: walk the list and negate `done` on
      the first task with this id; every other task is kept as it is. */
  function ToggleFirst(tasks: seq<Task>, id: int): (r: seq<Task>)
    ensures |r| == |tasks|
  {
    if tasks == [] then []
    else if tasks[0].id == id then [Negated(tasks[0])] + tasks[1..]
    else [tasks[0]] + ToggleFirst(tasks[1..], id)
  }

  /** Reference definition of removal: walk the list and drop the first task
      with this id; every other task is kept, in order. */
  function RemoveFirst(tasks: seq<Task>, id: int): (r: seq<Task>)
    ensures |r| == if HasId(tasks, id) then |tasks| - 1 else |tasks|
  {
    if tasks == [] then []
    else if tasks[0].id == id then tasks[1..]
    else
      assert HasId(tasks, id) ==> HasId(tasks[1..], id) by {
        if HasId(tasks, id) {
          var i :| 0 <= i < |tasks| && tasks[i].id == id;
          assert tasks[1..][i - 1].id == id;
        }
      }
      [tasks[0]] + RemoveFirst(tasks[1..], id)
  }

  /** What adding a title yields: a rejection (the source shows an alert and
      keeps the list) or the new list. */
  datatype AddOutcome = Rejected | Added(tasks: seq<Task>)

  /** `handleAddTask`: reject a title that is already present, otherwise
      append a new, not-done task with the given id at the end. */
  function AddTask(tasks: seq<Task>, newTaskTitle: string, id: int): (r: AddOutcome)
    ensures r.Rejected? <==> HasTitle(tasks, newTaskTitle)
    ensures r.Added? ==>
              |r.tasks| == |tasks| + 1 && r.tasks[..|tasks|] == tasks &&
              r.tasks[|tasks|] == Task(id, newTaskTitle, false)
  {
    if HasTitle(tasks, newTaskTitle) then Rejected
    else Added(tasks + [Task(id, newTaskTitle, false)])
  }

  // ---------------------------------------------------------------------------
  // Lemmas about the specification
  // ---------------------------------------------------------------------------

  /** Toggling touches exactly the position `FirstIndex` finds. */
  lemma ToggleFirstAt(tasks: seq<Task>, id: int)
    ensures FirstIndex(tasks, id) == -1 ==> ToggleFirst(tasks, id) == tasks
    ensures 0 <= FirstIndex(tasks, id) ==>
              var k := FirstIndex(tasks, id);
              ToggleFirst(tasks, id) == tasks[k := Negated(tasks[k])]
  {
    var k := FirstIndex(tasks, id);
    if k == -1 {
      ToggleFirstAbsent(tasks, id);
    } else {
      ToggleFirstPresent(tasks, id, k);
    }
  }

  /** Toggling an id no task has gives back the list. */
  lemma {:induction false} ToggleFirstAbsent(tasks: seq<Task>, id: int)
    requires !HasId(tasks, id)
    ensures ToggleFirst(tasks, id) == tasks
  {
    if tasks != [] {
      ToggleFirstAbsent(tasks[1..], id);
      assert tasks == [tasks[0]] + tasks[1..];
    }
  }

  /** Toggling an id whose first task sits at `k` negates position `k` only. */
  lemma {:induction false} ToggleFirstPresent(tasks: seq<Task>, id: int, k: int)
    requires 0 <= k < |tasks| && tasks[k].id == id
    requires forall i :: 0 <= i < k ==> tasks[i].id != id
    ensures ToggleFirst(tasks, id) == tasks[k := Negated(tasks[k])]
  {
    if k > 0 {
      var rest := tasks[1..];
      assert rest[k - 1].id == id;
      ToggleFirstPresent(rest, id, k - 1);
      assert [tasks[0]] + rest[k - 1 := Negated(rest[k - 1])] == tasks[k := Negated(tasks[k])];
    }
  }

  /** Toggling a present id keeps the length and every id and title, negates
      `done` on the first task with that id and changes no other task;
      toggling an absent id changes nothing. */
  lemma ToggleFirstEffect(tasks: seq<Task>, id: int)
    ensures !HasId(tasks, id) ==> ToggleFirst(tasks, id) == tasks
    ensures HasId(tasks, id) ==>
              var r, k := ToggleFirst(tasks, id), FirstIndex(tasks, id);
              |r| == |tasks| && 0 <= k < |tasks| && tasks[k].id == id &&
              (forall i :: 0 <= i < k ==> tasks[i].id != id) &&
              r[k].done == !tasks[k].done &&
              (forall i :: 0 <= i < |r| ==> r[i].id == tasks[i].id && r[i].title == tasks[i].title) &&
              (forall i :: 0 <= i < |r| && i != k ==> r[i] == tasks[i])
  {
    ToggleFirstAt(tasks, id);
  }

  /** Toggling the same id twice gives back the original list. */
  lemma {:induction false} ToggleFirstTwice(tasks: seq<Task>, id: int)
    ensures ToggleFirst(ToggleFirst(tasks, id), id) == tasks
  {
    if tasks != [] {
      var t := ToggleFirst(tasks, id);
      if tasks[0].id == id {
        assert t[0] == Negated(tasks[0]) && t[1..] == tasks[1..];
        assert ToggleFirst(t, id) == [Negated(Negated(tasks[0]))] + tasks[1..];
        assert tasks == [tasks[0]] + tasks[1..];
      } else {
        ToggleFirstTwice(tasks[1..], id);
        assert t[0] == tasks[0] && t[1..] == ToggleFirst(tasks[1..], id);
        assert tasks == [tasks[0]] + tasks[1..];
      }
    }
  }

  /** Removal deletes exactly the task at the position `FirstIndex` finds. */
  lemma RemoveFirstAt(tasks: seq<Task>, id: int)
    ensures FirstIndex(tasks, id) == -1 ==> RemoveFirst(tasks, id) == tasks
    ensures 0 <= FirstIndex(tasks, id) ==>
              var k := FirstIndex(tasks, id);
              RemoveFirst(tasks, id) == tasks[..k] + tasks[k + 1..]
  {
    var k := FirstIndex(tasks, id);
    if k == -1 {
      RemoveFirstAbsent(tasks, id);
    } else {
      RemoveFirstPresent(tasks, id, k);
    }
  }

  /** Removing an id no task has gives back the list. */
  lemma {:induction false} RemoveFirstAbsent(tasks: seq<Task>, id: int)
    requires !HasId(tasks, id)
    ensures RemoveFirst(tasks, id) == tasks
  {
    if tasks != [] {
      RemoveFirstAbsent(tasks[1..], id);
      assert tasks == [tasks[0]] + tasks[1..];
    }
  }

  /** Removing an id whose first task sits at `k` splices out position `k`. */
  lemma {:induction false} RemoveFirstPresent(tasks: seq<Task>, id: int, k: int)
    requires 0 <= k < |tasks| && tasks[k].id == id
    requires forall i :: 0 <= i < k ==> tasks[i].id != id
    ensures RemoveFirst(tasks, id) == tasks[..k] + tasks[k + 1..]
  {
    if k == 0 {
      assert tasks[..0] + tasks[1..] == tasks[1..];
    } else {
      var rest := tasks[1..];
      assert rest[k - 1].id == id;
      RemoveFirstPresent(rest, id, k - 1);
      SpliceTail(tasks, k - 1);
    }
  }

  /** Splicing position `k` out of the tail, then putting the head back, is
      splicing position `k + 1` out of the whole list. */
  lemma SpliceTail(tasks: seq<Task>, k: int)
    requires 0 <= k < |tasks| - 1
    ensures [tasks[0]] + (tasks[1..][..k] + tasks[1..][k + 1..]) == tasks[..k + 1] + tasks[k + 2..]
  {
    assert tasks[1..][..k] == tasks[1..k + 1];
    assert tasks[1..][k + 1..] == tasks[k + 2..];
    assert [tasks[0]] + tasks[1..k + 1] == tasks[..k + 1];
  }

  /** Removing a present id deletes its first task, so the length drops by
      one and the remaining tasks keep their relative order (everything
      before it, then everything after it); removing an absent id changes
      nothing. */
  lemma RemoveFirstEffect(tasks: seq<Task>, id: int)
    ensures !HasId(tasks, id) ==> RemoveFirst(tasks, id) == tasks
    ensures HasId(tasks, id) ==>
              var r, k := RemoveFirst(tasks, id), FirstIndex(tasks, id);
              |r| == |tasks| - 1 && 0 <= k < |tasks| && tasks[k].id == id &&
              (forall i :: 0 <= i < k ==> tasks[i].id != id) &&
              (forall i :: 0 <= i < k ==> r[i] == tasks[i]) &&
              (forall i :: k <= i < |r| ==> r[i] == tasks[i + 1])
  {
    RemoveFirstAt(tasks, id);
    if HasId(tasks, id) {
      SpliceAt(tasks, FirstIndex(tasks, id), RemoveFirst(tasks, id));
    }
  }

  /** Positions in a list with position `k` spliced out. */
  lemma SpliceAt(tasks: seq<Task>, k: int, r: seq<Task>)
    requires 0 <= k < |tasks| && r == tasks[..k] + tasks[k + 1..]
    ensures |r| == |tasks| - 1
    ensures forall i :: 0 <= i < k ==> r[i] == tasks[i]
    ensures forall i :: k <= i < |r| ==> r[i] == tasks[i + 1]
  {
  }

  /** With unique ids, removal leaves no task with that id behind and keeps
      the ids unique. */
  lemma RemoveFirstUnique(tasks: seq<Task>, id: int)
    requires UniqueIds(tasks)
    ensures UniqueIds(RemoveFirst(tasks, id))
    ensures !HasId(RemoveFirst(tasks, id), id)
  {
    RemoveFirstEffect(tasks, id);
    var r := RemoveFirst(tasks, id);
    if HasId(tasks, id) {
      var k := FirstIndex(tasks, id);
      forall i | 0 <= i < |r| ensures r[i].id != id {
        if i >= k { assert r[i] == tasks[i + 1]; }
      }
    }
  }

  /** Toggling never changes a title, so it keeps titles unique. */
  lemma ToggleFirstUniqueTitles(tasks: seq<Task>, id: int)
    requires UniqueTitles(tasks)
    ensures UniqueTitles(ToggleFirst(tasks, id))
  {
    ToggleFirstEffect(tasks, id);
  }

  /** Removal only drops a task and keeps the rest in order, so it keeps
      titles unique. */
  lemma RemoveFirstUniqueTitles(tasks: seq<Task>, id: int)
    requires UniqueTitles(tasks)
    ensures UniqueTitles(RemoveFirst(tasks, id))
  {
    RemoveFirstEffect(tasks, id);
    var r := RemoveFirst(tasks, id);
    if HasId(tasks, id) {
      var k := FirstIndex(tasks, id);
      forall i, j | 0 <= i < j < |r| ensures r[i].title != r[j].title {
        var i' := if i < k then i else i + 1;
        var j' := if j < k then j else j + 1;
        assert r[i] == tasks[i'] && r[j] == tasks[j'] && i' < j';
      }
    }
  }

  /** Toggling never changes an id, so it keeps ids unique. */
  lemma ToggleFirstUnique(tasks: seq<Task>, id: int)
    requires UniqueIds(tasks)
    ensures UniqueIds(ToggleFirst(tasks, id))
  {
    ToggleFirstEffect(tasks, id);
  }

  /** Adding keeps titles unique (a duplicate is rejected) and, when the
      clock gives an id no task has yet, keeps ids unique. */
  lemma AddTaskUnique(tasks: seq<Task>, newTaskTitle: string, id: int)
    requires AddTask(tasks, newTaskTitle, id).Added?
    ensures UniqueTitles(tasks) ==> UniqueTitles(AddTask(tasks, newTaskTitle, id).tasks)
    ensures UniqueIds(tasks) && !HasId(tasks, id) ==> UniqueIds(AddTask(tasks, newTaskTitle, id).tasks)
  {
  }

  /** Once a title has been added, adding it again is rejected. */
  lemma AddTaskTwiceRejected(tasks: seq<Task>, newTaskTitle: string, id: int, id': int)
    requires AddTask(tasks, newTaskTitle, id).Added?
    ensures AddTask(AddTask(tasks, newTaskTitle, id).tasks, newTaskTitle, id').Rejected?
  {
    var r := AddTask(tasks, newTaskTitle, id).tasks;
    assert r[|tasks|].title == newTaskTitle;
  }

  // ---------------------------------------------------------------------------
  // The state updaters handed to `setTasks`
  // ---------------------------------------------------------------------------

  /** The scan behind `find` and `findIndex`: the index of the first task in
      the array with this id, or -1 when there is none. */
  method FindIndex(a: array<Task>, id: int) returns (idx: int)
    ensures idx == FirstIndex(a[..], id)
  {
    var k := 0;
    while k < a.Length && a[k].id != id
      invariant 0 <= k <= a.Length
      invariant forall i :: 0 <= i < k ==> a[i].id != id
    {
      k := k + 1;
    }
    idx := if k < a.Length then k else -1;
  }

  /** The updater of `handleToggleTaskDone`: copy the list, find the first
      task with the id, and negate its `done` flag in the copy. */
  method ToggleUpdater(previousTasks: seq<Task>, id: int) returns (updatedTasks: seq<Task>)
    ensures updatedTasks == ToggleFirst(previousTasks, id)
  {
    var updated := new Task[|previousTasks|](i requires 0 <= i < |previousTasks| => previousTasks[i]);
    assert updated[..] == previousTasks;
    var foundIdx := FindIndex(updated, id);
    ToggleFirstAt(previousTasks, id);
    if foundIdx != -1 {
      updated[foundIdx] := Negated(updated[foundIdx]);
    }
    updatedTasks := updated[..];
  }

  /** The updater of `handleRemoveTask`: copy the list, find the index of the
      first task with the id and, if there is one, splice it out. */
  method RemoveUpdater(previousTasks: seq<Task>, id: int) returns (updatedTasks: seq<Task>)
    ensures updatedTasks == RemoveFirst(previousTasks, id)
  {
    var updated := new Task[|previousTasks|](i requires 0 <= i < |previousTasks| => previousTasks[i]);
    assert updated[..] == previousTasks;
    var taskToRemoveIdx := FindIndex(updated, id);
    RemoveFirstAt(previousTasks, id);
    updatedTasks := updated[..];
    if taskToRemoveIdx != -1 {
      updatedTasks := updatedTasks[..taskToRemoveIdx] + updatedTasks[taskToRemoveIdx + 1..];
    }
  }

  // ---------------------------------------------------------------------------
  // The screen's state
  // ---------------------------------------------------------------------------

  /** The Home screen: it owns the list and replaces it on every handler. */
  class Home {
    var tasks: seq<Task>

    /** The screen's invariant: no two tasks share a title. Adding rejects a
        duplicate title and the other handlers never change a title. */
    ghost predicate Valid()
      reads this
    {
      UniqueTitles(tasks)
    }

    /** The screen starts with no tasks. */
    constructor ()
      ensures tasks == [] && Valid()
    {
      tasks := [];
    }

    /** The number the header shows. */
    function TasksCounter(): (n: nat)
      reads this
      ensures n == |tasks|
    {
      |tasks|
    }

    /** `handleAddTask`; `now` stands for the clock reading used as the id.
        Returns whether the task was appended (false: the duplicate-title
        alert was shown instead). */
    method HandleAddTask(newTaskTitle: string, now: int) returns (accepted: bool)
      modifies this
      ensures accepted <==> !HasTitle(old(tasks), newTaskTitle)
      ensures accepted ==> tasks == old(tasks) + [Task(now, newTaskTitle, false)]
      ensures !accepted ==> tasks == old(tasks)
      ensures TasksCounter() == old(TasksCounter()) + if accepted then 1 else 0
      ensures old(Valid()) ==> Valid()
      ensures UniqueIds(old(tasks)) && !HasId(old(tasks), now) ==> UniqueIds(tasks)
    {
      var outcome := AddTask(tasks, newTaskTitle, now);
      match outcome
      case Rejected =>
        accepted := false;
      case Added(next) =>
        AddTaskUnique(tasks, newTaskTitle, now);
        assert next == tasks + [Task(now, newTaskTitle, false)];
        tasks := next;
        accepted := true;
    }

    /** `handleToggleTaskDone`. */
    method HandleToggleTaskDone(id: int)
      modifies this
      ensures tasks == ToggleFirst(old(tasks), id)
      ensures TasksCounter() == old(TasksCounter())
      ensures old(Valid()) ==> Valid()
      ensures UniqueIds(old(tasks)) ==> UniqueIds(tasks)
    {
      if UniqueIds(tasks) { ToggleFirstUnique(tasks, id); }
      if UniqueTitles(tasks) { ToggleFirstUniqueTitles(tasks, id); }
      tasks := ToggleUpdater(tasks, id);
    }

    /** `handleRemoveTask`. */
    method HandleRemoveTask(id: int)
      modifies this
      ensures tasks == RemoveFirst(old(tasks), id)
      ensures TasksCounter() == old(TasksCounter()) - if HasId(old(tasks), id) then 1 else 0
      ensures old(Valid()) ==> Valid()
      ensures UniqueIds(old(tasks)) ==> UniqueIds(tasks) && !HasId(tasks, id)
    {
      if UniqueIds(tasks) { RemoveFirstUnique(tasks, id); }
      if UniqueTitles(tasks) { RemoveFirstUniqueTitles(tasks, id); }
      tasks := RemoveUpdater(tasks, id);
    }
  }
}
