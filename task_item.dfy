/** One row of the list (src/components/TaskItem.tsx): a task shown with a
    check marker, an inline title editor and a trash button. The row keeps
    two pieces of state of its own, `isEditing` and `currentTitle` (the
    uncommitted draft of the title), and talks to the list owner only by
    firing callbacks. */
module TaskItemRow {
  import opened TasksList

  /** A callback the row fires towards the list owner. */
  datatype Event =
    | ToggleTaskDone(id: int)
    | EditTask(taskId: int, taskNewTitle: string)
    | RemoveTask(id: int)

  /** The callback an interaction fires, if any. */
  datatype Option<T> = None | Some(value: T)

  class TaskItem {
    /** The task the list hands to this row (its props). */
    var task: Task
    var isEditing: bool
    var currentTitle: string

    /** A fresh row is not editing and shows the task's title. */
    constructor (task: Task)
      ensures this.task == task
      ensures !isEditing && currentTitle == task.title
    {
      this.task := task;
      isEditing := false;
      currentTitle := task.title;
    }

    /** The title input accepts typing only while editing, which is exactly
        when the trash button is disabled. */
    function TitleEditable(): (r: bool)
      reads this
      ensures r <==> !TrashEnabled()
    {
      isEditing
    }

    /** The trash button is disabled while editing. */
    function TrashEnabled(): (r: bool)
      reads this
      ensures r <==> !isEditing
    {
      !isEditing
    }

    /** The list re-renders the row with the current version of its task
        (same id, as rows are keyed by id); the row's own state survives. */
    method ReceiveTask(newTask: Task)
      requires newTask.id == task.id
      modifies this`task
      ensures task == newTask
      ensures isEditing == old(isEditing) && currentTitle == old(currentTitle)
    {
      task := newTask;
    }

    /** The pen button: enter edit mode, keeping the draft as it is. */
    method HandleStartEditing() returns (fired: Option<Event>)
      modifies this`isEditing
      ensures isEditing && TitleEditable() && !TrashEnabled()
      ensures currentTitle == old(currentTitle) && task == old(task)
      ensures fired == None
    {
      isEditing := true;
      fired := None;
    }

    /** The cancel button: throw the draft away, restoring the task's title,
        and leave edit mode without firing anything. */
    method HandleCancelEditing() returns (fired: Option<Event>)
      modifies this`isEditing, this`currentTitle
      ensures !isEditing && TrashEnabled()
      ensures currentTitle == task.title && task == old(task)
      ensures fired == None
    {
      currentTitle := task.title;
      isEditing := false;
      fired := None;
    }

    /** Submitting the title input: fire one edit event carrying the task's id
        and the draft, then leave edit mode. The draft is kept. */
    method HandleSubmitEditing() returns (fired: Option<Event>)
      modifies this`isEditing
      ensures fired == Some(EditTask(task.id, currentTitle))
      ensures !isEditing && TrashEnabled()
      ensures currentTitle == old(currentTitle) && task == old(task)
    {
      fired := Some(EditTask(task.id, currentTitle));
      isEditing := false;
    }

    /** Typing into the title input: the draft follows the text while the
        input is editable; otherwise the input ignores it. */
    method ChangeText(text: string)
      modifies this`currentTitle
      ensures currentTitle == if isEditing then text else old(currentTitle)
      ensures isEditing == old(isEditing) && task == old(task)
    {
      if isEditing {
        currentTitle := text;
      }
    }

    /** The single button beside the trash: it shows the cancel cross while
        editing and the pen otherwise. */
    method PressEditControl() returns (fired: Option<Event>)
      modifies this`isEditing, this`currentTitle
      ensures isEditing == !old(isEditing)
      ensures currentTitle == if old(isEditing) then task.title else old(currentTitle)
      ensures task == old(task) && fired == None
    {
      if isEditing {
        fired := HandleCancelEditing();
      } else {
        fired := HandleStartEditing();
      }
    }

    /** Pressing the row fires `toggleTaskDone` with the task's id and leaves
        the row's own state alone. */
    method PressTask() returns (fired: Option<Event>)
      ensures fired == Some(ToggleTaskDone(task.id))
    {
      fired := Some(ToggleTaskDone(task.id));
    }

    /** Pressing the trash button fires `removeTask` with the task's id,
        unless the button is disabled because the row is editing. */
    method PressTrash() returns (fired: Option<Event>)
      ensures fired.Some? <==> TrashEnabled()
      ensures TrashEnabled() ==> fired == Some(RemoveTask(task.id))
      ensures isEditing ==> fired == None
    {
      if isEditing {
        fired := None;
      } else {
        fired := Some(RemoveTask(task.id));
      }
    }
  }

  /** A whole edit that is cancelled: start editing, type a draft, cancel.
      Nothing is fired and the row is back to showing the task's title. */
  method CancelledEdit(task: Task, draft: string) returns (fired: seq<Option<Event>>, shown: string, editing: bool)
    ensures fired == [None, None] && shown == task.title && !editing
  {
    var row := new TaskItem(task);
    var f1 := row.HandleStartEditing();
    row.ChangeText(draft);
    assert row.currentTitle == draft;
    var f2 := row.HandleCancelEditing();
    fired, shown, editing := [f1, f2], row.currentTitle, row.isEditing;
  }

  /** A whole edit that is submitted: start editing, type a draft, submit.
      Exactly one edit event carrying the draft is fired and the trash
      button is enabled again. */
  method SubmittedEdit(task: Task, draft: string) returns (fired: seq<Option<Event>>, trashEnabled: bool)
    ensures fired == [None, Some(EditTask(task.id, draft))] && trashEnabled
  {
    var row := new TaskItem(task);
    var f1 := row.HandleStartEditing();
    row.ChangeText(draft);
    var f2 := row.HandleSubmitEditing();
    fired, trashEnabled := [f1, f2], row.TrashEnabled();
  }
}
