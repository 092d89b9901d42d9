/** The record every part of the to-do screen shares (src/components/TasksList.tsx). */
module TasksList {

  /** One to-do entry. `id` is taken from the clock when the entry is added,
      `title` is free text and `done` starts out false. */
  datatype Task = Task(id: int, title: string, done: bool)

  /** The same task with its `done` flag negated and everything else kept. */
  function Negated(t: Task): (r: Task)
    ensures r.id == t.id && r.title == t.title && r.done == !t.done
  {
    t.(done := !t.done)
  }
}
