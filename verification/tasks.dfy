/** The tasks table and the statuses a task goes through. */
module Tasks {
  import opened Common
  import opened AgentIds

  datatype Status = Backlog | Assigned | InProgress | Blocked | InReview | Completed | Failed | Cancelled

  predicate Terminal(s: Status) { s in {Completed, Failed, Cancelled} }

  function ValidTransitions(from: Status): set<Status> {
    match from
    case Backlog => {Assigned, Cancelled}
    case Assigned => {InProgress, Blocked, Cancelled}
    case InProgress => {Blocked, InReview, Completed, Failed, Cancelled}
    case Blocked => {InProgress, Cancelled, Failed}
    case InReview => {InProgress, Completed, Failed, Cancelled}
    case Completed => {}
    case Failed => {}
    case Cancelled => {}
  }

  datatype Task = Task(id: nat, status: Status, assignedTo: Option<AgentId>)

  /** The rows and the id counter, zero while its row is missing. */
  datatype TaskTable = TaskTable(rows: map<nat, Task>, counter: nat)

  /** A task is born assigned. */
  function TaskInserted(t: TaskTable, assignedTo: Option<AgentId>): Option<TaskTable> {
    var id := t.counter + 1;
    if id in t.rows then None
    else Some(TaskTable(t.rows[id := Task(id, Assigned, assignedTo)], id))
  }

  function StatusSet(t: TaskTable, id: nat, status: Status): TaskTable {
    if id in t.rows then t.(rows := t.rows[id := t.rows[id].(status := status)]) else t
  }

  class TaskRepository {
    var rows: map<nat, Task>
    var counter: nat

    ghost function View(): TaskTable
      reads this
    {
      TaskTable(rows, counter)
    }

    /** A row is stored under its own id. */
    ghost predicate Valid()
      reads this
    {
      forall id :: id in rows ==> rows[id].id == id
    }

    constructor ()
      ensures Valid() && View() == TaskTable(map[], 0)
    {
      rows, counter := map[], 0;
    }

    method Get(id: nat) returns (task: Option<Task>)
      ensures task == if id in rows then Some(rows[id]) else None
    {
      task := if id in rows then Some(rows[id]) else None;
    }

    method CreateTask(assignedTo: Option<AgentId>) returns (task: Option<Task>)
      requires Valid()
      modifies this
      ensures Valid()
      ensures
        match TaskInserted(old(View()), assignedTo)
        case None => View() == old(View()) && task == None
        case Some(table) => View() == table && task == Some(table.rows[table.counter])
    {
      var nextId := counter + 1;
      if nextId in rows {
        return None;
      }
      counter := nextId;
      var record := Task(nextId, Assigned, assignedTo);
      rows := rows[nextId := record];
      task := Some(record);
    }

    method UpdateStatus(id: nat, status: Status) returns (task: Option<Task>)
      requires Valid()
      modifies this`rows
      ensures Valid()
      ensures View() == StatusSet(old(View()), id, status)
      ensures task == if id in rows then Some(rows[id]) else None
    {
      if id !in rows {
        return None;
      }
      rows := rows[id := rows[id].(status := status)];
      task := Some(rows[id]);
    }
  }
}
