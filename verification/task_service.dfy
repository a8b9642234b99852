/** Creation and transitions of tasks, with the authority over completion. */
module TaskServices {
  import opened Common
  import opened AgentIds
  import opened Tasks
  import opened Memory
  import Organization

  /** Who asks for a transition: the principal, an agent, or a service of the platform. */
  datatype Source = Party(target: ReportTarget) | Service

  datatype Verdict = Transitioned | NotFound | Illegal | NotTheManager

  /** The assignee's report target; none when nobody is assigned or the assignee is gone. */
  function ManagerOf(agents: Organization.Roster, task: Task): Option<ReportTarget> {
    if task.assignedTo.Some? && task.assignedTo.value in agents
    then Some(agents[task.assignedTo.value].reportsTo)
    else None
  }

  function Judge(table: TaskTable, agents: Organization.Roster, source: Source, id: nat, to: Status): Verdict {
    if id !in table.rows then NotFound
    else
      var task := table.rows[id];
      if to !in ValidTransitions(task.status) then Illegal
      else if to == Completed && (ManagerOf(agents, task) == None || source != Party(ManagerOf(agents, task).value))
      then NotTheManager
      else Transitioned
  }

  /** The close that a transition starts: only for a terminal status and an assignee that still exists. */
  function StartedClose(table: TaskTable, agents: Organization.Roster, m: Store, id: nat, to: Status): Option<Closing>
    requires id in table.rows
  {
    var assignee := table.rows[id].assignedTo;
    if Terminal(to) && assignee.Some? && assignee.value in agents
    then Some(Closing(id, assignee.value, to, Working(m, assignee.value)))
    else None
  }

  class TaskService {
    const tasks: TaskRepository
    const agents: Organization.AgentRepository
    const memory: MemoryService

    ghost predicate Valid()
      reads tasks
    {
      memory.tasks == tasks && tasks.Valid()
    }

    constructor (tasks: TaskRepository, agents: Organization.AgentRepository, memory: MemoryService)
      requires memory.tasks == tasks && tasks.Valid()
      ensures this.tasks == tasks && this.agents == agents && this.memory == memory && Valid()
    {
      this.tasks, this.agents, this.memory := tasks, agents, memory;
    }

    method Create(assignTo: Option<AgentId>) returns (id: Option<nat>)
      requires Valid()
      modifies tasks
      ensures Valid()
      ensures
        var table := TaskInserted(old(tasks.View()), assignTo);
        if assignTo == None || assignTo.value !in agents.agents || table == None
        then id == None && tasks.View() == old(tasks.View())
        else id == Some(table.value.counter) && tasks.View() == table.value
    {
      if assignTo == None {
        return None;
      }
      var agent := agents.Get(assignTo.value);
      if agent == None {
        return None;
      }
      var task := tasks.CreateTask(assignTo);
      id := if task.Some? then Some(task.value.id) else None;
    }

    /** transition up to the wait inside closeTask. */
    method BeginTransition(source: Source, id: nat, to: Status) returns (v: Verdict, c: Option<Closing>)
      requires Valid()
      modifies tasks
      ensures Valid()
      ensures v == Judge(old(tasks.View()), agents.agents, source, id, to)
      ensures tasks.View() == if v == Transitioned then StatusSet(old(tasks.View()), id, to) else old(tasks.View())
      ensures c ==
        if v == Transitioned then StartedClose(old(tasks.View()), agents.agents, memory.View(), id, to) else None
    {
      c := None;
      var found := tasks.Get(id);
      if found == None {
        return NotFound, None;
      }
      var task := found.value;
      if to !in ValidTransitions(task.status) {
        return Illegal, None;
      }
      if to == Completed {
        var managerId: Option<ReportTarget> := None;
        if task.assignedTo.Some? {
          var agent := agents.Get(task.assignedTo.value);
          if agent.Some? {
            managerId := Some(agent.value.reportsTo);
          }
        }
        if managerId == None || source != Party(managerId.value) {
          return NotTheManager, None;
        }
      }
      var updated := tasks.UpdateStatus(id, to);
      if updated.Some? && Terminal(to) {
        c := BeginArchive(updated.value, to);
      }
      v := Transitioned;
    }

    method BeginArchive(task: Task, reason: Status) returns (c: Option<Closing>)
      requires Valid()
      ensures c ==
        if task.assignedTo.Some? && task.assignedTo.value in agents.agents && task.id in tasks.rows
        then Some(Closing(task.id, task.assignedTo.value, reason, Working(memory.View(), task.assignedTo.value)))
        else None
    {
      if task.assignedTo == None {
        return None;
      }
      var agent := agents.Get(task.assignedTo.value);
      if agent == None {
        return None;
      }
      c := memory.BeginCloseTask(task.assignedTo.value, task.id, reason);
    }
  }
}
