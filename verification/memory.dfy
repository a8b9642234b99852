/** Working memory of the agents, and the warehouse it is archived to when a task closes. */
module Memory {
  import opened Common
  import opened AgentIds
  import opened Tasks

  datatype Message = Message(role: string, content: string)

  datatype Entry = Entry(id: nat, taskId: nat, agentId: AgentId, outcome: Status, messages: seq<Message>)

  /** Working memory by agent, the warehouse rows in insertion order, and their id counter. */
  datatype Store = Store(working: map<AgentId, seq<Message>>, warehouse: seq<Entry>, counter: nat)

  function Working(m: Store, agent: AgentId): seq<Message> {
    if agent in m.working then m.working[agent] else []
  }

  function TurnRecorded(m: Store, agent: AgentId, messages: seq<Message>): Store {
    m.(working := m.working[agent := Working(m, agent) + messages])
  }

  /** A closeTask that has read the working memory and waits for the learning to be extracted. */
  datatype Closing = Closing(taskId: nat, agentId: AgentId, outcome: Status, messages: seq<Message>)

  function Cleared(m: Store, agent: AgentId): Store {
    m.(working := m.working - {agent})
  }

  function Archived(m: Store, c: Closing): Store {
    var id := m.counter + 1;
    m.(warehouse := m.warehouse + [Entry(id, c.taskId, c.agentId, c.outcome, c.messages)], counter := id)
  }

  class AgentMemoryRepository {
    var rows: map<AgentId, seq<Message>>

    constructor ()
      ensures rows == map[]
    {
      rows := map[];
    }

    method Get(agent: AgentId) returns (messages: Option<seq<Message>>)
      ensures messages == if agent in rows then Some(rows[agent]) else None
    {
      messages := if agent in rows then Some(rows[agent]) else None;
    }

    method Append(agent: AgentId, messages: seq<Message>)
      modifies this
      ensures rows == old(rows)[agent := (if agent in old(rows) then old(rows)[agent] else []) + messages]
    {
      if agent in rows {
        rows := rows[agent := rows[agent] + messages];
      } else {
        assert [] + messages == messages;
        rows := rows[agent := messages];
      }
    }

    method Clear(agent: AgentId)
      modifies this
      ensures rows == old(rows) - {agent}
    {
      rows := rows - {agent};
    }
  }

  class MemoryWarehouseRepository {
    var rows: seq<Entry>
    var counter: nat

    constructor ()
      ensures rows == [] && counter == 0
    {
      rows, counter := [], 0;
    }

    method Archive(taskId: nat, agentId: AgentId, outcome: Status, messages: seq<Message>)
      modifies this
      ensures counter == old(counter) + 1
      ensures rows == old(rows) + [Entry(counter, taskId, agentId, outcome, messages)]
    {
      counter := counter + 1;
      rows := rows + [Entry(counter, taskId, agentId, outcome, messages)];
    }
  }

  class MemoryService {
    const tasks: TaskRepository
    const memories: AgentMemoryRepository
    const warehouse: MemoryWarehouseRepository

    ghost function View(): Store
      reads memories, warehouse
    {
      Store(memories.rows, warehouse.rows, warehouse.counter)
    }

    constructor (tasks: TaskRepository, memories: AgentMemoryRepository, warehouse: MemoryWarehouseRepository)
      ensures this.tasks == tasks && this.memories == memories && this.warehouse == warehouse
    {
      this.tasks, this.memories, this.warehouse := tasks, memories, warehouse;
    }

    method RecordTurn(agent: AgentId, messages: seq<Message>)
      modifies memories
      ensures View() == TurnRecorded(old(View()), agent, messages)
    {
      memories.Append(agent, messages);
    }

    /** closeTask up to the wait for the learning; none when it throws because the task is missing. */
    method BeginCloseTask(agent: AgentId, taskId: nat, closedReason: Status) returns (c: Option<Closing>)
      ensures c ==
        if taskId in tasks.rows then Some(Closing(taskId, agent, closedReason, Working(View(), agent))) else None
    {
      var memory := memories.Get(agent);
      var task := tasks.Get(taskId);
      if task == None {
        return None;
      }
      var messages := if memory.Some? then memory.value else [];
      c := Some(Closing(taskId, agent, closedReason, messages));
    }

    /** The rest of closeTask; without a learning it throws and nothing is written. */
    method FinishCloseTask(c: Closing, learned: bool)
      modifies memories, warehouse
      ensures View() == if learned then Archived(Cleared(old(View()), c.agentId), c) else old(View())
    {
      if learned {
        memories.Clear(c.agentId);
        warehouse.Archive(c.taskId, c.agentId, c.outcome, c.messages);
      }
    }
  }
}
