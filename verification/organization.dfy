/** The agent table with its id counters, and the service that changes it. */
module Organization {
  import opened Common
  import opened AgentIds

  datatype AgentStatus = Active | Suspended

  datatype Agent = Agent(id: AgentId, role: Role, department: Department, manages: seq<AgentId>,
                         reportsTo: ReportTarget, status: AgentStatus)

  type Roster = map<AgentId, Agent>

  /** The agents and counters tables; a counter is keyed by role and department. */
  datatype Repo = Repo(agents: Roster, counters: map<(Role, Department), nat>)

  const MAX_DEPTH := 3
  const MAX_DIRECT_REPORTS := 8
  const MAX_TOTAL_AGENTS := 40

  const ROOT := AgentId(Executive, AgentIds.Organization, 1)
  const EXECUTIVE := Agent(ROOT, Executive, AgentIds.Organization, [], Principal, Active)

  /** The role an agent's subordinates get; workers have none. */
  function NextRole(role: Role): Option<Role> {
    match role
    case Executive => Some(Head)
    case Head => Some(Manager)
    case Manager => Some(Worker)
    case Worker => None
  }

  // ---- Repository ----

  predicate HasExecutive(agents: Roster) {
    exists id :: id in agents && agents[id].role == Executive && agents[id].department == AgentIds.Organization
  }

  /** The default executive, inserted with its counter in one transaction. */
  function Seeded(repo: Repo): Option<Repo> {
    if HasExecutive(repo.agents) then Some(repo)
    else if ROOT in repo.agents || (Executive, AgentIds.Organization) in repo.counters then None
    else Some(Repo(repo.agents[ROOT := EXECUTIVE],
                   repo.counters[(Executive, AgentIds.Organization) := 2]))
  }

  function NextNum(repo: Repo, role: Role, department: Department): nat {
    (if (role, department) in repo.counters then repo.counters[(role, department)] else 0) + 1
  }

  function NewAgent(repo: Repo, role: Role, department: Department, boss: AgentId): Agent {
    Agent(AgentId(role, department, NextNum(repo, role, department)), role, department, [], Boss(boss), Active)
  }

  /** Counter and row in one transaction; none when the id is already taken. */
  function Inserted(repo: Repo, role: Role, department: Department, boss: AgentId): Option<Repo> {
    var a := NewAgent(repo, role, department, boss);
    if a.id in repo.agents then None
    else Some(Repo(repo.agents[a.id := a], repo.counters[(role, department) := a.id.num]))
  }

  /** Tables of the database as the repository object changes them. */
  class AgentRepository {
    var agents: Roster
    var counters: map<(Role, Department), nat>

    ghost function View(): Repo
      reads this
    {
      Repo(agents, counters)
    }

    constructor ()
      ensures View() == Repo(map[], map[])
    {
      agents, counters := map[], map[];
    }

    /** False stands for the failed transaction, which leaves the tables as they were. */
    method SeedDefaults() returns (ok: bool)
      modifies this
      ensures ok == Seeded(old(View())).Some?
      ensures View() == if ok then Seeded(old(View())).value else old(View())
    {
      if HasExecutive(agents) {
        return true;
      }
      ok := ROOT !in agents && (Executive, AgentIds.Organization) !in counters;
      if ok {
        agents := agents[ROOT := EXECUTIVE];
        counters := counters[(Executive, AgentIds.Organization) := 2];
      }
    }

    method Get(id: AgentId) returns (agent: Option<Agent>)
      ensures agent == if id in agents then Some(agents[id]) else None
    {
      agent := if id in agents then Some(agents[id]) else None;
    }

    method CreateAgent(role: Role, department: Department, boss: AgentId) returns (created: Option<Agent>)
      modifies this
      ensures
        match Inserted(old(View()), role, department, boss)
        case None => View() == old(View()) && created == None
        case Some(repo) => View() == repo && created == Some(NewAgent(old(View()), role, department, boss))
    {
      var nextId := (if (role, department) in counters then counters[(role, department)] else 0) + 1;
      var agent := Agent(AgentId(role, department, nextId), role, department, [], Boss(boss), Active);
      if agent.id in agents {
        return None;
      }
      counters := counters[(role, department) := nextId];
      agents := agents[agent.id := agent];
      created := Some(agent);
    }

    method UpdateManages(id: AgentId, manages: seq<AgentId>) returns (ok: bool)
      modifies this`agents
      ensures ok == (id in old(agents))
      ensures agents == if ok then old(agents)[id := old(agents)[id].(manages := manages)] else old(agents)
    {
      ok := id in agents;
      if ok {
        agents := agents[id := agents[id].(manages := manages)];
      }
    }

    method UpdateStatus(id: AgentId, status: AgentStatus) returns (ok: bool)
      modifies this`agents
      ensures ok == (id in old(agents))
      ensures agents == if ok then old(agents)[id := old(agents)[id].(status := status)] else old(agents)
    {
      ok := id in agents;
      if ok {
        agents := agents[id := agents[id].(status := status)];
      }
    }

    method Delete(id: AgentId) returns (ok: bool)
      modifies this`agents
      ensures ok == (id in old(agents)) && agents == old(agents) - {id}
    {
      ok := id in agents;
      agents := agents - {id};
    }
  }

  // ---- Service ----

  /** The tables and the agents that have been launched in this process. */
  datatype Office = Office(repo: Repo, launched: set<AgentId>)

  datatype Refusal = UnknownCreator | Leaf | SizeLimit | FanOutLimit | DepthLimit | NoDepartment

  /** A create whose row is written and whose `manages` update is still to come, with the copy it read. */
  datatype Creation = Creation(creator: AgentId, stale: seq<AgentId>, child: AgentId)

  /** `Threw` is an exception out of create. */
  datatype Begun = Refused(reason: Refusal) | Threw | Started(creation: Creation)

  /** Steps from `agent` to the principal along reportsTo; none when an agent on the way is gone. */
  function Depth(agents: Roster, agent: Agent, depth: nat): Option<nat>
    decreases MAX_TOTAL_AGENTS + 1 - depth
  {
    if agent.reportsTo == Principal || depth > MAX_TOTAL_AGENTS then Some(depth)
    else if agent.reportsTo.id !in agents then None
    else Depth(agents, agents[agent.reportsTo.id], depth + 1)
  }

  /** The checks of create up to the department, in the source's order. */
  function Checked(agents: Roster, creatorId: AgentId, department: Option<Department>)
    : Result<(Role, Department), Begun>
  {
    if creatorId !in agents then Err(Refused(UnknownCreator))
    else
      var creator := agents[creatorId];
      var role := NextRole(creator.role);
      if role == None then Err(Refused(Leaf))
      else if |agents| >= MAX_TOTAL_AGENTS then Err(Refused(SizeLimit))
      else if |creator.manages| >= MAX_DIRECT_REPORTS then Err(Refused(FanOutLimit))
      else
        var depth := Depth(agents, creator, 0);
        if depth == None then Err(Threw)
        else if depth.value + 1 > MAX_DEPTH then Err(Refused(DepthLimit))
        else if creator.role != Executive then Ok((role.value, creator.department))
        else if department == None then Err(Refused(NoDepartment))
        else Ok((role.value, department.value))
  }

  /** create up to its first await: the checks and the insert. */
  function Begin(o: Office, creatorId: AgentId, department: Option<Department>): (Office, Begun) {
    match Checked(o.repo.agents, creatorId, department)
    case Err(begun) => (o, begun)
    case Ok((role, dept)) =>
      match Inserted(o.repo, role, dept, creatorId)
      case None => (o, Threw)
      case Some(repo) =>
        (o.(repo := repo),
         Started(Creation(creatorId, o.repo.agents[creatorId].manages, NewAgent(o.repo, role, dept, creatorId).id)))
  }

  function WithManages(agents: Roster, id: AgentId, manages: seq<AgentId>): Roster
    requires id in agents
  {
    agents[id := agents[id].(manages := manages)]
  }

  /** create from its first to its second await: the `manages` write, from the stale copy. */
  function Enlist(o: Office, c: Creation): (Office, bool) {
    if c.creator !in o.repo.agents then (o, false)
    else (o.(repo := o.repo.(agents := WithManages(o.repo.agents, c.creator, c.stale + [c.child]))), true)
  }

  function Suspend(o: Office, id: AgentId): (Office, bool) {
    if id !in o.repo.agents then (o, false)
    else (o.(repo := o.repo.(agents := o.repo.agents[id := o.repo.agents[id].(status := Suspended)])), true)
  }

  function Resume(o: Office, id: AgentId): (Office, bool) {
    if id !in o.repo.agents then (o, false)
    else
      (Office(o.repo.(agents := o.repo.agents[id := o.repo.agents[id].(status := Active)]), o.launched + {id}), true)
  }

  /** The agent is stopped and forgotten first, so this happens even when the row is missing. */
  function Terminate(o: Office, id: AgentId): (Office, bool) {
    (Office(o.repo.(agents := o.repo.agents - {id}), o.launched - {id}), id in o.repo.agents)
  }

  class AgentService {
    const repo: AgentRepository
    var launched: set<AgentId>

    ghost function View(): Office
      reads this, repo
    {
      Office(repo.View(), launched)
    }

    /** Launches every active agent of the table. */
    constructor (repo: AgentRepository)
      ensures this.repo == repo
      ensures launched == set id | id in repo.agents && repo.agents[id].status == Active
    {
      this.repo := repo;
      launched := set id | id in repo.agents && repo.agents[id].status == Active;
    }

    method DepthOf(agent: Agent) returns (depth: Option<nat>)
      ensures depth == Depth(repo.agents, agent, 0)
    {
      var d := 0;
      var current := agent;
      while current.reportsTo != Principal && d <= MAX_TOTAL_AGENTS
        invariant Depth(repo.agents, current, d) == Depth(repo.agents, agent, 0)
        decreases MAX_TOTAL_AGENTS + 1 - d
      {
        var boss := repo.Get(current.reportsTo.id);
        if boss == None {
          return None;
        }
        current := boss.value;
        d := d + 1;
      }
      depth := Some(d);
    }

    method BeginCreate(creatorId: AgentId, department: Option<Department>) returns (r: Begun)
      modifies repo
      ensures View() == Begin(old(View()), creatorId, department).0
      ensures r == Begin(old(View()), creatorId, department).1
    {
      var found := repo.Get(creatorId);
      if found == None {
        return Refused(UnknownCreator);
      }
      var creator := found.value;
      var role := NextRole(creator.role);
      if role == None {
        return Refused(Leaf);
      }
      if |repo.agents| >= MAX_TOTAL_AGENTS {
        return Refused(SizeLimit);
      }
      if |creator.manages| >= MAX_DIRECT_REPORTS {
        return Refused(FanOutLimit);
      }
      var depth := DepthOf(creator);
      if depth == None {
        return Threw;
      }
      if depth.value + 1 > MAX_DEPTH {
        return Refused(DepthLimit);
      }
      var chosen := creator.department;
      if creator.role == Executive {
        if department == None {
          return Refused(NoDepartment);
        }
        chosen := department.value;
      }
      var created := repo.CreateAgent(role.value, chosen, creatorId);
      if created == None {
        return Threw;
      }
      r := Started(Creation(creatorId, creator.manages, created.value.id));
    }

    method EnlistChild(c: Creation) returns (ok: bool)
      modifies repo
      ensures View() == Enlist(old(View()), c).0 && ok == Enlist(old(View()), c).1
      ensures ok <==> c.creator in old(repo.agents)
    {
      ok := repo.UpdateManages(c.creator, c.stale + [c.child]);
    }

    /** The last part of create, and of a resumption. */
    method Launch(id: AgentId)
      modifies this`launched
      ensures launched == old(launched) + {id}
    {
      launched := launched + {id};
    }

    method HandleSuspension(id: AgentId) returns (ok: bool)
      modifies repo
      ensures View() == Suspend(old(View()), id).0 && ok == Suspend(old(View()), id).1
      ensures ok <==> id in old(repo.agents)
    {
      ok := repo.UpdateStatus(id, Suspended);
    }

    method HandleResume(id: AgentId) returns (ok: bool)
      modifies this, repo
      ensures View() == Resume(old(View()), id).0 && ok == Resume(old(View()), id).1
      ensures ok <==> id in old(repo.agents)
    {
      ok := repo.UpdateStatus(id, Active);
      if ok {
        Launch(id);
      }
    }

    method HandleTermination(id: AgentId) returns (ok: bool)
      modifies this, repo
      ensures View() == Terminate(old(View()), id).0 && ok == Terminate(old(View()), id).1
      ensures ok <==> id in old(repo.agents)
    {
      launched := launched - {id};
      ok := repo.Delete(id);
    }
  }
}
