/**
 * The organization over every interleaving of creates, each in its three parts, with
 * suspensions, resumptions, terminations and restarts.
 */
module OrganizationRuns {
  import opened Common
  import opened AgentIds
  import opened Organization

  /**
   * `minted` is the history of every id ever given to an agent, with the report
   * target it was created under; `creating` holds the creates whose `manages`
   * write is still to come, `launching` the new agents whose launch is.
   */
  datatype World = World(office: Office, up: bool, creating: seq<Creation>, launching: seq<AgentId>,
                         minted: map<AgentId, ReportTarget>)

  datatype Action =
    | Boot
    | Create(creator: AgentId, department: Option<Department>)
    | Complete(index: nat)
    | Launch(index: nat)
    | SuspendAgent(id: AgentId)
    | ResumeAgent(id: AgentId)
    | TerminateAgent(id: AgentId)
    | Crash

  const FRESH := World(Office(Repo(map[], map[]), {}), false, [], [], map[])

  predicate Possible(w: World, a: Action) {
    match a
    case Boot => !w.up
    case Complete(i) => w.up && i < |w.creating|
    case Launch(i) => w.up && i < |w.launching|
    case _ => w.up
  }

  function Without<T>(s: seq<T>, i: nat): seq<T>
    requires i < |s|
  {
    s[..i] + s[i + 1..]
  }

  lemma WithoutIs<T>(s: seq<T>, i: nat)
    requires i < |s|
    ensures |Without(s, i)| == |s| - 1
    ensures forall j :: 0 <= j < |s| - 1 ==> Without(s, i)[j] == s[if j < i then j else j + 1]
  {
  }

  function ActiveIds(agents: Roster): set<AgentId> {
    set id | id in agents && agents[id].status == Active
  }

  function Apply(w: World, a: Action): World
    requires Possible(w, a)
  {
    match a
    case Boot =>
      (match Seeded(w.office.repo)
       case None => w
       case Some(repo) =>
         World(Office(repo, ActiveIds(repo.agents)), true, [], [],
               if repo == w.office.repo then w.minted else w.minted[ROOT := Principal]))
    case Create(creator, department) =>
      (match Begin(w.office, creator, department)
       case (office, Started(c)) =>
         w.(office := office, creating := w.creating + [c], minted := w.minted[c.child := Boss(creator)])
       case _ => w)
    case Complete(i) =>
      var (office, ok) := Enlist(w.office, w.creating[i]);
      w.(office := office, creating := Without(w.creating, i),
         launching := if ok then w.launching + [w.creating[i].child] else w.launching)
    case Launch(i) =>
      w.(office := w.office.(launched := w.office.launched + {w.launching[i]}),
         launching := Without(w.launching, i))
    case SuspendAgent(id) => w.(office := Suspend(w.office, id).0)
    case ResumeAgent(id) => w.(office := Resume(w.office, id).0)
    case TerminateAgent(id) => w.(office := Terminate(w.office, id).0)
    case Crash => w.(office := w.office.(launched := {}), up := false, creating := [], launching := [])
  }

  /** The world after further actions, if every one of them could be taken. */
  function After(w: World, more: seq<Action>): Option<World> {
    if more == [] then Some(w)
    else
      var before := After(w, more[..|more| - 1]);
      if before.Some? && Possible(before.value, more[|more| - 1])
      then Some(Apply(before.value, more[|more| - 1])) else None
  }

  /** The world after a run from an empty database. */
  function Exec(run: seq<Action>): Option<World> { After(FRESH, run) }

  lemma OneMore(w: World, more: seq<Action>, a: Action)
    requires After(w, more).Some? && Possible(After(w, more).value, a)
    ensures After(w, more + [a]) == Some(Apply(After(w, more).value, a))
  {
    assert (more + [a])[..|more|] == more;
  }

  function Roster(w: World): Organization.Roster { w.office.repo.agents }

  // ---- The invariant ----

  /** `id` sits one rung below `boss`, in its department unless the boss is the executive. */
  predicate OneRungBelow(boss: AgentId, id: AgentId) {
    && NextRole(boss.role) == Some(id.role)
    && (boss.role == Executive || boss.department == id.department)
  }

  predicate MintedOk(w: World, id: AgentId)
    requires id in w.minted
  {
    var counters := w.office.repo.counters;
    && (id.role, id.department) in counters && 1 <= id.num <= counters[(id.role, id.department)]
    && (id.role == Executive ==> id == ROOT && w.minted[id] == Principal)
    && (id.role != Executive ==>
          w.minted[id].Boss? && w.minted[id].id in w.minted && OneRungBelow(w.minted[id].id, id))
  }

  /** A list of direct reports: each once, at most eight, each created under `boss`. */
  predicate ReportsOk(minted: map<AgentId, ReportTarget>, boss: AgentId, reports: seq<AgentId>) {
    && |reports| <= MAX_DIRECT_REPORTS
    && NoRepeats(reports)
    && (forall r :: r in reports ==> r in minted && minted[r] == Boss(boss))
  }

  predicate AgentOk(w: World, id: AgentId)
    requires id in Roster(w)
  {
    var a := Roster(w)[id];
    && a.id == id && a.role == id.role && a.department == id.department
    && id in w.minted && a.reportsTo == w.minted[id]
    && ReportsOk(w.minted, id, a.manages)
  }

  predicate CreationOk(w: World, c: Creation) {
    && c.creator in w.minted
    && c.child in w.minted && w.minted[c.child] == Boss(c.creator)
    && ReportsOk(w.minted, c.creator, c.stale + [c.child])
  }

  ghost predicate Inv(w: World) {
    && |Roster(w)| <= MAX_TOTAL_AGENTS
    && (forall id :: id in w.minted ==> MintedOk(w, id))
    && (forall id :: id in Roster(w) ==> AgentOk(w, id))
    && (forall c :: c in w.creating ==> CreationOk(w, c))
    && (w.minted != map[] ==> ROOT in w.minted)
    && ((Executive, AgentIds.Organization) in w.office.repo.counters ==> ROOT in w.minted)
  }

  // ---- Depth ----

  function Rank(role: Role): nat {
    match role case Executive => 0 case Head => 1 case Manager => 2 case Worker => 3
  }

  /** The reporting line of `id` reaches the principal in exactly `steps` hops beyond itself. */
  predicate Rooted(agents: Organization.Roster, id: AgentId, steps: nat)
    decreases steps
  {
    id in agents &&
    if steps == 0 then agents[id].reportsTo == Principal
    else agents[id].reportsTo.Boss? && Rooted(agents, agents[id].reportsTo.id, steps - 1)
  }

  lemma OneUp(w: World, id: AgentId)
    requires Inv(w) && id in Roster(w)
    ensures Roster(w)[id].reportsTo == w.minted[id]
    ensures id.role == Executive <==> w.minted[id] == Principal
    ensures id.role != Executive ==>
      w.minted[id].Boss? && Rank(w.minted[id].id.role) == Rank(id.role) - 1
  {
    assert AgentOk(w, id) && MintedOk(w, id);
  }

  /** The walk from `id` ends `r` hops up, or fails because the reporting line does not get there. */
  predicate WalkGives(agents: Organization.Roster, id: AgentId, from: nat, r: nat)
    requires id in agents
  {
    Depth(agents, agents[id], from) == if Rooted(agents, id, r) then Some(from + r) else None
  }

  lemma HopGives(agents: Organization.Roster, id: AgentId, boss: AgentId, from: nat, r: nat)
    requires id in agents && Rooted(agents, id, r + 1) == Rooted(agents, boss, r)
    requires boss !in agents ==> Depth(agents, agents[id], from) == None && !Rooted(agents, boss, r)
    requires boss in agents ==>
      Depth(agents, agents[id], from) == Depth(agents, agents[boss], from + 1) && WalkGives(agents, boss, from + 1, r)
    ensures WalkGives(agents, id, from, r + 1)
  {
  }

  lemma AtTheTop(w: World, id: AgentId, from: nat)
    requires Inv(w) && id in Roster(w) && id.role == Executive
    ensures WalkGives(Roster(w), id, from, 0) && Rooted(Roster(w), id, 0)
  {
    OneUp(w, id);
  }

  /** One hop of the depth walk, and of the reporting line. */
  lemma OneHop(w: World, id: AgentId, from: nat)
    requires Inv(w) && id in Roster(w) && id.role != Executive && from <= MAX_TOTAL_AGENTS
    ensures
      id in w.minted && w.minted[id].Boss? &&
      var agents, boss := Roster(w), w.minted[id].id;
      && Rank(id.role) == Rank(boss.role) + 1
      && Rooted(agents, id, Rank(id.role)) == Rooted(agents, boss, Rank(boss.role))
      && (boss !in agents ==> Depth(agents, agents[id], from) == None && !Rooted(agents, boss, Rank(boss.role)))
      && (boss in agents ==> Depth(agents, agents[id], from) == Depth(agents, agents[boss], from + 1))
  {
    OneUp(w, id);
  }

  lemma OneMoreHop(w: World, id: AgentId, boss: AgentId, from: nat)
    requires Inv(w) && id in Roster(w) && id.role != Executive && from <= MAX_TOTAL_AGENTS
    requires id in w.minted && w.minted[id] == Boss(boss)
    requires boss in Roster(w) ==> WalkGives(Roster(w), boss, from + 1, Rank(boss.role))
    ensures WalkGives(Roster(w), id, from, Rank(id.role))
  {
    OneHop(w, id, from);
    HopGives(Roster(w), id, boss, from, Rank(boss.role));
  }

  /** The depth walk returns the role's rank, or fails because an agent above is gone; its guard never cuts it short. */
  lemma {:induction false} DepthIsRank(w: World, id: AgentId, from: nat)
    requires Inv(w) && id in Roster(w) && from + Rank(id.role) <= MAX_TOTAL_AGENTS
    ensures WalkGives(Roster(w), id, from, Rank(id.role))
    decreases Rank(id.role)
  {
    if id.role == Executive {
      AtTheTop(w, id, from);
    } else {
      assert AgentOk(w, id) && MintedOk(w, id);
      var boss := w.minted[id].id;
      if boss in Roster(w) {
        DepthIsRank(w, boss, from + 1);
      }
      OneMoreHop(w, id, boss, from);
    }
  }

  lemma NewIdIsFresh(w: World, role: Role, department: Department)
    requires Inv(w)
    ensures AgentId(role, department, NextNum(w.office.repo, role, department)) !in w.minted
  {
    var id := AgentId(role, department, NextNum(w.office.repo, role, department));
    assert id in w.minted ==> MintedOk(w, id);
  }

  lemma InsertSucceeds(w: World, role: Role, department: Department, boss: AgentId)
    requires Inv(w)
    ensures Inserted(w.office.repo, role, department, boss).Some?
  {
    NewIdIsFresh(w, role, department);
    assert forall id :: id in Roster(w) ==> AgentOk(w, id);
  }

  /** The checks before the depth walk. */
  predicate MayCreate(agents: Organization.Roster, creator: AgentId) {
    creator in agents && creator.role != Worker && |agents| < 40 && |agents[creator].manages| < 8
  }

  /** The refusals before the depth walk, in the order of the checks. */
  lemma EarlyVerdicts(w: World, creator: AgentId, department: Option<Department>)
    requires Inv(w) && !MayCreate(Roster(w), creator)
    ensures
      var agents := Roster(w);
      Checked(agents, creator, department) == Err(Refused(
        if creator !in agents then UnknownCreator
        else if creator.role == Worker then Leaf
        else if |agents| == 40 then SizeLimit
        else FanOutLimit))
    ensures creator in Roster(w) ==> |Roster(w)[creator].manages| <= 8
  {
    if creator in Roster(w) {
      assert AgentOk(w, creator);
    }
  }

  /** The depth walk and what comes after it. */
  lemma CheckedAfter(agents: Organization.Roster, creator: AgentId, department: Option<Department>)
    requires MayCreate(agents, creator) && agents[creator].role == creator.role
    requires WalkGives(agents, creator, 0, Rank(creator.role))
    ensures
      var checked := Checked(agents, creator, department);
      if !Rooted(agents, creator, Rank(creator.role)) then checked == Err(Threw)
      else if creator.role == Executive && department == None then checked == Err(Refused(NoDepartment))
      else checked.Ok?
  {
  }

  lemma LateVerdicts(w: World, creator: AgentId, department: Option<Department>)
    requires Inv(w) && MayCreate(Roster(w), creator)
    ensures
      var agents := Roster(w);
      var checked := Checked(agents, creator, department);
      if !Rooted(agents, creator, Rank(creator.role)) then checked == Err(Threw)
      else if creator.role == Executive && department == None then checked == Err(Refused(NoDepartment))
      else checked.Ok?
  {
    assert AgentOk(w, creator);
    DepthIsRank(w, creator, 0);
    CheckedAfter(Roster(w), creator, department);
  }

  /**
   * What create answers, and when. It is never refused for depth, and throws exactly
   * when it gets as far as the depth walk and an agent above is gone.
   */
  lemma CreateVerdicts(w: World, creator: AgentId, department: Option<Department>)
    requires Inv(w)
    ensures
      var agents := Roster(w);
      var begun := Begin(w.office, creator, department).1;
      && (begun == Refused(UnknownCreator) <==> creator !in agents)
      && (begun == Refused(Leaf) <==> creator in agents && creator.role == Worker)
      && (begun == Refused(SizeLimit) <==> creator in agents && creator.role != Worker && |agents| == 40)
      && (begun == Refused(FanOutLimit) <==>
            creator in agents && creator.role != Worker && |agents| < 40 && |agents[creator].manages| == 8)
      && begun != Refused(DepthLimit)
      && (begun == Threw <==> MayCreate(agents, creator) && !Rooted(agents, creator, Rank(creator.role)))
      && (begun == Refused(NoDepartment) <==>
            && MayCreate(agents, creator) && Rooted(agents, creator, Rank(creator.role))
            && creator.role == Executive && department == None)
      && (begun.Started? <==>
            && MayCreate(agents, creator) && Rooted(agents, creator, Rank(creator.role))
            && (creator.role == Executive ==> department.Some?))
  {
    if MayCreate(Roster(w), creator) {
      LateVerdicts(w, creator, department);
    } else {
      EarlyVerdicts(w, creator, department);
    }
    var checked := Checked(Roster(w), creator, department);
    if checked.Ok? {
      InsertSucceeds(w, checked.value.0, checked.value.1, creator);
    }
  }

  /**
   * The new agent's place: one rung below its creator, in the department the executive
   * asked for or, below the executive, in its creator's own.
   */
  lemma ChildIsPlaced(o: Office, creator: AgentId, department: Option<Department>)
    requires Begin(o, creator, department).1.Started?
    ensures
      var agents, agents' := o.repo.agents, Begin(o, creator, department).0.repo.agents;
      var child := Begin(o, creator, department).1.creation.child;
      && creator in agents && child in agents'
      && agents'[child].role == child.role && agents'[child].department == child.department
      && (match agents[creator].role
          case Executive => child.role == Head && department == Some(child.department)
          case Head => child.role == Manager && child.department == agents[creator].department
          case Manager => child.role == Worker && child.department == agents[creator].department
          case Worker => false)
  {
  }

  // ---- Each action keeps the invariant ----

  lemma BootKeeps(w: World)
    requires Inv(w) && !w.up
    ensures Inv(Apply(w, Boot))
  {
    var w' := Apply(w, Boot);
    var seeded := Seeded(w.office.repo);
    if seeded.Some? && seeded.value != w.office.repo {
      assert w.minted == map[];
      assert forall id :: id in Roster(w) ==> AgentOk(w, id);
      assert Roster(w) == map[];
      assert MintedOk(w', ROOT) && AgentOk(w', ROOT);
    } else {
      Unchanged(w, w');
    }
  }

  /** Worlds with the same history and rows, whatever is launched or running. */
  lemma Unchanged(w: World, w': World)
    requires Inv(w) && w'.office.repo == w.office.repo && w'.minted == w.minted
    requires forall c :: c in w'.creating ==> c in w.creating
    ensures Inv(w')
  {
    forall id | id in w'.minted ensures MintedOk(w', id) { assert MintedOk(w, id); }
    forall id | id in Roster(w') ensures AgentOk(w', id) { assert AgentOk(w, id); }
    forall c | c in w'.creating ensures CreationOk(w', c) { assert CreationOk(w, c); }
  }

  lemma RowChangeKeeps(w: World, w': World, id: AgentId)
    requires Inv(w) && id in Roster(w) && w'.minted == w.minted
    requires w'.office.repo.counters == w.office.repo.counters
    requires id in Roster(w') && Roster(w') == Roster(w)[id := Roster(w')[id]]
    requires AgentOk(w', id)
    requires forall c :: c in w'.creating ==> c in w.creating
    ensures Inv(w')
  {
    assert Roster(w').Keys == Roster(w).Keys;
    assert |Roster(w')| == |Roster(w').Keys| == |Roster(w)|;
    forall k | k in w'.minted ensures MintedOk(w', k) { assert MintedOk(w, k); }
    forall k | k in Roster(w') ensures AgentOk(w', k) { assert k != id ==> AgentOk(w, k); }
    forall c | c in w'.creating ensures CreationOk(w', c) { assert CreationOk(w, c); }
  }

  lemma StatusKeeps(w: World, id: AgentId, a: Action)
    requires Inv(w) && w.up && (a == SuspendAgent(id) || a == ResumeAgent(id))
    ensures Inv(Apply(w, a))
  {
    if id in Roster(w) {
      assert AgentOk(w, id);
      RowChangeKeeps(w, Apply(w, a), id);
    } else {
      Unchanged(w, Apply(w, a));
    }
  }

  lemma TerminateKeeps(w: World, id: AgentId)
    requires Inv(w) && w.up
    ensures Inv(Apply(w, TerminateAgent(id)))
  {
    var w' := Apply(w, TerminateAgent(id));
    assert Roster(w').Keys == Roster(w).Keys - {id};
    assert |Roster(w')| == |Roster(w').Keys| && |Roster(w)| == |Roster(w).Keys|;
    assert |Roster(w).Keys - {id}| <= |Roster(w).Keys|;
    forall k | k in w'.minted ensures MintedOk(w', k) { assert MintedOk(w, k); }
    forall k | k in Roster(w') ensures AgentOk(w', k) { assert AgentOk(w, k); }
    forall c | c in w'.creating ensures CreationOk(w', c) { assert CreationOk(w, c); }
  }

  lemma CompleteKeeps(w: World, i: nat)
    requires Inv(w) && Possible(w, Complete(i))
    ensures Inv(Apply(w, Complete(i)))
  {
    var w' := Apply(w, Complete(i));
    var c := w.creating[i];
    assert CreationOk(w, c);
    if c.creator in Roster(w) {
      assert AgentOk(w, c.creator);
      RowChangeKeeps(w, w', c.creator);
    } else {
      Unchanged(w, w');
    }
  }

  /** A started create, in terms of the world before it. */
  lemma StartedCreate(w: World, creator: AgentId, department: Option<Department>)
    requires Inv(w) && Begin(w.office, creator, department).1.Started?
    ensures
      var c := Begin(w.office, creator, department).1.creation;
      var repo' := Begin(w.office, creator, department).0.repo;
      && creator in Roster(w) && c.creator == creator && c.stale == Roster(w)[creator].manages
      && |c.stale| < MAX_DIRECT_REPORTS && |Roster(w)| < MAX_TOTAL_AGENTS
      && c.child !in w.minted && c.child !in Roster(w) && OneRungBelow(creator, c.child)
      && repo'.agents ==
           Roster(w)[c.child := Agent(c.child, c.child.role, c.child.department, [], Boss(creator), Active)]
      && repo'.counters == w.office.repo.counters[(c.child.role, c.child.department) := c.child.num]
      && c.child.num == NextNum(w.office.repo, c.child.role, c.child.department)
  {
    var checked := Checked(Roster(w), creator, department);
    assert AgentOk(w, creator);
    NewIdIsFresh(w, checked.value.0, checked.value.1);
    var c := Begin(w.office, creator, department).1.creation;
    assert forall id :: id in Roster(w) ==> AgentOk(w, id);
  }

  /** `w'` is `w` with the row, the counter and the history entry of a new agent. */
  predicate Adds(w: World, w': World, c: Creation) {
    && c.creator in w.minted && c.child !in w.minted && c.child !in Roster(w) && OneRungBelow(c.creator, c.child)
    && c.child.num == NextNum(w.office.repo, c.child.role, c.child.department)
    && w'.minted == w.minted[c.child := Boss(c.creator)]
    && Roster(w') ==
         Roster(w)[c.child := Agent(c.child, c.child.role, c.child.department, [], Boss(c.creator), Active)]
    && w'.office.repo.counters == w.office.repo.counters[(c.child.role, c.child.department) := c.child.num]
  }

  lemma NewRowCounts(w: World, w': World, c: Creation)
    requires Adds(w, w', c)
    ensures |Roster(w')| == |Roster(w)| + 1
  {
    assert Roster(w').Keys == Roster(w).Keys + {c.child};
    assert |Roster(w')| == |Roster(w').Keys| && |Roster(w)| == |Roster(w).Keys|;
  }

  lemma NewRowMinted(w: World, w': World, c: Creation, id: AgentId)
    requires Adds(w, w', c) && id in w'.minted
    requires id in w.minted ==> MintedOk(w, id)
    requires c.child.role != Executive
    ensures MintedOk(w', id)
  {
  }

  lemma NewRowAgent(w: World, w': World, c: Creation, id: AgentId)
    requires Adds(w, w', c) && id in Roster(w')
    requires id in Roster(w) ==> AgentOk(w, id)
    ensures AgentOk(w', id)
  {
    if id != c.child {
      StillReports(w.minted, w'.minted, id, Roster(w)[id].manages);
    }
  }

  lemma StillReports(minted: map<AgentId, ReportTarget>, minted': map<AgentId, ReportTarget>, boss: AgentId,
                     reports: seq<AgentId>)
    requires ReportsOk(minted, boss, reports)
    requires forall id :: id in minted ==> id in minted' && minted'[id] == minted[id]
    ensures ReportsOk(minted', boss, reports)
  {
  }

  lemma NewReport(minted: map<AgentId, ReportTarget>, boss: AgentId, reports: seq<AgentId>, child: AgentId)
    requires ReportsOk(minted, boss, reports) && |reports| < MAX_DIRECT_REPORTS && child !in minted
    ensures ReportsOk(minted[child := Boss(boss)], boss, reports + [child])
  {
    NoRepeatsSnoc(reports, child);
  }

  lemma NewRowCreation(w: World, w': World, c: Creation, d: Creation)
    requires Adds(w, w', c) && CreationOk(w, d)
    ensures CreationOk(w', d)
  {
    StillReports(w.minted, w'.minted, d.creator, d.stale + [d.child]);
  }

  lemma CreateAdds(w: World, creator: AgentId, department: Option<Department>)
    requires Inv(w) && w.up && Begin(w.office, creator, department).1.Started?
    ensures
      var w' := Apply(w, Create(creator, department));
      var c := Begin(w.office, creator, department).1.creation;
      && Adds(w, w', c) && w'.creating == w.creating + [c] && w'.up
      && creator in Roster(w) && c.creator == creator && c.stale == Roster(w)[creator].manages
      && c.child.role != Executive && ReportsOk(w.minted, creator, c.stale) && |c.stale| < MAX_DIRECT_REPORTS
      && |Roster(w)| < MAX_TOTAL_AGENTS
  {
    StartedCreate(w, creator, department);
    assert AgentOk(w, creator);
  }

  /** A create that does not start changes nothing; one that does leaves every other row as it was. */
  lemma CreateSpares(w: World, creator: AgentId, department: Option<Department>, id: AgentId)
    requires Inv(w) && w.up && id in w.minted
    ensures
      var w' := Apply(w, Create(creator, department));
      && w'.up && w'.office.launched == w.office.launched && w'.launching == w.launching
      && id in w'.minted && w'.minted[id] == w.minted[id]
      && (id in Roster(w) <==> id in Roster(w')) && (id in Roster(w) ==> Roster(w')[id] == Roster(w)[id])
      && (w'.creating == w.creating
          || (|w'.creating| == |w.creating| + 1 && w'.creating[..|w.creating|] == w.creating
              && w'.creating[|w.creating|].child != id && w'.creating[|w.creating|].child in Roster(w')))
  {
    if Begin(w.office, creator, department).1.Started? {
      CreateAdds(w, creator, department);
    }
  }

  lemma CreateKeeps(w: World, creator: AgentId, department: Option<Department>)
    requires Inv(w) && w.up
    ensures Inv(Apply(w, Create(creator, department)))
  {
    if Begin(w.office, creator, department).1.Started? {
      var w' := Apply(w, Create(creator, department));
      var c := Begin(w.office, creator, department).1.creation;
      CreateAdds(w, creator, department);
      NewRowCounts(w, w', c);
      forall id | id in w'.minted ensures MintedOk(w', id) {
        assert id in w.minted ==> MintedOk(w, id);
        NewRowMinted(w, w', c, id);
      }
      forall id | id in Roster(w') ensures AgentOk(w', id) {
        assert id in Roster(w) ==> AgentOk(w, id);
        NewRowAgent(w, w', c, id);
      }
      NewReport(w.minted, creator, c.stale, c.child);
      forall d | d in w'.creating ensures CreationOk(w', d) {
        if d != c {
          assert CreationOk(w, d);
          NewRowCreation(w, w', c, d);
        }
      }
    }
  }

  lemma StepKeeps(w: World, a: Action)
    requires Inv(w) && Possible(w, a)
    ensures Inv(Apply(w, a))
  {
    match a
    case Boot => BootKeeps(w);
    case Create(creator, department) => CreateKeeps(w, creator, department);
    case Complete(i) => CompleteKeeps(w, i);
    case Launch(i) => Unchanged(w, Apply(w, Launch(i)));
    case SuspendAgent(id) => StatusKeeps(w, id, a);
    case ResumeAgent(id) => StatusKeeps(w, id, a);
    case TerminateAgent(id) => TerminateKeeps(w, id);
    case Crash => Unchanged(w, Apply(w, Crash));
  }

  lemma {:induction false} KeptAfter(w: World, more: seq<Action>)
    requires Inv(w) && After(w, more).Some?
    ensures Inv(After(w, more).value)
  {
    if more != [] {
      KeptAfter(w, more[..|more| - 1]);
      StepKeeps(After(w, more[..|more| - 1]).value, more[|more| - 1]);
    }
  }

  lemma EveryRunKeeps(run: seq<Action>)
    requires Exec(run).Some?
    ensures Inv(Exec(run).value)
  {
    KeptAfter(FRESH, run);
  }

  // ---- What every run guarantees ----

  predicate NoTerminations(run: seq<Action>) {
    forall i :: 0 <= i < |run| ==> !run[i].TerminateAgent?
  }

  predicate Everyone(w: World) { w.minted.Keys == Roster(w).Keys }

  lemma NobodyLeavesInAStep(w: World, a: Action)
    requires Inv(w) && Possible(w, a) && Everyone(w) && !a.TerminateAgent?
    ensures Everyone(Apply(w, a))
  {
    match a
    case Create(creator, department) =>
      if Begin(w.office, creator, department).1.Started? {
        StartedCreate(w, creator, department);
      }
    case _ =>
  }

  /** Without terminations every agent ever minted is still there. */
  lemma {:induction false} NobodyLeaves(run: seq<Action>)
    requires Exec(run).Some? && NoTerminations(run)
    ensures Everyone(Exec(run).value)
  {
    if run != [] {
      var before := run[..|run| - 1];
      NobodyLeaves(before);
      EveryRunKeeps(before);
      NobodyLeavesInAStep(Exec(before).value, run[|run| - 1]);
    }
  }

  lemma {:induction false} LineIsUnbroken(w: World, id: AgentId)
    requires Inv(w) && id in Roster(w) && Everyone(w)
    ensures Rooted(Roster(w), id, Rank(id.role))
    decreases Rank(id.role)
  {
    assert AgentOk(w, id) && MintedOk(w, id);
    if id.role != Executive {
      assert Rank(w.minted[id].id.role) == Rank(id.role) - 1;
      LineIsUnbroken(w, w.minted[id].id);
    }
  }

  /**
   * Without terminations, however creates overlap, the organization is a tree under
   * the executive: each agent sits one rung below the agent it reports to, in the
   * same department below the heads, and its depth is its rank.
   */
  lemma OrganizationIsATree(run: seq<Action>, id: AgentId)
    requires Exec(run).Some? && NoTerminations(run) && id in Roster(Exec(run).value)
    ensures
      var agents := Roster(Exec(run).value);
      var a := agents[id];
      && ROOT in agents
      && Rooted(agents, id, Rank(a.role))
      && Depth(agents, a, 0) == Some(Rank(a.role))
      && (id == ROOT <==> a.role == Executive) && (id == ROOT <==> a.reportsTo == Principal)
      && (id != ROOT ==>
            a.reportsTo.id in agents
            && var boss := agents[a.reportsTo.id];
               NextRole(boss.role) == Some(a.role) && (boss.role != Executive ==> boss.department == a.department))
  {
    EveryRunKeeps(run);
    NobodyLeaves(run);
    var w := Exec(run).value;
    LineIsUnbroken(w, id);
    DepthIsRank(w, id, 0);
    assert AgentOk(w, id) && MintedOk(w, id);
    if id != ROOT {
      assert AgentOk(w, w.minted[id].id);
    }
  }

  /** Terminations included: the caps hold, and what is left of a reporting line still descends rung by rung. */
  lemma CapsAlwaysHold(run: seq<Action>, id: AgentId)
    requires Exec(run).Some? && id in Roster(Exec(run).value)
    ensures
      var agents := Roster(Exec(run).value);
      var a := agents[id];
      && |agents| <= 40 && |a.manages| <= 8
      && (a.reportsTo == Principal || OneRungBelow(a.reportsTo.id, id))
      && a.reportsTo != Boss(id)
      && (forall r :: r in a.manages && r in agents ==> agents[r].reportsTo == Boss(id))
  {
    EveryRunKeeps(run);
    var w := Exec(run).value;
    assert AgentOk(w, id) && MintedOk(w, id);
    forall r | r in Roster(w)[id].manages && r in Roster(w) ensures Roster(w)[r].reportsTo == Boss(id) {
      assert AgentOk(w, r);
    }
  }

  /**
   * An id is given out once: a new agent's id was never anyone's before, so no
   * reportsTo or manages entry, dangling or not, already names it.
   */
  lemma IdsAreNeverReused(run: seq<Action>, creator: AgentId, department: Option<Department>)
    requires Exec(run).Some? && Exec(run).value.up
    ensures
      var w := Exec(run).value;
      var begun := Begin(w.office, creator, department).1;
      begun.Started? ==>
        var child := begun.creation.child;
        && child !in w.minted
        && (forall id :: id in Roster(w) ==>
              id != child && Roster(w)[id].reportsTo != Boss(child) && child !in Roster(w)[id].manages)
        && (forall c :: c in w.creating ==> child != c.child && child != c.creator && child !in c.stale)
  {
    EveryRunKeeps(run);
    var w := Exec(run).value;
    if Begin(w.office, creator, department).1.Started? {
      StartedCreate(w, creator, department);
      var child := Begin(w.office, creator, department).1.creation.child;
      forall id | id in Roster(w)
        ensures id != child && Roster(w)[id].reportsTo != Boss(child) && child !in Roster(w)[id].manages
      {
        assert AgentOk(w, id) && MintedOk(w, id);
      }
      forall c | c in w.creating ensures child != c.child && child != c.creator && child !in c.stale {
        assert CreationOk(w, c);
        assert child in c.stale ==> child in c.stale + [c.child];
      }
    }
  }

  /** The ids of a role and department below the executive are numbered from 1 on without gaps. */
  ghost predicate Consecutive(w: World) {
    var counters := w.office.repo.counters;
    forall role, department, m: nat ::
      role != Executive && (role, department) in counters && 1 <= m <= counters[(role, department)] ==>
        AgentId(role, department, m) in w.minted
  }

  lemma NewIdKeepsConsecutive(w: World, w': World, c: Creation)
    requires Adds(w, w', c) && Consecutive(w)
    ensures Consecutive(w')
  {
    forall role, department, m: nat
      | role != Executive && (role, department) in w'.office.repo.counters
        && 1 <= m <= w'.office.repo.counters[(role, department)]
      ensures AgentId(role, department, m) in w'.minted
    {
      assert AgentId(role, department, m) in w.minted || AgentId(role, department, m) == c.child;
    }
  }

  /** Every action but a create that starts leaves the ids below the executive and their counters alone. */
  lemma OthersGiveOutNoNumber(w: World, a: Action, role: Role, department: Department, m: nat)
    requires Possible(w, a) && role != Executive
    requires a.Create? ==> !Begin(w.office, a.creator, a.department).1.Started?
    ensures
      var w', key := Apply(w, a), (role, department);
      && (AgentId(role, department, m) in w.minted <==> AgentId(role, department, m) in w'.minted)
      && (key in w.office.repo.counters <==> key in w'.office.repo.counters)
      && (key in w.office.repo.counters ==> w'.office.repo.counters[key] == w.office.repo.counters[key])
  {
  }

  lemma StepKeepsConsecutive(w: World, a: Action)
    requires Inv(w) && Possible(w, a) && Consecutive(w)
    ensures Consecutive(Apply(w, a))
  {
    var w' := Apply(w, a);
    if a.Create? && Begin(w.office, a.creator, a.department).1.Started? {
      CreateAdds(w, a.creator, a.department);
      NewIdKeepsConsecutive(w, w', Begin(w.office, a.creator, a.department).1.creation);
    } else {
      forall role, department, m: nat
        | role != Executive && (role, department) in w'.office.repo.counters
          && 1 <= m <= w'.office.repo.counters[(role, department)]
        ensures AgentId(role, department, m) in w'.minted
      {
        OthersGiveOutNoNumber(w, a, role, department, m);
      }
    }
  }

  lemma {:induction false} NumberedFromOneOn(run: seq<Action>)
    requires Exec(run).Some?
    ensures Consecutive(Exec(run).value)
  {
    if run != [] {
      EveryRunKeeps(run[..|run| - 1]);
      NumberedFromOneOn(run[..|run| - 1]);
      StepKeepsConsecutive(Exec(run[..|run| - 1]).value, run[|run| - 1]);
    }
  }

  /**
   * Agents are numbered in the order of their creation: the ids given out before in a
   * new agent's role and department are exactly those with the numbers from 1 up to its own.
   */
  lemma NumberedInOrder(run: seq<Action>, creator: AgentId, department: Option<Department>, m: nat)
    requires Exec(run).Some? && Begin(Exec(run).value.office, creator, department).1.Started?
    ensures
      var child := Begin(Exec(run).value.office, creator, department).1.creation.child;
      AgentId(child.role, child.department, m) in Exec(run).value.minted <==> 1 <= m < child.num
  {
    EveryRunKeeps(run);
    NumberedFromOneOn(run);
    var w := Exec(run).value;
    StartedCreate(w, creator, department);
    var child := Begin(w.office, creator, department).1.creation.child;
    var id := AgentId(child.role, child.department, m);
    assert id in w.minted ==> MintedOk(w, id);
    assert AgentOk(w, creator) && MintedOk(w, creator);
  }

  /** Step `i` of the run gave out the id of a head, on the executive's request for its department. */
  predicate RequestedAt(run: seq<Action>, i: nat, id: AgentId) {
    && i < |run| && Exec(run[..i]).Some? && Exec(run[..i + 1]).Some?
    && id !in Exec(run[..i]).value.minted && id in Exec(run[..i + 1]).value.minted
    && run[i] == Create(ROOT, Some(id.department))
  }

  lemma RequestedEarlier(run: seq<Action>, i: nat, id: AgentId)
    requires run != [] && RequestedAt(run[..|run| - 1], i, id)
    ensures RequestedAt(run, i, id)
  {
    assert run[..|run| - 1][..i] == run[..i] && run[..|run| - 1][..i + 1] == run[..i + 1];
  }

  lemma RequestedLast(run: seq<Action>, id: AgentId)
    requires Exec(run).Some? && id in Exec(run).value.minted && id.role == Head
    requires run != [] && id !in Exec(run[..|run| - 1]).value.minted
    ensures RequestedAt(run, |run| - 1, id)
  {
    var n := |run| - 1;
    EveryRunKeeps(run[..n]);
    NewHead(Exec(run[..n]).value, run[n], id);
    assert run[..n + 1] == run;
  }

  /** Only a create by the executive gives out the id of a head, in the department it asks for. */
  lemma NewHead(w: World, a: Action, id: AgentId)
    requires Inv(w) && Possible(w, a) && id !in w.minted && id in Apply(w, a).minted && id.role == Head
    ensures a == Create(ROOT, Some(id.department))
  {
    if a.Create? && Begin(w.office, a.creator, a.department).1.Started? {
      ChildIsPlaced(w.office, a.creator, a.department);
      CreateAdds(w, a.creator, a.department);
      assert AgentOk(w, a.creator) && MintedOk(w, a.creator);
    }
  }

  /** Every head ever created was asked for by the executive, with its department. */
  lemma {:induction false} HeadsAreAsRequested(run: seq<Action>, id: AgentId)
    requires Exec(run).Some? && id in Exec(run).value.minted && id.role == Head
    ensures exists i: nat :: RequestedAt(run, i, id)
  {
    if id in Exec(run[..|run| - 1]).value.minted {
      HeadsAreAsRequested(run[..|run| - 1], id);
      var i: nat :| RequestedAt(run[..|run| - 1], i, id);
      RequestedEarlier(run, i, id);
    } else {
      RequestedLast(run, id);
    }
  }

  /** A restart succeeds exactly on an empty history or while the executive is there. */
  lemma RestartNeedsTheExecutive(w: World)
    requires Inv(w)
    ensures Seeded(w.office.repo).Some? <==> w.minted == map[] || ROOT in Roster(w)
  {
    assert forall id :: id in Roster(w) ==> AgentOk(w, id);
    if ROOT in w.minted {
      assert MintedOk(w, ROOT);
    }
    if ROOT in Roster(w) {
      assert AgentOk(w, ROOT);
    }
    if HasExecutive(Roster(w)) {
      var id :| id in Roster(w) && Roster(w)[id].role == Executive && Roster(w)[id].department == AgentIds.Organization;
      assert AgentOk(w, id) && MintedOk(w, id);
    }
  }

  /** A boot that inserts the executive finds nothing there yet. */
  lemma OnlyAnEmptyDatabaseIsSeeded(w: World)
    requires Inv(w) && Seeded(w.office.repo).Some? && Seeded(w.office.repo).value != w.office.repo
    ensures w.minted == map[]
  {
    assert ROOT in w.minted ==> MintedOk(w, ROOT);
  }

  /** No entry of the history is ever changed or dropped. */
  lemma HistoryGrows(w: World, a: Action, id: AgentId)
    requires Inv(w) && Possible(w, a) && id in w.minted
    ensures id in Apply(w, a).minted && Apply(w, a).minted[id] == w.minted[id]
  {
    match a
    case Boot =>
      if Seeded(w.office.repo).Some? && Seeded(w.office.repo).value != w.office.repo {
        OnlyAnEmptyDatabaseIsSeeded(w);
        assert false;
      }
    case Create(creator, department) =>
      CreateSpares(w, creator, department, id);
    case _ =>
  }

  predicate Gone(w: World, id: AgentId) { id in w.minted && id !in Roster(w) }

  lemma StepLeavesGone(w: World, a: Action, id: AgentId)
    requires Inv(w) && Possible(w, a) && Gone(w, id)
    ensures Gone(Apply(w, a), id)
  {
    HistoryGrows(w, a, id);
    match a
    case Boot =>
      if Seeded(w.office.repo).Some? && Seeded(w.office.repo).value != w.office.repo {
        OnlyAnEmptyDatabaseIsSeeded(w);
        assert false;
      }
    case Create(creator, department) =>
      CreateSpares(w, creator, department, id);
    case _ =>
  }

  /** A terminated agent never comes back. */
  lemma {:induction false} TerminatedStaysGone(w: World, more: seq<Action>, id: AgentId)
    requires Inv(w) && Gone(w, id) && After(w, more).Some?
    ensures Inv(After(w, more).value) && Gone(After(w, more).value, id)
  {
    if more != [] {
      var n := |more| - 1;
      TerminatedStaysGone(w, more[..n], id);
      StepKeeps(After(w, more[..n]).value, more[n]);
      StepLeavesGone(After(w, more[..n]).value, more[n], id);
    }
  }

  /** Once the executive is terminated, every later restart fails. */
  lemma ExecutiveStaysGone(run: seq<Action>, more: seq<Action>)
    requires Exec(run).Some? && Gone(Exec(run).value, ROOT) && After(Exec(run).value, more).Some?
    ensures Seeded(After(Exec(run).value, more).value.office.repo) == None
  {
    EveryRunKeeps(run);
    TerminatedStaysGone(Exec(run).value, more, ROOT);
    RestartNeedsTheExecutive(After(Exec(run).value, more).value);
  }

  // ---- Suspension and resumption, over everything that follows ----

  /**
   * A restart changes no row. It succeeds exactly if the executive is there, and then
   * launches exactly the agents that are not suspended.
   */
  lemma RestartLaunchesTheActive(w: World)
    requires Inv(w) && !w.up && w.minted != map[]
    ensures
      var w' := Apply(w, Boot);
      && Roster(w') == Roster(w)
      && (w'.up <==> ROOT in Roster(w))
      && (!w'.up ==> w' == w)
      && (w'.up ==> w'.creating == [] && w'.launching == [] && w'.office.launched == ActiveIds(Roster(w)))
  {
    RestartNeedsTheExecutive(w);
    if Seeded(w.office.repo).Some? && Seeded(w.office.repo).value != w.office.repo {
      OnlyAnEmptyDatabaseIsSeeded(w);
      assert false;
    }
  }

  /** `id` is active, and launched whenever the process is up. */
  predicate Awake(w: World, id: AgentId) {
    id in Roster(w) && Roster(w)[id].status == Active && (w.up ==> id in w.office.launched)
  }

  /** No suspension and no termination of `id`. */
  predicate LeavesAwake(more: seq<Action>, id: AgentId) {
    forall i :: 0 <= i < |more| ==> more[i] != SuspendAgent(id) && more[i] != TerminateAgent(id)
  }

  lemma StepLeavesAwake(w: World, a: Action, id: AgentId)
    requires Inv(w) && Possible(w, a) && Awake(w, id) && a != SuspendAgent(id) && a != TerminateAgent(id)
    ensures Awake(Apply(w, a), id)
  {
    assert AgentOk(w, id);
    if a.Boot? {
      RestartLaunchesTheActive(w);
    } else if a.Create? {
      CreateSpares(w, a.creator, a.department, id);
    }
  }

  lemma {:induction false} StaysAwake(w: World, more: seq<Action>, id: AgentId)
    requires Inv(w) && Awake(w, id) && After(w, more).Some? && LeavesAwake(more, id)
    ensures Inv(After(w, more).value) && Awake(After(w, more).value, id)
  {
    if more != [] {
      var n := |more| - 1;
      StaysAwake(w, more[..n], id);
      StepKeeps(After(w, more[..n]).value, more[n]);
      StepLeavesAwake(After(w, more[..n]).value, more[n], id);
    }
  }

  /**
   * A resumed agent is active and launched whenever the process is up, through any
   * restarts, until it is suspended or terminated.
   */
  lemma ResumedForGood(run: seq<Action>, id: AgentId, more: seq<Action>)
    requires Exec(run).Some? && Exec(run).value.up && id in Roster(Exec(run).value)
    requires
      var resumed := Apply(Exec(run).value, ResumeAgent(id));
      After(resumed, more).Some? && LeavesAwake(more, id)
    ensures Awake(After(Apply(Exec(run).value, ResumeAgent(id)), more).value, id)
  {
    EveryRunKeeps(run);
    StatusKeeps(Exec(run).value, id, ResumeAgent(id));
    StaysAwake(Apply(Exec(run).value, ResumeAgent(id)), more, id);
  }

  predicate Dormant(w: World, id: AgentId) { id in Roster(w) && Roster(w)[id].status == Suspended }

  /** `id` is neither launched nor about to be. */
  predicate Quiet(w: World, id: AgentId) {
    && id !in w.office.launched && id !in w.launching
    && (forall i :: 0 <= i < |w.creating| ==> w.creating[i].child != id)
  }

  /** No resumption and no termination of `id`. */
  predicate LeavesDormant(more: seq<Action>, id: AgentId) {
    forall i :: 0 <= i < |more| ==> more[i] != ResumeAgent(id) && more[i] != TerminateAgent(id)
  }

  predicate HasCrash(more: seq<Action>) { exists i :: 0 <= i < |more| && more[i] == Crash }

  lemma StepLeavesDormant(w: World, a: Action, id: AgentId)
    requires Inv(w) && Possible(w, a) && Dormant(w, id) && a != ResumeAgent(id) && a != TerminateAgent(id)
    ensures Dormant(Apply(w, a), id)
  {
    assert AgentOk(w, id);
    if a.Boot? {
      RestartLaunchesTheActive(w);
    } else if a.Create? {
      CreateSpares(w, a.creator, a.department, id);
    }
  }

  lemma CreateLeavesQuiet(w: World, creator: AgentId, department: Option<Department>, id: AgentId)
    requires Inv(w) && w.up && id in w.minted && Quiet(w, id)
    ensures Quiet(Apply(w, Create(creator, department)), id)
  {
    CreateSpares(w, creator, department, id);
    var w' := Apply(w, Create(creator, department));
    assert forall i :: 0 <= i < |w.creating| && i < |w'.creating| ==> w'.creating[i] == w'.creating[..|w.creating|][i];
  }

  lemma CompleteLeavesQuiet(w: World, i: nat, id: AgentId)
    requires Possible(w, Complete(i)) && Quiet(w, id)
    ensures Quiet(Apply(w, Complete(i)), id)
  {
    WithoutIs(w.creating, i);
  }

  lemma StepLeavesQuiet(w: World, a: Action, id: AgentId)
    requires Inv(w) && Possible(w, a) && Dormant(w, id) && a != ResumeAgent(id)
    requires a == Crash || Quiet(w, id)
    ensures Quiet(Apply(w, a), id)
  {
    assert AgentOk(w, id);
    match a
    case Boot => RestartLaunchesTheActive(w);
    case Create(creator, department) => CreateLeavesQuiet(w, creator, department, id);
    case Complete(i) => CompleteLeavesQuiet(w, i, id);
    case Launch(i) => WithoutIs(w.launching, i);
    case SuspendAgent(_) =>
    case ResumeAgent(_) =>
    case TerminateAgent(_) =>
    case Crash =>
  }

  /** Only a crash or its own termination stops a launched agent. */
  lemma StepKeepsLaunched(w: World, a: Action, id: AgentId)
    requires Possible(w, a) && w.up && id in w.office.launched && a != Crash && a != TerminateAgent(id)
    ensures Apply(w, a).up && id in Apply(w, a).office.launched
  {
  }

  lemma HasCrashSnoc(more: seq<Action>)
    requires more != []
    ensures HasCrash(more) <==> HasCrash(more[..|more| - 1]) || more[|more| - 1] == Crash
  {
    var n := |more| - 1;
    if HasCrash(more[..n]) {
      var i :| 0 <= i < n && more[..n][i] == Crash;
      assert more[i] == Crash;
    }
    if HasCrash(more) {
      var i :| 0 <= i < |more| && more[i] == Crash;
      assert i < n ==> more[..n][i] == Crash;
    }
  }

  /** What a suspension of `id` comes to. */
  predicate Suspends(w: World, w': World, crashed: bool, id: AgentId) {
    && Dormant(w', id)
    && (crashed ==> Quiet(w', id))
    && (!crashed ==> w'.up && (id in w.office.launched ==> id in w'.office.launched))
  }

  lemma StepSuspends(w: World, before: World, crashed: bool, a: Action, id: AgentId)
    requires Inv(before) && Possible(before, a) && Suspends(w, before, crashed, id)
    requires a != ResumeAgent(id) && a != TerminateAgent(id)
    ensures Suspends(w, Apply(before, a), crashed || a == Crash, id)
  {
    StepLeavesDormant(before, a, id);
    if crashed || a == Crash {
      StepLeavesQuiet(before, a, id);
    } else if id in before.office.launched {
      StepKeepsLaunched(before, a, id);
    }
  }

  lemma {:induction false} StaysDormant(w: World, more: seq<Action>, id: AgentId)
    requires Inv(w) && w.up && Dormant(w, id) && After(w, more).Some? && LeavesDormant(more, id)
    ensures Inv(After(w, more).value) && Suspends(w, After(w, more).value, HasCrash(more), id)
  {
    if more != [] {
      var n := |more| - 1;
      StaysDormant(w, more[..n], id);
      var before := After(w, more[..n]).value;
      StepKeeps(before, more[n]);
      StepSuspends(w, before, HasCrash(more[..n]), more[n], id);
      HasCrashSnoc(more);
    }
  }

  /**
   * A suspended agent stays so until it is resumed or terminated. While the process
   * lives it goes on if it was launched; from the first crash on it never runs.
   */
  lemma SuspendedForGood(run: seq<Action>, id: AgentId, more: seq<Action>)
    requires Exec(run).Some? && Exec(run).value.up && id in Roster(Exec(run).value)
    requires
      var suspended := Apply(Exec(run).value, SuspendAgent(id));
      After(suspended, more).Some? && LeavesDormant(more, id)
    ensures
      var w := Exec(run).value;
      var w' := After(Apply(w, SuspendAgent(id)), more).value;
      && Dormant(w', id)
      && (HasCrash(more) ==> id !in w'.office.launched)
      && (!HasCrash(more) && id in w.office.launched ==> id in w'.office.launched)
  {
    EveryRunKeeps(run);
    StatusKeeps(Exec(run).value, id, SuspendAgent(id));
    StaysDormant(Apply(Exec(run).value, SuspendAgent(id)), more, id);
  }

  // ---- Launched agents and their rows ----

  /** Every launched agent has a row. */
  predicate Housed(w: World) {
    forall id :: id in w.office.launched ==> id in Roster(w)
  }

  /** A step keeps every launched agent housed exactly if it does not launch a new agent whose row is gone. */
  lemma StepKeepsHousedIff(w: World, a: Action)
    requires Inv(w) && Possible(w, a) && Housed(w)
    ensures Housed(Apply(w, a)) <==> (a.Launch? ==> w.launching[a.index] in Roster(w))
  {
    match a
    case Boot =>
      if Seeded(w.office.repo).Some? && Seeded(w.office.repo).value != w.office.repo {
        OnlyAnEmptyDatabaseIsSeeded(w);
      }
    case Create(creator, department) =>
      if Begin(w.office, creator, department).1.Started? {
        CreateAdds(w, creator, department);
      }
    case Launch(i) =>
      assert w.launching[i] in Apply(w, a).office.launched;
    case _ =>
  }

  /** `id` is a new agent whose create is unfinished. */
  predicate Unfinished(w: World, id: AgentId) {
    id in w.launching || exists i :: 0 <= i < |w.creating| && w.creating[i].child == id
  }

  /** No agent is terminated while its create is unfinished. */
  predicate Sparing(w: World, a: Action) {
    a.TerminateAgent? ==> !Unfinished(w, a.id)
  }

  predicate SparingRun(run: seq<Action>) {
    run == [] ||
    (SparingRun(run[..|run| - 1]) &&
     var before := Exec(run[..|run| - 1]);
     before.Some? && Sparing(before.value, run[|run| - 1]))
  }

  predicate NewHaveRows(w: World) {
    && (forall i :: 0 <= i < |w.creating| ==> w.creating[i].child in Roster(w))
    && (forall i :: 0 <= i < |w.launching| ==> w.launching[i] in Roster(w))
  }

  lemma CreateKeepsNewRows(w: World, creator: AgentId, department: Option<Department>)
    requires Inv(w) && w.up && NewHaveRows(w)
    ensures NewHaveRows(Apply(w, Create(creator, department)))
  {
    if Begin(w.office, creator, department).1.Started? {
      CreateAdds(w, creator, department);
    }
  }

  lemma CompleteKeepsNewRows(w: World, i: nat)
    requires Possible(w, Complete(i)) && NewHaveRows(w)
    ensures NewHaveRows(Apply(w, Complete(i)))
  {
    var w' := Apply(w, Complete(i));
    WithoutIs(w.creating, i);
    assert Roster(w').Keys == Roster(w).Keys;
  }

  lemma TerminateKeepsNewRows(w: World, id: AgentId)
    requires w.up && NewHaveRows(w) && !Unfinished(w, id)
    ensures NewHaveRows(Apply(w, TerminateAgent(id)))
  {
    assert forall i :: 0 <= i < |w.creating| ==> w.creating[i].child != id;
  }

  lemma BootKeepsNewRows(w: World)
    requires Inv(w) && !w.up && NewHaveRows(w)
    ensures NewHaveRows(Apply(w, Boot))
  {
    if w.minted != map[] {
      RestartLaunchesTheActive(w);
    }
  }

  lemma StepKeepsNewRows(w: World, a: Action)
    requires Inv(w) && Possible(w, a) && Sparing(w, a) && NewHaveRows(w)
    ensures NewHaveRows(Apply(w, a))
  {
    match a
    case Boot => BootKeepsNewRows(w);
    case Create(creator, department) => CreateKeepsNewRows(w, creator, department);
    case Complete(i) => CompleteKeepsNewRows(w, i);
    case Launch(i) => WithoutIs(w.launching, i);
    case SuspendAgent(id) =>
    case ResumeAgent(id) =>
    case TerminateAgent(id) => TerminateKeepsNewRows(w, id);
    case Crash =>
  }

  lemma {:induction false} SparingRunsHouse(run: seq<Action>)
    requires Exec(run).Some? && SparingRun(run)
    ensures NewHaveRows(Exec(run).value) && Housed(Exec(run).value)
  {
    if run != [] {
      var before, a := run[..|run| - 1], run[|run| - 1];
      SparingRunsHouse(before);
      EveryRunKeeps(before);
      StepKeepsNewRows(Exec(before).value, a);
      StepKeepsHousedIff(Exec(before).value, a);
    }
  }

  /** In runs that never terminate an agent whose create is unfinished, every launched agent has a row. */
  lemma LaunchedHaveRows(run: seq<Action>)
    requires Exec(run).Some? && SparingRun(run)
    ensures Exec(run).value.office.launched <= Roster(Exec(run).value).Keys
  {
    SparingRunsHouse(run);
  }

  /** An agent terminated during its create is listed and launched all the same, without a row. */
  lemma TerminatedWhileBeingCreated(w: World, i: nat)
    requires Inv(w) && Possible(w, Complete(i)) && w.creating[i].creator in Roster(w)
    ensures
      var c := w.creating[i];
      var enlisted := Apply(Apply(w, TerminateAgent(c.child)), Complete(i));
      Possible(enlisted, Launch(|w.launching|)) &&
      var w' := Apply(enlisted, Launch(|w.launching|));
      c.child in w'.office.launched && c.child !in Roster(w') && c.child in Roster(w')[c.creator].manages
  {
    var c := w.creating[i];
    assert CreationOk(w, c);
    assert MintedOk(w, c.child);
    var terminated := Apply(w, TerminateAgent(c.child));
    assert c.creator in Roster(terminated) && c.child !in Roster(terminated);
    var enlisted := Apply(terminated, Complete(i));
    assert enlisted.launching == w.launching + [c.child];
    assert Roster(enlisted)[c.creator].manages == c.stale + [c.child];
  }

  /** The world after the first boot: the executive alone, launched. */
  const BOOTED :=
    World(Office(Repo(map[ROOT := EXECUTIVE], map[(Executive, AgentIds.Organization) := 2]), {ROOT}),
          true, [], [], map[ROOT := Principal])

  lemma FirstBootStep()
    ensures Apply(FRESH, Boot) == BOOTED
  {
    var agents := map[ROOT := EXECUTIVE];
    assert map[][ROOT := EXECUTIVE] == agents && ActiveIds(agents) == {ROOT};
  }

  lemma FirstBoot()
    ensures Exec([Boot]) == Some(BOOTED)
  {
    FirstBootStep();
    assert [] + [Boot] == [Boot];
    OneMore(FRESH, [], Boot);
  }

  /** The executive starts to create a head. */
  lemma FirstCreate(department: Department)
    ensures
      var w := Exec([Boot] + [Create(ROOT, Some(department))]);
      w.Some? && w.value.up && |w.value.creating| == 1 && w.value.creating[0].creator == ROOT
      && ROOT in Roster(w.value) && w.value.creating[0].child in Roster(w.value)
      && w.value.creating[0].child.role == Head && w.value.creating[0].child.department == department
  {
    FirstBoot();
    var w := Exec([Boot]).value;
    EveryRunKeeps([Boot]);
    DepthIsRank(w, ROOT, 0);
    InsertSucceeds(w, Head, department, ROOT);
    ChildIsPlaced(w.office, ROOT, Some(department));
    OneMore(FRESH, [Boot], Create(ROOT, Some(department)));
  }

  /** The executive can have a head in any department. */
  lemma EveryDepartmentIsReached(department: Department)
    ensures
      exists run, id ::
        Exec(run).Some? && id in Roster(Exec(run).value) && id.role == Head && id.department == department
        && Roster(Exec(run).value)[id].department == department
  {
    var run := [Boot] + [Create(ROOT, Some(department))];
    FirstCreate(department);
    EveryRunKeeps(run);
    assert AgentOk(Exec(run).value, Exec(run).value.creating[0].child);
  }

  /** A run that ends with a launched agent that has no row. */
  lemma RowlessAgentIsReached()
    ensures
      exists child ::
        var run := [Boot] + [Create(ROOT, Some(Engineering))] + [TerminateAgent(child)] + [Complete(0)] + [Launch(0)];
        Exec(run).Some? && !Housed(Exec(run).value)
  {
    FirstCreate(Engineering);
    var started := [Boot] + [Create(ROOT, Some(Engineering))];
    var w := Exec(started).value;
    var child := w.creating[0].child;
    EveryRunKeeps(started);
    NothingLaunching(started);
    TerminatedWhileBeingCreated(w, 0);
    OneMore(FRESH, started, TerminateAgent(child));
    OneMore(FRESH, started + [TerminateAgent(child)], Complete(0));
    OneMore(FRESH, started + [TerminateAgent(child)] + [Complete(0)], Launch(0));
    var run := started + [TerminateAgent(child)] + [Complete(0)] + [Launch(0)];
    assert Exec(run).Some? && child in Exec(run).value.office.launched && child !in Roster(Exec(run).value);
  }

  lemma NothingLaunching(run: seq<Action>)
    requires run == [Boot] + [Create(ROOT, Some(Engineering))] && Exec(run).Some?
    ensures Exec(run).value.launching == []
  {
    FirstBoot();
    assert run[..1] == [Boot];
  }

  function Reports(agents: Organization.Roster, boss: AgentId): set<AgentId> {
    set id | id in agents && agents[id].reportsTo == Boss(boss)
  }
}
