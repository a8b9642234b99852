/**
 * Tasks, working memory and the organization over every run: transitions asked for
 * by anyone, closes that wait for their learning, recorded turns, and every step of
 * the organization, restarts included.
 */
module TaskRuns {
  import opened Common
  import opened AgentIds
  import opened Tasks
  import opened Memory
  import opened TaskServices
  import Organization
  import Org = OrganizationRuns

  datatype Move = Move(asker: Source, to: Status)

  /**
   * `closing` holds the closes that wait for a learning. `past` is the history of
   * each task's transitions, `recorded` of every message recorded for each agent.
   */
  datatype World = World(org: Org.World, table: TaskTable, store: Store, closing: seq<Closing>,
                         past: map<nat, seq<Move>>, recorded: map<AgentId, seq<Message>>)

  /** `TearClose` is a process that dies after the working memory is cleared and before it is archived. */
  datatype Action =
    | OrgStep(step: Org.Action)
    | CreateTask(assignTo: Option<AgentId>)
    | Transition(source: Source, id: nat, to: Status)
    | FinishClose(index: nat, learned: bool)
    | TearClose(index: nat)
    | Record(agent: AgentId, messages: seq<Message>)

  const FRESH := World(Org.FRESH, TaskTable(map[], 0), Store(map[], [], 0), [], map[], map[])

  predicate Possible(w: World, a: Action) {
    match a
    case OrgStep(step) => Org.Possible(w.org, step)
    case FinishClose(i, _) => w.org.up && i < |w.closing|
    case TearClose(i) => w.org.up && i < |w.closing|
    case _ => w.org.up
  }

  function Agents(w: World): Organization.Roster { Org.Roster(w.org) }

  function Past(w: World, id: nat): seq<Move> { if id in w.past then w.past[id] else [] }

  function Recorded(w: World, agent: AgentId): seq<Message> {
    if agent in w.recorded then w.recorded[agent] else []
  }

  function Without(closing: seq<Closing>, i: nat): seq<Closing>
    requires i < |closing|
  {
    closing[..i] + closing[i + 1..]
  }

  function Created(w: World, assignTo: Option<AgentId>): World {
    var table := TaskInserted(w.table, assignTo);
    if assignTo == None || assignTo.value !in Agents(w) || table == None then w
    else w.(table := table.value, past := w.past[table.value.counter := []])
  }

  function WithStarted(closing: seq<Closing>, started: Option<Closing>): seq<Closing> {
    if started.Some? then closing + [started.value] else closing
  }

  function Moved(w: World, source: Source, id: nat, to: Status): World {
    if Judge(w.table, Agents(w), source, id, to) != Transitioned then w
    else
      var started := StartedClose(w.table, Agents(w), w.store, id, to);
      w.(table := StatusSet(w.table, id, to),
         past := w.past[id := Past(w, id) + [Move(source, to)]],
         closing := WithStarted(w.closing, started))
  }

  function Apply(w: World, a: Action): World
    requires Possible(w, a)
  {
    match a
    case OrgStep(step) => w.(org := Org.Apply(w.org, step), closing := if step.Crash? then [] else w.closing)
    case CreateTask(assignTo) => Created(w, assignTo)
    case Transition(source, id, to) => Moved(w, source, id, to)
    case FinishClose(i, learned) =>
      var c := w.closing[i];
      w.(store := if learned then Archived(Cleared(w.store, c.agentId), c) else w.store,
         closing := Without(w.closing, i))
    case TearClose(i) =>
      w.(store := Cleared(w.store, w.closing[i].agentId), closing := [], org := Org.Apply(w.org, Org.Crash))
    case Record(agent, messages) =>
      w.(store := TurnRecorded(w.store, agent, messages),
         recorded := w.recorded[agent := Recorded(w, agent) + messages])
  }

  /** The world after further actions, if every one of them could be taken. */
  function After(w: World, more: seq<Action>): Option<World> {
    if more == [] then Some(w)
    else
      var before := After(w, more[..|more| - 1]);
      if before.Some? && Possible(before.value, more[|more| - 1])
      then Some(Apply(before.value, more[|more| - 1])) else None
  }

  /** The world after a run from an empty database. */
  function Exec(run: seq<Action>): Option<World> { After(FRESH, run) }

  lemma OneMore(w: World, more: seq<Action>, a: Action)
    requires After(w, more).Some? && Possible(After(w, more).value, a)
    ensures After(w, more + [a]) == Some(Apply(After(w, more).value, a))
  {
    assert (more + [a])[..|more|] == more;
  }

  // ---- The invariant ----

  function StatusAfter(moves: seq<Move>): Status {
    if moves == [] then Assigned else moves[|moves| - 1].to
  }

  /** Transitions from the first status on, each allowed from the one before, completion only by `boss`. */
  predicate Legal(moves: seq<Move>, boss: ReportTarget) {
    moves == [] ||
    var n := |moves| - 1;
    && Legal(moves[..n], boss)
    && moves[n].to in ValidTransitions(StatusAfter(moves[..n]))
    && (moves[n].to == Completed ==> moves[n].asker == Party(boss))
  }

  predicate TaskOk(w: World, id: nat)
    requires id in w.table.rows
  {
    var task := w.table.rows[id];
    && task.id == id && 1 <= id <= w.table.counter && id in w.past
    && task.assignedTo.Some? && task.assignedTo.value in w.org.minted
    && task.status == StatusAfter(w.past[id])
    && Legal(w.past[id], w.org.minted[task.assignedTo.value])
  }

  /** `taskId` is closed with `outcome`, and `agent` is its assignee. */
  predicate Filed(table: TaskTable, taskId: nat, agent: AgentId, outcome: Status) {
    && taskId in table.rows && Terminal(outcome)
    && table.rows[taskId].assignedTo == Some(agent) && table.rows[taskId].status == outcome
  }

  predicate EntryOk(table: TaskTable, warehouse: seq<Entry>, i: nat)
    requires i < |warehouse|
  {
    warehouse[i].id == i + 1 && Filed(table, warehouse[i].taskId, warehouse[i].agentId, warehouse[i].outcome)
  }

  predicate ClosingOk(table: TaskTable, c: Closing) { Filed(table, c.taskId, c.agentId, c.outcome) }

  /** No task is filed twice, in the warehouse or among the closes under way. */
  predicate OneFileEach(warehouse: seq<Entry>, closing: seq<Closing>) {
    && (forall i, j :: 0 <= i < j < |warehouse| ==> warehouse[i].taskId != warehouse[j].taskId)
    && (forall i, j :: 0 <= i < j < |closing| ==> closing[i].taskId != closing[j].taskId)
    && (forall i, j :: 0 <= i < |warehouse| && 0 <= j < |closing| ==> warehouse[i].taskId != closing[j].taskId)
  }

  ghost predicate FilesOk(table: TaskTable, store: Store, closing: seq<Closing>) {
    && store.counter == |store.warehouse|
    && (forall i :: 0 <= i < |store.warehouse| ==> EntryOk(table, store.warehouse, i))
    && (forall j :: 0 <= j < |closing| ==> ClosingOk(table, closing[j]))
    && OneFileEach(store.warehouse, closing)
  }

  ghost predicate Inv(w: World) {
    && Org.Inv(w.org)
    && (forall id :: id in w.table.rows ==> TaskOk(w, id))
    && FilesOk(w.table, w.store, w.closing)
  }

  // ---- Each action keeps it ----

  lemma OrgStepKeepsTasks(w: World, step: Org.Action)
    requires Inv(w) && Org.Possible(w.org, step)
    ensures Inv(w.(org := Org.Apply(w.org, step)))
  {
    var w' := w.(org := Org.Apply(w.org, step));
    Org.StepKeeps(w.org, step);
    forall id | id in w'.table.rows ensures TaskOk(w', id) {
      assert TaskOk(w, id);
      Org.HistoryGrows(w.org, step, w.table.rows[id].assignedTo.value);
    }
  }

  lemma FewerClosings(table: TaskTable, store: Store, closing: seq<Closing>)
    requires FilesOk(table, store, closing)
    ensures FilesOk(table, store, [])
  {
  }

  lemma OrgStepKeeps(w: World, step: Org.Action)
    requires Inv(w) && Org.Possible(w.org, step)
    ensures Inv(Apply(w, OrgStep(step)))
  {
    OrgStepKeepsTasks(w, step);
    FewerClosings(w.table, w.store, w.closing);
    TasksOnly(w.(org := Org.Apply(w.org, step)), Apply(w, OrgStep(step)));
  }

  /** Tasks do not depend on the memories. */
  lemma TasksOnly(w: World, w': World)
    requires Inv(w) && w'.org == w.org && w'.table == w.table && w'.past == w.past
    requires FilesOk(w'.table, w'.store, w'.closing)
    ensures Inv(w')
  {
    forall id | id in w'.table.rows ensures TaskOk(w', id) { assert TaskOk(w, id); }
  }

  lemma NewRowKeepsFiles(table: TaskTable, table': TaskTable, store: Store, closing: seq<Closing>)
    requires FilesOk(table, store, closing)
    requires forall id :: id in table.rows ==> id in table'.rows && table'.rows[id] == table.rows[id]
    ensures FilesOk(table', store, closing)
  {
    forall i | 0 <= i < |store.warehouse| ensures EntryOk(table', store.warehouse, i) {
      assert EntryOk(table, store.warehouse, i);
    }
    forall j | 0 <= j < |closing| ensures ClosingOk(table', closing[j]) {
      assert ClosingOk(table, closing[j]);
    }
  }

  lemma AgentWasMinted(w: Org.World, id: AgentId)
    requires Org.Inv(w) && id in Org.Roster(w)
    ensures id in w.minted && Org.Roster(w)[id].reportsTo == w.minted[id]
  {
    assert Org.AgentOk(w, id);
  }

  lemma CreatedTask(w: World, assignTo: Option<AgentId>, id: nat)
    requires Inv(w) && Created(w, assignTo) != w && id in Created(w, assignTo).table.rows
    ensures TaskOk(Created(w, assignTo), id)
  {
    if id in w.table.rows {
      assert TaskOk(w, id);
    } else {
      AgentWasMinted(w.org, assignTo.value);
    }
  }

  lemma CreateKeeps(w: World, assignTo: Option<AgentId>)
    requires Inv(w)
    ensures Inv(Created(w, assignTo))
  {
    var w' := Created(w, assignTo);
    NewRowKeepsFiles(w.table, w'.table, w.store, w.closing);
    if w' != w {
      forall id | id in w'.table.rows ensures TaskOk(w', id) {
        CreatedTask(w, assignTo, id);
      }
    }
  }

  lemma LegalSnoc(moves: seq<Move>, m: Move, boss: ReportTarget)
    requires Legal(moves, boss) && m.to in ValidTransitions(StatusAfter(moves))
    requires m.to == Completed ==> m.asker == Party(boss)
    ensures Legal(moves + [m], boss) && StatusAfter(moves + [m]) == m.to
  {
    assert (moves + [m])[..|moves|] == moves;
  }

  lemma MovedTask(w: World, source: Source, id: nat, to: Status)
    requires Inv(w) && Judge(w.table, Agents(w), source, id, to) == Transitioned
    ensures TaskOk(Moved(w, source, id, to), id)
  {
    assert TaskOk(w, id);
    var assignee := w.table.rows[id].assignedTo.value;
    if to == Completed {
      AgentWasMinted(w.org, assignee);
    }
    LegalSnoc(w.past[id], Move(source, to), w.org.minted[assignee]);
  }

  /** A task that can still move is filed nowhere. */
  lemma OpenIsNotFiled(w: World, id: nat)
    requires Inv(w) && id in w.table.rows && !Terminal(w.table.rows[id].status)
    ensures forall i :: 0 <= i < |w.store.warehouse| ==> w.store.warehouse[i].taskId != id
    ensures forall j :: 0 <= j < |w.closing| ==> w.closing[j].taskId != id
  {
    forall i | 0 <= i < |w.store.warehouse| ensures w.store.warehouse[i].taskId != id {
      assert EntryOk(w.table, w.store.warehouse, i);
    }
    forall j | 0 <= j < |w.closing| ensures w.closing[j].taskId != id {
      assert ClosingOk(w.table, w.closing[j]);
    }
  }

  /** Files of other tasks do not notice a status change. */
  lemma StatusChangeKeepsFiles(table: TaskTable, store: Store, closing: seq<Closing>, id: nat, to: Status)
    requires FilesOk(table, store, closing)
    requires forall i :: 0 <= i < |store.warehouse| ==> store.warehouse[i].taskId != id
    requires forall j :: 0 <= j < |closing| ==> closing[j].taskId != id
    ensures FilesOk(StatusSet(table, id, to), store, closing)
  {
    var table' := StatusSet(table, id, to);
    forall i | 0 <= i < |store.warehouse| ensures EntryOk(table', store.warehouse, i) {
      assert EntryOk(table, store.warehouse, i);
    }
    forall j | 0 <= j < |closing| ensures ClosingOk(table', closing[j]) {
      assert ClosingOk(table, closing[j]);
    }
  }

  lemma NewClosingKeepsFiles(table: TaskTable, store: Store, closing: seq<Closing>, c: Closing)
    requires FilesOk(table, store, closing) && ClosingOk(table, c)
    requires forall i :: 0 <= i < |store.warehouse| ==> store.warehouse[i].taskId != c.taskId
    requires forall j :: 0 <= j < |closing| ==> closing[j].taskId != c.taskId
    ensures FilesOk(table, store, closing + [c])
  {
    forall j | 0 <= j < |closing| + 1 ensures ClosingOk(table, (closing + [c])[j]) {
      if j < |closing| {
        assert ClosingOk(table, closing[j]);
      }
    }
  }

  lemma StartedIsFiled(w: World, id: nat, to: Status)
    requires id in w.table.rows && StartedClose(w.table, Agents(w), w.store, id, to).Some?
    ensures
      var c := StartedClose(w.table, Agents(w), w.store, id, to).value;
      c.taskId == id && ClosingOk(StatusSet(w.table, id, to), c)
  {
  }

  lemma MovedKeepsFiles(w: World, id: nat, to: Status)
    requires Inv(w) && id in w.table.rows && !Terminal(w.table.rows[id].status)
    ensures FilesOk(StatusSet(w.table, id, to), w.store,
                    WithStarted(w.closing, StartedClose(w.table, Agents(w), w.store, id, to)))
  {
    var started := StartedClose(w.table, Agents(w), w.store, id, to);
    OpenIsNotFiled(w, id);
    StatusChangeKeepsFiles(w.table, w.store, w.closing, id, to);
    if started.Some? {
      StartedIsFiled(w, id, to);
      NewClosingKeepsFiles(StatusSet(w.table, id, to), w.store, w.closing, started.value);
    }
  }

  lemma OtherTaskStays(w: World, source: Source, id: nat, to: Status, k: nat)
    requires k in w.table.rows && TaskOk(w, k) && k != id
    ensures k in Moved(w, source, id, to).table.rows && TaskOk(Moved(w, source, id, to), k)
  {
  }

  lemma TransitionKeeps(w: World, source: Source, id: nat, to: Status)
    requires Inv(w)
    ensures Inv(Moved(w, source, id, to))
  {
    var w' := Moved(w, source, id, to);
    if Judge(w.table, Agents(w), source, id, to) == Transitioned {
      MovedKeepsFiles(w, id, to);
      MovedTask(w, source, id, to);
      forall k | k in w'.table.rows ensures TaskOk(w', k) {
        if k != id {
          assert k in w.table.rows && TaskOk(w, k);
          OtherTaskStays(w, source, id, to, k);
        }
      }
    }
  }

  lemma WithoutIs(closing: seq<Closing>, i: nat)
    requires i < |closing|
    ensures |Without(closing, i)| == |closing| - 1
    ensures forall j :: 0 <= j < |closing| - 1 ==> Without(closing, i)[j] == closing[if j < i then j else j + 1]
  {
  }

  lemma ArchivedKeepsFiles(table: TaskTable, store: Store, closing: seq<Closing>, i: nat)
    requires FilesOk(table, store, closing) && i < |closing|
    ensures FilesOk(table, Archived(store, closing[i]), Without(closing, i))
  {
    var after, rest := Archived(store, closing[i]).warehouse, Without(closing, i);
    WithoutIs(closing, i);
    forall k | 0 <= k < |after| ensures EntryOk(table, after, k) {
      if k < |store.warehouse| {
        assert EntryOk(table, store.warehouse, k);
      } else {
        assert ClosingOk(table, closing[i]);
      }
    }
    forall j | 0 <= j < |rest| ensures ClosingOk(table, rest[j]) {
      assert ClosingOk(table, closing[if j < i then j else j + 1]);
    }
  }

  lemma DroppedKeepsFiles(table: TaskTable, store: Store, closing: seq<Closing>, i: nat)
    requires FilesOk(table, store, closing) && i < |closing|
    ensures FilesOk(table, store, Without(closing, i))
  {
    var rest := Without(closing, i);
    WithoutIs(closing, i);
    forall j | 0 <= j < |rest| ensures ClosingOk(table, rest[j]) {
      assert ClosingOk(table, closing[if j < i then j else j + 1]);
    }
  }

  lemma SameFiles(table: TaskTable, store: Store, store': Store, closing: seq<Closing>)
    requires FilesOk(table, store, closing)
    requires store'.warehouse == store.warehouse && store'.counter == store.counter
    ensures FilesOk(table, store', closing)
  {
    forall i | 0 <= i < |store'.warehouse| ensures EntryOk(table, store'.warehouse, i) {
      assert EntryOk(table, store.warehouse, i);
    }
  }

  lemma FinishKeeps(w: World, i: nat, learned: bool)
    requires Inv(w) && Possible(w, FinishClose(i, learned))
    ensures Inv(Apply(w, FinishClose(i, learned)))
  {
    var cleared := Cleared(w.store, w.closing[i].agentId);
    if learned {
      SameFiles(w.table, w.store, cleared, w.closing);
      ArchivedKeepsFiles(w.table, cleared, w.closing, i);
    } else {
      DroppedKeepsFiles(w.table, w.store, w.closing, i);
    }
    TasksOnly(w, Apply(w, FinishClose(i, learned)));
  }

  lemma TearKeeps(w: World, i: nat)
    requires Inv(w) && Possible(w, TearClose(i))
    ensures Inv(Apply(w, TearClose(i)))
  {
    OrgStepKeeps(w, Org.Crash);
    var crashed := Apply(w, OrgStep(Org.Crash));
    SameFiles(w.table, w.store, Cleared(w.store, w.closing[i].agentId), []);
    TasksOnly(crashed, Apply(w, TearClose(i)));
  }

  lemma StepKeeps(w: World, a: Action)
    requires Inv(w) && Possible(w, a)
    ensures Inv(Apply(w, a))
  {
    match a
    case OrgStep(step) => OrgStepKeeps(w, step);
    case CreateTask(assignTo) => CreateKeeps(w, assignTo);
    case Transition(source, id, to) => TransitionKeeps(w, source, id, to);
    case FinishClose(i, learned) => FinishKeeps(w, i, learned);
    case TearClose(i) => TearKeeps(w, i);
    case Record(agent, messages) =>
      SameFiles(w.table, w.store, TurnRecorded(w.store, agent, messages), w.closing);
      TasksOnly(w, Apply(w, a));
  }

  lemma {:induction false} KeptAfter(w: World, more: seq<Action>)
    requires Inv(w) && After(w, more).Some?
    ensures Inv(After(w, more).value)
  {
    if more != [] {
      KeptAfter(w, more[..|more| - 1]);
      StepKeeps(After(w, more[..|more| - 1]).value, more[|more| - 1]);
    }
  }

  lemma EveryRunKeeps(run: seq<Action>)
    requires Exec(run).Some?
    ensures Inv(Exec(run).value)
  {
    KeptAfter(FRESH, run);
  }

  // ---- The life of a task ----

  predicate Continues(before: Task, after: Task) {
    && after.assignedTo == before.assignedTo
    && (after.status == before.status || after.status in ValidTransitions(before.status))
  }

  lemma MovedContinues(w: World, source: Source, k: nat, to: Status, id: nat)
    requires id in w.table.rows
    ensures
      var rows' := Moved(w, source, k, to).table.rows;
      id in rows' && Continues(w.table.rows[id], rows'[id])
  {
  }

  lemma CreatedContinues(w: World, assignTo: Option<AgentId>, id: nat)
    requires id in w.table.rows
    ensures
      var rows' := Created(w, assignTo).table.rows;
      id in rows' && rows'[id] == w.table.rows[id]
  {
  }

  lemma StepOfATask(w: World, a: Action, id: nat)
    requires Possible(w, a) && id in w.table.rows
    ensures id in Apply(w, a).table.rows && Continues(w.table.rows[id], Apply(w, a).table.rows[id])
  {
    if a.Transition? {
      MovedContinues(w, a.source, a.id, a.to, id);
    } else if a.CreateTask? {
      CreatedContinues(w, a.assignTo, id);
    }
  }

  /** What a task may have become since it was `before`. */
  predicate Follows(before: Task, after: Task) {
    && after.assignedTo == before.assignedTo
    && after.status != Backlog
    && (before.status != Assigned ==> after.status != Assigned)
    && (Terminal(before.status) ==> after.status == before.status)
  }

  lemma FollowsContinues(first: Task, before: Task, after: Task)
    requires Follows(first, before) && Continues(before, after)
    ensures Follows(first, after)
  {
  }

  /**
   * Whatever happens after a task exists: it stays in the table with its assignee,
   * is never in the backlog, never returns to assigned, and stays as it is once closed.
   */
  lemma {:induction false} TaskForLife(w: World, more: seq<Action>, id: nat)
    requires Inv(w) && After(w, more).Some? && id in w.table.rows
    ensures Inv(After(w, more).value)
    ensures
      var rows' := After(w, more).value.table.rows;
      id in rows' && Follows(w.table.rows[id], rows'[id])
  {
    if more == [] {
      NotInTheBacklog(w, id);
    } else {
      var n := |more| - 1;
      TaskForLife(w, more[..n], id);
      var before := After(w, more[..n]).value;
      StepKeeps(before, more[n]);
      StepOfATask(before, more[n], id);
      FollowsContinues(w.table.rows[id], before.table.rows[id], Apply(before, more[n]).table.rows[id]);
    }
  }

  lemma NotInTheBacklog(w: World, id: nat)
    requires Inv(w) && id in w.table.rows
    ensures w.table.rows[id].status != Backlog
  {
    assert TaskOk(w, id);
    NeverBacklog(w.past[id], w.org.minted[w.table.rows[id].assignedTo.value]);
  }

  lemma {:induction false} NeverBacklog(moves: seq<Move>, boss: ReportTarget)
    requires Legal(moves, boss)
    ensures StatusAfter(moves) != Backlog
    ensures moves != [] ==> StatusAfter(moves) != Assigned
  {
    if moves != [] {
      NeverBacklog(moves[..|moves| - 1], boss);
    }
  }

  /** Work on a completed task was started, and it was completed by `boss`. */
  lemma {:induction false} CompletedAfterProgress(moves: seq<Move>, boss: ReportTarget)
    requires Legal(moves, boss)
    ensures StatusAfter(moves) in {InProgress, InReview, Completed} ==>
      exists i :: 0 <= i < |moves| && moves[i].to == InProgress
  {
    if moves != [] {
      var n := |moves| - 1;
      CompletedAfterProgress(moves[..n], boss);
      if StatusAfter(moves[..n]) in {InProgress, InReview} {
        var i :| 0 <= i < n && moves[..n][i].to == InProgress;
        assert moves[i].to == InProgress;
      } else if moves[n].to == InProgress {
        assert moves[n].to == InProgress;
      }
    }
  }

  /** The party the assignee of a task was created under. */
  function ManagerSince(w: World, id: nat): Option<ReportTarget> {
    if id in w.table.rows && w.table.rows[id].assignedTo.Some? && w.table.rows[id].assignedTo.value in w.org.minted
    then Some(w.org.minted[w.table.rows[id].assignedTo.value])
    else None
  }

  /** Agents are created under the principal or an agent one rung up, never under themselves. */
  lemma ManagerIsOneUp(w: Org.World, agent: AgentId)
    requires Org.Inv(w) && agent in w.minted
    ensures w.minted[agent] != Boss(agent)
    ensures w.minted[agent].Boss? ==> Org.OneRungBelow(w.minted[agent].id, agent)
  {
    assert Org.MintedOk(w, agent);
  }

  /** `moves` led to completion by way of progress, and `boss` asked for the last one. */
  predicate CompletedBy(moves: seq<Move>, boss: ReportTarget) {
    && moves != [] && moves[|moves| - 1] == Move(Party(boss), Completed)
    && exists i :: 0 <= i < |moves| && moves[i].to == InProgress
  }

  lemma CompletedTask(w: World, id: nat)
    requires Inv(w) && id in w.table.rows && w.table.rows[id].status == Completed
    ensures ManagerSince(w, id).Some? && CompletedBy(Past(w, id), ManagerSince(w, id).value)
  {
    assert TaskOk(w, id);
    CompletedAfterProgress(w.past[id], ManagerSince(w, id).value);
  }

  /**
   * A completed task has been in progress, and its last transition was asked for by
   * exactly the party its assignee was created under: the principal or an agent one
   * rung up, never the assignee itself.
   */
  lemma CompletedByTheManager(run: seq<Action>, id: nat)
    requires Exec(run).Some? && id in Exec(run).value.table.rows
    requires Exec(run).value.table.rows[id].status == Completed
    ensures
      var w := Exec(run).value;
      var assignee := w.table.rows[id].assignedTo;
      && ManagerSince(w, id).Some? && assignee.Some?
      && var manager := ManagerSince(w, id).value;
      && CompletedBy(Past(w, id), manager)
      && manager != Boss(assignee.value)
      && (manager.Boss? ==> Org.OneRungBelow(manager.id, assignee.value))
  {
    EveryRunKeeps(run);
    var w := Exec(run).value;
    CompletedTask(w, id);
    ManagerIsOneUp(w.org, w.table.rows[id].assignedTo.value);
  }

  predicate AssigneeIsThere(w: World, id: nat) {
    id in w.table.rows && w.table.rows[id].assignedTo.Some? && w.table.rows[id].assignedTo.value in Agents(w)
  }

  lemma CompletedFrom(status: Status)
    ensures Completed in ValidTransitions(status) <==> status in {InProgress, InReview}
  {
  }

  /** Who may complete a task that is in progress or in review: the live assignee's manager and nobody else. */
  lemma CompletionVerdict(w: World, source: Source, id: nat)
    requires Inv(w)
    ensures
      Judge(w.table, Agents(w), source, id, Completed) == Transitioned <==>
        && AssigneeIsThere(w, id) && w.table.rows[id].status in {InProgress, InReview}
        && ManagerSince(w, id).Some? && source == Party(ManagerSince(w, id).value)
  {
    if id in w.table.rows {
      assert TaskOk(w, id);
      var assignee := w.table.rows[id].assignedTo.value;
      CompletedFrom(w.table.rows[id].status);
      if assignee in Agents(w) {
        AgentWasMinted(w.org, assignee);
      }
    }
  }

  /** Only steps of the organization change it, apart from a crash. */
  lemma OrgStands(w: World, a: Action)
    requires Possible(w, a) && !a.OrgStep?
    ensures Apply(w, a).org.minted == w.org.minted && Agents(Apply(w, a)) == Agents(w)
  {
  }

  lemma StepLeavesGone(w: World, a: Action, agent: AgentId)
    requires Inv(w) && Possible(w, a) && Org.Gone(w.org, agent)
    ensures Org.Gone(Apply(w, a).org, agent)
  {
    if a.OrgStep? {
      Org.StepLeavesGone(w.org, a.step, agent);
    } else {
      OrgStands(w, a);
    }
  }

  lemma {:induction false} GoneForGood(w: World, more: seq<Action>, agent: AgentId)
    requires Inv(w) && After(w, more).Some? && Org.Gone(w.org, agent)
    ensures Org.Gone(After(w, more).value.org, agent)
  {
    if more != [] {
      var n := |more| - 1;
      GoneForGood(w, more[..n], agent);
      KeptAfter(w, more[..n]);
      StepLeavesGone(After(w, more[..n]).value, more[n], agent);
    }
  }

  lemma StepKeepsMinted(w: World, a: Action, agent: AgentId)
    requires Inv(w) && Possible(w, a) && agent in w.org.minted
    ensures agent in Apply(w, a).org.minted && Apply(w, a).org.minted[agent] == w.org.minted[agent]
  {
    if a.OrgStep? {
      Org.HistoryGrows(w.org, a.step, agent);
    } else {
      OrgStands(w, a);
    }
  }

  lemma StepKeepsManager(w: World, a: Action, id: nat)
    requires Inv(w) && Possible(w, a) && id in w.table.rows
    ensures ManagerSince(Apply(w, a), id) == ManagerSince(w, id)
  {
    assert TaskOk(w, id);
    StepOfATask(w, a, id);
    StepKeepsMinted(w, a, w.table.rows[id].assignedTo.value);
  }

  lemma {:induction false} SameManager(w: World, more: seq<Action>, id: nat)
    requires Inv(w) && After(w, more).Some? && id in w.table.rows
    ensures ManagerSince(After(w, more).value, id) == ManagerSince(w, id)
  {
    if more != [] {
      var n := |more| - 1;
      SameManager(w, more[..n], id);
      TaskForLife(w, more[..n], id);
      StepKeepsManager(After(w, more[..n]).value, more[n], id);
    }
  }

  /**
   * Once the assignee of a task or the agent above it has been terminated, no agent
   * of the organization, present or future, is ever allowed to complete the task.
   */
  lemma OrphanedTaskIsNeverCompleted(run: seq<Action>, more: seq<Action>, id: nat, agent: AgentId)
    requires Exec(run).Some? && Orphaned(Exec(run).value, id) && After(Exec(run).value, more).Some?
    requires agent in Agents(After(Exec(run).value, more).value)
    ensures
      var w' := After(Exec(run).value, more).value;
      Judge(w'.table, Agents(w'), Party(Boss(agent)), id, Completed) != Transitioned
  {
    EveryRunKeeps(run);
    var w := Exec(run).value;
    var w' := After(w, more).value;
    var assignee := w.table.rows[id].assignedTo.value;
    TaskForLife(w, more, id);
    SameManager(w, more, id);
    CompletionVerdict(w', Party(Boss(agent)), id);
    if Org.Gone(w.org, assignee) {
      GoneForGood(w, more, assignee);
    } else {
      GoneForGood(w, more, w.org.minted[assignee].id);
    }
  }

  /** The assignee, or the agent it was created under, has been terminated. */
  predicate Orphaned(w: World, id: nat) {
    ManagerSince(w, id).Some? &&
    (|| Org.Gone(w.org, w.table.rows[id].assignedTo.value)
     || (ManagerSince(w, id).value.Boss? && Org.Gone(w.org, ManagerSince(w, id).value.id)))
  }

  // ---- The warehouse ----

  /**
   * Warehouse rows are numbered without gaps, each belongs to a closed task with its
   * final status and its assignee, and no task has two.
   */
  lemma TasksAreArchivedOnce(run: seq<Action>, i: nat)
    requires Exec(run).Some? && i < |Exec(run).value.store.warehouse|
    ensures
      var w := Exec(run).value;
      var e := w.store.warehouse[i];
      && e.id == i + 1
      && e.taskId in w.table.rows && Terminal(e.outcome)
      && w.table.rows[e.taskId].status == e.outcome && w.table.rows[e.taskId].assignedTo == Some(e.agentId)
      && (forall j :: 0 <= j < |w.store.warehouse| && j != i ==> w.store.warehouse[j].taskId != e.taskId)
  {
    EveryRunKeeps(run);
    var w := Exec(run).value;
    assert EntryOk(w.table, w.store.warehouse, i);
  }

  // ---- Conservation of messages ----

  /** The archived messages of an agent, in archive order. */
  function ArchivedFor(warehouse: seq<Entry>, agent: AgentId): seq<Message> {
    if warehouse == [] then []
    else
      var n := |warehouse| - 1;
      ArchivedFor(warehouse[..n], agent) + if warehouse[n].agentId == agent then warehouse[n].messages else []
  }

  /** Archive and working memory together are exactly what was ever recorded, in order. */
  predicate Balanced(w: World, agent: AgentId) {
    ArchivedFor(w.store.warehouse, agent) + Working(w.store, agent) == Recorded(w, agent)
  }

  /** The condition under which a step loses and repeats nothing of `agent`. */
  predicate Careful(w: World, a: Action, agent: AgentId)
    requires Possible(w, a)
  {
    match a
    case FinishClose(i, learned) =>
      learned && w.closing[i].agentId == agent ==> w.closing[i].messages == Working(w.store, agent)
    case TearClose(i) => w.closing[i].agentId == agent ==> Working(w.store, agent) == []
    case _ => true
  }

  lemma ArchivedSnoc(warehouse: seq<Entry>, e: Entry, agent: AgentId)
    ensures ArchivedFor(warehouse + [e], agent) ==
      ArchivedFor(warehouse, agent) + if e.agentId == agent then e.messages else []
  {
    assert (warehouse + [e])[..|warehouse|] == warehouse;
  }

  lemma SameAfter(x: seq<Message>, y: seq<Message>, z: seq<Message>)
    ensures x + y + [] == x + z <==> y == z
  {
    if x + y + [] == x + z {
      assert y == (x + y + [])[|x|..] && z == (x + z)[|x|..];
    }
  }

  lemma FinishBalance(w: World, i: nat, learned: bool, agent: AgentId)
    requires Possible(w, FinishClose(i, learned)) && Balanced(w, agent)
    ensures Balanced(Apply(w, FinishClose(i, learned)), agent) <==> Careful(w, FinishClose(i, learned), agent)
  {
    if learned {
      var c := w.closing[i];
      var e := Entry(w.store.counter + 1, c.taskId, c.agentId, c.outcome, c.messages);
      var archived := ArchivedFor(w.store.warehouse, agent);
      ArchivedSnoc(w.store.warehouse, e, agent);
      if c.agentId == agent {
        SameAfter(archived, c.messages, Working(w.store, agent));
      } else {
        assert archived + [] == archived;
      }
    }
  }

  lemma TearBalance(w: World, i: nat, agent: AgentId)
    requires Possible(w, TearClose(i)) && Balanced(w, agent)
    ensures Balanced(Apply(w, TearClose(i)), agent) <==> Careful(w, TearClose(i), agent)
  {
    if w.closing[i].agentId == agent {
      SameAfter(ArchivedFor(w.store.warehouse, agent), [], Working(w.store, agent));
    }
  }

  lemma RecordBalance(w: World, a: AgentId, messages: seq<Message>, agent: AgentId)
    requires w.org.up && Balanced(w, agent)
    ensures Balanced(Apply(w, Record(a, messages)), agent)
  {
    var archived, working := ArchivedFor(w.store.warehouse, agent), Working(w.store, agent);
    assert archived + (working + messages) == (archived + working) + messages;
  }

  /** A step keeps the balance exactly if it is careful. */
  lemma StepBalanceIff(w: World, a: Action, agent: AgentId)
    requires Possible(w, a) && Balanced(w, agent)
    ensures Balanced(Apply(w, a), agent) <==> Careful(w, a, agent)
  {
    match a
    case FinishClose(i, learned) => FinishBalance(w, i, learned, agent);
    case TearClose(i) => TearBalance(w, i, agent);
    case Record(b, messages) => RecordBalance(w, b, messages, agent);
    case _ =>
  }

  // ---- Closes that are atomic for their agent ----

  predicate IsClosing(w: World, agent: AgentId) {
    exists j :: 0 <= j < |w.closing| && w.closing[j].agentId == agent
  }

  /**
   * While an agent's task closes, none of its turns is recorded and no other task of
   * it starts to close, and no process dies halfway.
   */
  predicate Alone(w: World, a: Action)
    requires Possible(w, a)
  {
    match a
    case Record(agent, _) => !IsClosing(w, agent)
    case Transition(source, id, to) =>
      Judge(w.table, Agents(w), source, id, to) == Transitioned &&
      StartedClose(w.table, Agents(w), w.store, id, to).Some? ==>
        !IsClosing(w, StartedClose(w.table, Agents(w), w.store, id, to).value.agentId)
    case TearClose(i) => false
    case _ => true
  }

  predicate AloneRun(run: seq<Action>) {
    run == [] ||
    (AloneRun(run[..|run| - 1]) &&
     var before := Exec(run[..|run| - 1]);
     before.Some? && Possible(before.value, run[|run| - 1]) && Alone(before.value, run[|run| - 1]))
  }

  /** Each close under way holds what is in working memory, and no agent has two. */
  predicate Current(store: Store, closing: seq<Closing>) {
    && (forall j :: 0 <= j < |closing| ==> closing[j].messages == Working(store, closing[j].agentId))
    && (forall i, j :: 0 <= i < j < |closing| ==> closing[i].agentId != closing[j].agentId)
  }

  lemma FinishIsCurrent(w: World, i: nat, learned: bool)
    requires Possible(w, FinishClose(i, learned)) && Current(w.store, w.closing)
    ensures
      var w' := Apply(w, FinishClose(i, learned));
      Current(w'.store, w'.closing)
  {
    WithoutIs(w.closing, i);
  }

  lemma StepIsCurrent(w: World, a: Action)
    requires Possible(w, a) && Current(w.store, w.closing) && Alone(w, a)
    ensures Current(Apply(w, a).store, Apply(w, a).closing)
    ensures forall agent :: Careful(w, a, agent)
  {
    match a
    case FinishClose(i, learned) => FinishIsCurrent(w, i, learned);
    case _ =>
  }

  /**
   * When closes are atomic for their agent, nothing recorded is ever lost, repeated
   * or reordered: what is archived, in archive order, followed by the working memory
   * is everything recorded, whether or not learnings could be extracted.
   */
  lemma {:induction false} MessagesAreConserved(run: seq<Action>, agent: AgentId)
    requires Exec(run).Some? && AloneRun(run)
    ensures Balanced(Exec(run).value, agent)
    ensures Current(Exec(run).value.store, Exec(run).value.closing)
  {
    if run != [] {
      var before := run[..|run| - 1];
      MessagesAreConserved(before, agent);
      StepIsCurrent(Exec(before).value, run[|run| - 1]);
      StepBalanceIff(Exec(before).value, run[|run| - 1], agent);
    }
  }

  /** What is recorded while the agent's task closes is gone when the close finishes. */
  lemma RecordedWhileClosingIsLost(w: World, i: nat, messages: seq<Message>)
    requires w.org.up && i < |w.closing| && Balanced(w, w.closing[i].agentId) && Current(w.store, w.closing)
    ensures
      var agent := w.closing[i].agentId;
      var w' := Apply(Apply(w, Record(agent, messages)), FinishClose(i, true));
      && Working(w'.store, agent) == []
      && ArchivedFor(w'.store.warehouse, agent) + messages == Recorded(w', agent)
      && (Balanced(w', agent) <==> messages == [])
  {
    var agent := w.closing[i].agentId;
    var recorded := Apply(w, Record(agent, messages));
    var w' := Apply(recorded, FinishClose(i, true));
    RecordBalance(w, agent, messages, agent);
    FinishBalance(recorded, i, true, agent);
    var c := w.closing[i];
    ArchivedSnoc(w.store.warehouse, Entry(w.store.counter + 1, c.taskId, agent, c.outcome, c.messages), agent);
    SameAfter(Working(w.store, agent), [], messages);
  }

  /** The executive's only task is cancelled, and its close is under way. */
  function Cancelling(): seq<Action> {
    [] + [OrgStep(Org.Boot)] + [CreateTask(Some(Organization.ROOT))] + [Transition(Service, 1, Cancelled)]
  }

  lemma AloneSnoc(run: seq<Action>, a: Action)
    requires Exec(run).Some? && AloneRun(run) && Possible(Exec(run).value, a) && Alone(Exec(run).value, a)
    ensures Exec(run + [a]) == Some(Apply(Exec(run).value, a)) && AloneRun(run + [a])
  {
    assert (run + [a])[..|run|] == run;
  }

  lemma Booted()
    ensures AloneRun([] + [OrgStep(Org.Boot)])
    ensures Exec([] + [OrgStep(Org.Boot)]) == Some(FRESH.(org := Org.BOOTED))
  {
    Org.FirstBootStep();
    AloneSnoc([], OrgStep(Org.Boot));
  }

  /** The executive with its first task. */
  const ASSIGNED :=
    FRESH.(org := Org.BOOTED, past := map[1 := []],
           table := TaskTable(map[1 := Task(1, Assigned, Some(Organization.ROOT))], 1))

  lemma AssignedRun()
    ensures AloneRun([] + [OrgStep(Org.Boot)] + [CreateTask(Some(Organization.ROOT))])
    ensures Exec([] + [OrgStep(Org.Boot)] + [CreateTask(Some(Organization.ROOT))]) == Some(ASSIGNED)
  {
    Booted();
    AloneSnoc([] + [OrgStep(Org.Boot)], CreateTask(Some(Organization.ROOT)));
  }

  lemma CancelStep()
    ensures
      var cancel := Transition(Service, 1, Cancelled);
      && Possible(ASSIGNED, cancel) && Alone(ASSIGNED, cancel)
      && Apply(ASSIGNED, cancel).org.up
      && Apply(ASSIGNED, cancel).closing == [Closing(1, Organization.ROOT, Cancelled, [])]
  {
    var table, agents := ASSIGNED.table, Agents(ASSIGNED);
    assert Judge(table, agents, Service, 1, Cancelled) == Transitioned;
    var c := Closing(1, Organization.ROOT, Cancelled, []);
    assert StartedClose(table, agents, ASSIGNED.store, 1, Cancelled) == Some(c);
    assert [] + [c] == [c];
  }

  lemma CancellingRun()
    ensures Exec(Cancelling()).Some? && AloneRun(Cancelling())
    ensures
      var w := Exec(Cancelling()).value;
      w.org.up && w.closing == [Closing(1, Organization.ROOT, Cancelled, [])]
  {
    AssignedRun();
    CancelStep();
    AloneSnoc([] + [OrgStep(Org.Boot)] + [CreateTask(Some(Organization.ROOT))], Transition(Service, 1, Cancelled));
  }

  /** A run that loses every message of a turn: it is recorded while the executive's task closes. */
  lemma ATurnIsLost(messages: seq<Message>)
    requires messages != []
    ensures
      var run := Cancelling() + [Record(Organization.ROOT, messages)] + [FinishClose(0, true)];
      Exec(run).Some? &&
      var w := Exec(run).value;
      && Recorded(w, Organization.ROOT) == ArchivedFor(w.store.warehouse, Organization.ROOT) + messages
      && Working(w.store, Organization.ROOT) == [] && !Balanced(w, Organization.ROOT)
  {
    CancellingRun();
    MessagesAreConserved(Cancelling(), Organization.ROOT);
    RecordedWhileClosingIsLost(Exec(Cancelling()).value, 0, messages);
    OneMore(FRESH, Cancelling(), Record(Organization.ROOT, messages));
    OneMore(FRESH, Cancelling() + [Record(Organization.ROOT, messages)], FinishClose(0, true));
  }
}
