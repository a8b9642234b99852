/** Which transitions are allowed, what each of them starts, and which closed tasks end up in the warehouse. */
module TaskVerdicts {
  import opened Common
  import opened AgentIds
  import opened Tasks
  import opened Memory
  import opened TaskServices
  import opened TaskRuns
  import Organization
  import Org = OrganizationRuns

  // ---- Verdicts, by the status asked for ----

  /** Completion apart, a transition is allowed exactly from these statuses. */
  lemma TransitionVerdicts(table: TaskTable, agents: Organization.Roster, source: Source, id: nat, to: Status)
    requires id in table.rows && to != Completed
    ensures Judge(table, agents, source, id, to) in {Transitioned, Illegal}
    ensures
      var from := table.rows[id].status;
      Judge(table, agents, source, id, to) == Transitioned <==>
        match to
        case Backlog => false
        case Assigned => from == Backlog
        case InProgress => from == Assigned || from == Blocked || from == InReview
        case Blocked => from == Assigned || from == InProgress
        case InReview => from == InProgress
        case Completed => false
        case Failed => from == InProgress || from == Blocked || from == InReview
        case Cancelled => from != Completed && from != Failed && from != Cancelled
  {
  }

  /** What stands against a completion, in the order of the checks. */
  lemma CompletionRefusals(table: TaskTable, agents: Organization.Roster, source: Source, id: nat)
    ensures
      var v := Judge(table, agents, source, id, Completed);
      && (v == NotFound <==> id !in table.rows)
      && (v == Illegal <==>
            id in table.rows && table.rows[id].status != InProgress && table.rows[id].status != InReview)
      && (v == NotTheManager <==>
            && id in table.rows && (table.rows[id].status == InProgress || table.rows[id].status == InReview)
            && var assignee := table.rows[id].assignedTo;
            (assignee.Some? && assignee.value in agents ==> source != Party(agents[assignee.value].reportsTo)))
  {
  }

  // ---- Creation ----

  /** Tasks are numbered from 1 on without gaps, and none is ever removed. */
  ghost predicate NumberedFromOne(table: TaskTable) {
    forall id: nat :: id in table.rows <==> 1 <= id <= table.counter
  }

  lemma StepNumbers(w: World, a: Action)
    requires Possible(w, a) && NumberedFromOne(w.table)
    ensures NumberedFromOne(Apply(w, a).table)
  {
  }

  lemma {:induction false} TasksAreNumbered(run: seq<Action>)
    requires Exec(run).Some?
    ensures NumberedFromOne(Exec(run).value.table)
  {
    if run != [] {
      TasksAreNumbered(run[..|run| - 1]);
      StepNumbers(Exec(run[..|run| - 1]).value, run[|run| - 1]);
    }
  }

  /**
   * A task is created exactly for an assignee that exists. It is born assigned to it,
   * under the number that follows those of all tasks ever created.
   */
  lemma TaskIsCreatedIff(run: seq<Action>, assignTo: Option<AgentId>)
    requires Exec(run).Some? && Exec(run).value.org.up
    ensures
      var w := Exec(run).value;
      var table' := Apply(w, CreateTask(assignTo)).table;
      if assignTo.Some? && assignTo.value in Agents(w)
      then
        exists n: nat ::
          && (forall id: nat :: id in w.table.rows <==> 1 <= id < n)
          && table'.rows == w.table.rows[n := Task(n, Assigned, assignTo)]
      else table' == w.table
  {
    TasksAreNumbered(run);
    var w := Exec(run).value;
    var n := w.table.counter + 1;
    assert forall id: nat :: id in w.table.rows <==> 1 <= id < n;
    if assignTo.Some? && assignTo.value in Agents(w) {
      assert Apply(w, CreateTask(assignTo)).table.rows == w.table.rows[n := Task(n, Assigned, assignTo)];
    }
  }

  // ---- What a transition starts ----

  /** A close starts exactly when an open task is closed whose assignee is still there, with a copy of its memory. */
  lemma ClosesStart(w: World, source: Source, id: nat, to: Status)
    requires Possible(w, Transition(source, id, to))
    ensures
      var w' := Apply(w, Transition(source, id, to));
      if Judge(w.table, Agents(w), source, id, to) == Transitioned && AssigneeIsThere(w, id)
         && (to == Completed || to == Failed || to == Cancelled)
      then
        var agent := w.table.rows[id].assignedTo.value;
        w'.closing == w.closing + [Closing(id, agent, to, Working(w.store, agent))]
      else w'.closing == w.closing
  {
  }

  // ---- Which closed tasks are archived ----

  predicate HasEntry(warehouse: seq<Entry>, id: nat) {
    exists i :: 0 <= i < |warehouse| && warehouse[i].taskId == id
  }

  predicate HasClosing(closing: seq<Closing>, id: nat) {
    exists j :: 0 <= j < |closing| && closing[j].taskId == id
  }

  lemma EntrySnoc(warehouse: seq<Entry>, e: Entry, id: nat)
    ensures HasEntry(warehouse + [e], id) <==> HasEntry(warehouse, id) || e.taskId == id
  {
    assert (warehouse + [e])[|warehouse|] == e;
    if HasEntry(warehouse, id) {
      var i :| 0 <= i < |warehouse| && warehouse[i].taskId == id;
      assert (warehouse + [e])[i].taskId == id;
    }
  }

  lemma ClosingSnoc(closing: seq<Closing>, c: Closing, id: nat)
    ensures HasClosing(closing + [c], id) <==> HasClosing(closing, id) || c.taskId == id
  {
    assert (closing + [c])[|closing|] == c;
    if HasClosing(closing, id) {
      var j :| 0 <= j < |closing| && closing[j].taskId == id;
      assert (closing + [c])[j].taskId == id;
    }
  }

  lemma ClosingWithout(closing: seq<Closing>, i: nat, id: nat)
    requires i < |closing| && forall j, k :: 0 <= j < k < |closing| ==> closing[j].taskId != closing[k].taskId
    ensures HasClosing(Without(closing, i), id) <==> HasClosing(closing, id) && closing[i].taskId != id
  {
    WithoutIs(closing, i);
    if HasClosing(closing, id) && closing[i].taskId != id {
      var j :| 0 <= j < |closing| && closing[j].taskId == id;
      assert Without(closing, i)[if j < i then j else j - 1].taskId == id;
    }
  }

  /** Its close is under way. */
  predicate UnderClose(w: World, id: nat) { HasClosing(w.closing, id) }

  /** In the warehouse, or on its way there. */
  predicate OnFile(w: World, id: nat) { HasEntry(w.store.warehouse, id) || UnderClose(w, id) }

  predicate Settled(w: World, id: nat) {
    id in w.table.rows && (Terminal(w.table.rows[id].status) ==> OnFile(w, id))
  }

  /**
   * The steps that keep a task out of the warehouse: it is closed when its assignee is
   * gone, its learning fails, or the process dies while it closes.
   */
  predicate Drops(w: World, a: Action, id: nat)
    requires Possible(w, a)
  {
    match a
    case OrgStep(step) => step == Org.Crash && UnderClose(w, id)
    case FinishClose(i, learned) => !learned && w.closing[i].taskId == id
    case TearClose(_) => UnderClose(w, id)
    case Transition(source, k, to) =>
      k == id && Terminal(to) && Judge(w.table, Agents(w), source, id, to) == Transitioned && !AssigneeIsThere(w, id)
    case _ => false
  }

  lemma NotTwice(w: World, id: nat)
    requires Inv(w) && UnderClose(w, id)
    ensures !HasEntry(w.store.warehouse, id) && id in w.table.rows && Terminal(w.table.rows[id].status)
  {
    var j :| 0 <= j < |w.closing| && w.closing[j].taskId == id;
    assert ClosingOk(w.table, w.closing[j]);
  }

  lemma FinishFiles(w: World, i: nat, learned: bool, id: nat)
    requires Inv(w) && Possible(w, FinishClose(i, learned))
    ensures
      var w' := Apply(w, FinishClose(i, learned));
      && w'.table == w.table
      && (OnFile(w', id) <==> OnFile(w, id) && (learned || w.closing[i].taskId != id))
  {
    var c := w.closing[i];
    ClosingWithout(w.closing, i, id);
    EntrySnoc(w.store.warehouse, Entry(w.store.counter + 1, c.taskId, c.agentId, c.outcome, c.messages), id);
    if c.taskId == id {
      assert UnderClose(w, id);
      NotTwice(w, id);
    }
  }

  lemma MoveFiles(w: World, source: Source, k: nat, to: Status, id: nat)
    requires w.org.up
    ensures
      var w' := Apply(w, Transition(source, k, to));
      OnFile(w', id) <==> OnFile(w, id)
                          || (id == k && Judge(w.table, Agents(w), source, k, to) == Transitioned
                              && Terminal(to) && AssigneeIsThere(w, k))
  {
    ClosesStart(w, source, k, to);
    if Apply(w, Transition(source, k, to)).closing != w.closing {
      ClosingSnoc(w.closing, Closing(k, w.table.rows[k].assignedTo.value, to,
                                     Working(w.store, w.table.rows[k].assignedTo.value)), id);
    }
  }

  lemma MovedRow(w: World, source: Source, k: nat, to: Status, id: nat)
    requires w.org.up && id in w.table.rows
    ensures
      var w' := Apply(w, Transition(source, k, to));
      id in w'.table.rows && w'.table.rows[id].status ==
        if id == k && Judge(w.table, Agents(w), source, k, to) == Transitioned then to else w.table.rows[id].status
  {
  }

  lemma OpenHasNoFile(w: World, id: nat)
    requires Inv(w) && id in w.table.rows && !Terminal(w.table.rows[id].status)
    ensures !OnFile(w, id)
  {
    OpenIsNotFiled(w, id);
  }

  lemma TaskMoves(w: World, source: Source, id: nat, to: Status)
    requires Inv(w) && w.org.up && Settled(w, id) && Judge(w.table, Agents(w), source, id, to) == Transitioned
    ensures Settled(Apply(w, Transition(source, id, to)), id) <==> !Terminal(to) || AssigneeIsThere(w, id)
  {
    MoveFiles(w, source, id, to, id);
    MovedRow(w, source, id, to, id);
    OpenHasNoFile(w, id);
  }

  lemma AnotherMoves(w: World, source: Source, k: nat, to: Status, id: nat)
    requires w.org.up && Settled(w, id)
    requires k == id ==> Judge(w.table, Agents(w), source, k, to) != Transitioned
    ensures Settled(Apply(w, Transition(source, k, to)), id)
  {
    MoveFiles(w, source, k, to, id);
    MovedRow(w, source, k, to, id);
  }

  lemma MovedSettles(w: World, source: Source, k: nat, to: Status, id: nat)
    requires Inv(w) && w.org.up && Settled(w, id)
    ensures Settled(Apply(w, Transition(source, k, to)), id) <==> !Drops(w, Transition(source, k, to), id)
  {
    if k == id && Judge(w.table, Agents(w), source, id, to) == Transitioned {
      TaskMoves(w, source, id, to);
    } else {
      AnotherMoves(w, source, k, to, id);
    }
  }

  lemma ClosingsAreDropped(w: World, w': World, id: nat)
    requires Inv(w) && Settled(w, id) && w'.closing == [] && w'.store.warehouse == w.store.warehouse
    requires w'.table == w.table
    ensures Settled(w', id) <==> !UnderClose(w, id)
  {
    if UnderClose(w, id) {
      NotTwice(w, id);
    }
  }

  /** Steps that touch neither closes nor the warehouse. */
  lemma UntouchedFiles(w: World, a: Action, id: nat)
    requires Possible(w, a) && id in w.table.rows
    requires (a.OrgStep? && a.step != Org.Crash) || a.CreateTask? || a.Record?
    ensures id in Apply(w, a).table.rows && Apply(w, a).table.rows[id].status == w.table.rows[id].status
    ensures OnFile(Apply(w, a), id) <==> OnFile(w, id)
  {
  }

  lemma CrashFiles(w: World, a: Action, id: nat)
    requires Possible(w, a) && (a == OrgStep(Org.Crash) || a.TearClose?)
    ensures Apply(w, a).table == w.table && Apply(w, a).closing == []
    ensures Apply(w, a).store.warehouse == w.store.warehouse
  {
  }

  /** Every closed task stays on file exactly as long as no step drops it. */
  lemma StepSettlesIff(w: World, a: Action, id: nat)
    requires Inv(w) && Possible(w, a) && Settled(w, id)
    ensures Settled(Apply(w, a), id) <==> !Drops(w, a, id)
  {
    if a == OrgStep(Org.Crash) || a.TearClose? {
      CrashFiles(w, a, id);
      ClosingsAreDropped(w, Apply(w, a), id);
    } else if a.Transition? {
      MovedSettles(w, a.source, a.id, a.to, id);
    } else if a.FinishClose? {
      FinishFiles(w, a.index, a.learned, id);
      if w.closing[a.index].taskId == id {
        assert UnderClose(w, id);
        NotTwice(w, id);
      }
    } else {
      UntouchedFiles(w, a, id);
    }
  }

  /** No termination, no crash, no failing learning. */
  predicate Steady(run: seq<Action>) {
    forall i :: 0 <= i < |run| ==>
      match run[i]
      case OrgStep(step) => !step.TerminateAgent? && step != Org.Crash
      case FinishClose(_, learned) => learned
      case TearClose(_) => false
      case _ => true
  }

  lemma AssigneeStays(w: World, id: nat)
    requires Inv(w) && Org.Everyone(w.org) && id in w.table.rows
    ensures AssigneeIsThere(w, id)
  {
    assert TaskOk(w, id);
  }

  lemma StepKeepsEveryone(w: World, a: Action)
    requires Inv(w) && Possible(w, a) && Steady([a]) && Org.Everyone(w.org)
    ensures Org.Everyone(Apply(w, a).org)
  {
    assert [a][0] == a;
    if a.OrgStep? {
      Org.NobodyLeavesInAStep(w.org, a.step);
    } else {
      OrgStands(w, a);
    }
  }

  lemma NewTaskIsSettled(w: World, a: Action, id: nat)
    requires Inv(w) && Possible(w, a) && id !in w.table.rows && id in Apply(w, a).table.rows
    ensures Settled(Apply(w, a), id)
  {
  }

  lemma SteadyStepSettles(w: World, a: Action, id: nat)
    requires Inv(w) && Possible(w, a) && Steady([a]) && Org.Everyone(w.org) && id in Apply(w, a).table.rows
    requires id in w.table.rows ==> Settled(w, id)
    ensures Settled(Apply(w, a), id)
  {
    assert [a][0] == a;
    if id in w.table.rows {
      AssigneeStays(w, id);
      StepSettlesIff(w, a, id);
    } else {
      NewTaskIsSettled(w, a, id);
    }
  }

  lemma {:induction false} SteadyRunsSettle(run: seq<Action>)
    requires Exec(run).Some? && Steady(run)
    ensures Org.Everyone(Exec(run).value.org)
    ensures forall id :: id in Exec(run).value.table.rows ==> Settled(Exec(run).value, id)
  {
    if run != [] {
      var before, a := run[..|run| - 1], run[|run| - 1];
      var w := Exec(before).value;
      SteadyRunsSettle(before);
      EveryRunKeeps(before);
      assert Steady([a]);
      StepKeepsEveryone(w, a);
      forall id | id in Apply(w, a).table.rows ensures Settled(Apply(w, a), id) {
        SteadyStepSettles(w, a, id);
      }
    }
  }

  /**
   * Without terminations, crashes and failing learnings, every task that is completed,
   * failed or cancelled has its warehouse row once no close is under way.
   */
  lemma ClosedTasksAreArchived(run: seq<Action>, id: nat)
    requires Exec(run).Some? && Steady(run) && Exec(run).value.closing == [] && id in Exec(run).value.table.rows
    ensures
      var w := Exec(run).value;
      w.table.rows[id].status in {Completed, Failed, Cancelled} <==>
        exists i :: 0 <= i < |w.store.warehouse| && w.store.warehouse[i].taskId == id
  {
    var w := Exec(run).value;
    SteadyRunsSettle(run);
    EveryRunKeeps(run);
    if HasEntry(w.store.warehouse, id) {
      var i :| 0 <= i < |w.store.warehouse| && w.store.warehouse[i].taskId == id;
      assert EntryOk(w.table, w.store.warehouse, i);
    }
  }

  /** Its row stays, closed as it is. */
  lemma ClosedStays(w: World, a: Action, id: nat)
    requires Possible(w, a) && id in w.table.rows && Terminal(w.table.rows[id].status)
    ensures id in Apply(w, a).table.rows && Terminal(Apply(w, a).table.rows[id].status)
  {
    StepOfATask(w, a, id);
  }

  lemma ClosedDoesNotMove(w: World, source: Source, id: nat, to: Status)
    requires id in w.table.rows && Terminal(w.table.rows[id].status)
    ensures Judge(w.table, Agents(w), source, id, to) == Illegal
  {
  }

  lemma StepLeavesUnfiled(w: World, a: Action, id: nat)
    requires Inv(w) && Possible(w, a) && id in w.table.rows && Terminal(w.table.rows[id].status) && !OnFile(w, id)
    ensures !OnFile(Apply(w, a), id)
  {
    if a == OrgStep(Org.Crash) || a.TearClose? {
      CrashFiles(w, a, id);
    } else if a.Transition? {
      MoveFiles(w, a.source, a.id, a.to, id);
      ClosedDoesNotMove(w, a.source, id, a.to);
    } else if a.FinishClose? {
      FinishFiles(w, a.index, a.learned, id);
    } else {
      UntouchedFiles(w, a, id);
    }
  }

  /** A closed task that is not on file never gets there. */
  lemma {:induction false} UnfiledForGood(w: World, more: seq<Action>, id: nat)
    requires Inv(w) && After(w, more).Some?
    requires id in w.table.rows && Terminal(w.table.rows[id].status) && !OnFile(w, id)
    ensures Inv(After(w, more).value) && id in After(w, more).value.table.rows
    ensures Terminal(After(w, more).value.table.rows[id].status) && !OnFile(After(w, more).value, id)
  {
    if more != [] {
      var n := |more| - 1;
      UnfiledForGood(w, more[..n], id);
      StepKeeps(After(w, more[..n]).value, more[n]);
      ClosedStays(After(w, more[..n]).value, more[n], id);
      StepLeavesUnfiled(After(w, more[..n]).value, more[n], id);
    }
  }

  // ---- Tasks that go all the way ----

  /** The executive's first task has this status and this history, and the executive is there. */
  predicate OnTheWay(w: World, status: Status, past: seq<Move>) {
    && w.org == Org.BOOTED && w.past == map[1 := past]
    && w.table == TaskTable(map[1 := Task(1, status, Some(Organization.ROOT))], 1)
  }

  lemma OneMove(run: seq<Action>, from: Status, past: seq<Move>, source: Source, to: Status)
    requires Exec(run).Some? && OnTheWay(Exec(run).value, from, past)
    requires Judge(Exec(run).value.table, Agents(Exec(run).value), source, 1, to) == Transitioned
    ensures Exec(run + [Transition(source, 1, to)]).Some?
    ensures OnTheWay(Exec(run + [Transition(source, 1, to)]).value, to, past + [Move(source, to)])
  {
    OneMore(FRESH, run, Transition(source, 1, to));
  }

  function Assigning(): seq<Action> { [] + [OrgStep(Org.Boot)] + [CreateTask(Some(Organization.ROOT))] }

  /** A task is started, reviewed and completed. */
  lemma ReviewedAndCompleted(anyone: Source)
    ensures
      var run := Assigning() + [Transition(anyone, 1, InProgress)] + [Transition(anyone, 1, InReview)]
                 + [Transition(Party(Principal), 1, Completed)];
      Exec(run).Some? && 1 in Exec(run).value.table.rows && Exec(run).value.table.rows[1].status == Completed
  {
    var started := Assigning() + [Transition(anyone, 1, InProgress)];
    var reviewed := started + [Transition(anyone, 1, InReview)];
    AssignedRun();
    OneMove(Assigning(), Assigned, [], anyone, InProgress);
    OneMove(started, InProgress, [] + [Move(anyone, InProgress)], anyone, InReview);
    OneMove(reviewed, InReview, [] + [Move(anyone, InProgress)] + [Move(anyone, InReview)],
            Party(Principal), Completed);
  }

  /** A task is blocked, taken up and completed. */
  lemma BlockedAndCompleted(anyone: Source)
    ensures
      var run := Assigning() + [Transition(anyone, 1, Blocked)] + [Transition(anyone, 1, InProgress)]
                 + [Transition(Party(Principal), 1, Completed)];
      Exec(run).Some? && 1 in Exec(run).value.table.rows && Exec(run).value.table.rows[1].status == Completed
  {
    var blocked := Assigning() + [Transition(anyone, 1, Blocked)];
    var resumed := blocked + [Transition(anyone, 1, InProgress)];
    AssignedRun();
    OneMove(Assigning(), Assigned, [], anyone, Blocked);
    OneMove(blocked, Blocked, [] + [Move(anyone, Blocked)], anyone, InProgress);
    OneMove(resumed, InProgress, [] + [Move(anyone, Blocked)] + [Move(anyone, InProgress)],
            Party(Principal), Completed);
  }
}
