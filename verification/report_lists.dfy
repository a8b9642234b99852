/** The lists of direct reports: what unfinished creates do to them. */
module ReportLists {
  import opened Common
  import opened AgentIds
  import Organization
  import opened OrganizationRuns

  /**
   * One creator's desk: its list, the agents ever created under it, and its creates
   * whose list entry is still to come.
   */
  datatype Desk = Desk(manages: seq<AgentId>, children: set<AgentId>, pending: seq<Organization.Creation>)

  function Started(d: Desk, boss: AgentId, child: AgentId): Desk {
    d.(children := d.children + {child}, pending := d.pending + [Organization.Creation(boss, d.manages, child)])
  }

  function Ended(d: Desk, k: nat): Desk
    requires k < |d.pending|
  {
    d.(manages := d.pending[k].stale + [d.pending[k].child], pending := Without(d.pending, k))
  }

  predicate IsPending(d: Desk, x: AgentId) {
    exists i :: 0 <= i < |d.pending| && d.pending[i].child == x
  }

  /** Created, and not still waiting to be listed. */
  predicate Finished(d: Desk, x: AgentId) { x in d.children && !IsPending(d, x) }

  // ---- New agents are not listed yet ----

  /** A pending child is one of a kind, in no list and in no copy of one. */
  predicate Fresh(d: Desk) {
    && (forall i :: 0 <= i < |d.pending| ==> d.pending[i].child in d.children && d.pending[i].child !in d.manages)
    && (forall i, j :: 0 <= i < |d.pending| && 0 <= j < |d.pending| ==> d.pending[i].child !in d.pending[j].stale)
    && (forall i, j :: 0 <= i < j < |d.pending| ==> d.pending[i].child != d.pending[j].child)
    && (forall x :: x in d.manages ==> x in d.children)
    && (forall i, x :: 0 <= i < |d.pending| && x in d.pending[i].stale ==> x in d.children)
  }

  lemma StartedIsFresh(d: Desk, boss: AgentId, child: AgentId)
    requires Fresh(d) && child !in d.children
    ensures Fresh(Started(d, boss, child))
  {
  }

  lemma FewerAreFresh(d: Desk, k: nat)
    requires Fresh(d) && k < |d.pending|
    ensures Fresh(d.(pending := Without(d.pending, k)))
  {
    WithoutIs(d.pending, k);
  }

  lemma EndedIsFresh(d: Desk, k: nat)
    requires Fresh(d) && k < |d.pending|
    ensures Fresh(Ended(d, k))
  {
    WithoutIs(d.pending, k);
    FewerAreFresh(d, k);
  }

  // ---- When the list is exact ----

  /** Every copy is the current list, or lacks an agent that is finished. */
  ghost predicate StaleLacks(d: Desk) {
    forall i :: 0 <= i < |d.pending| && d.pending[i].stale != d.manages ==>
      exists x :: Finished(d, x) && x !in d.pending[i].stale
  }

  /** Nothing finished is missing, at most one create is under way, and its copy is the current list. */
  ghost predicate Clean(d: Desk) {
    && (forall x :: Finished(d, x) ==> x in d.manages)
    && |d.pending| <= 1
    && (d.pending != [] ==> d.pending[0].stale == d.manages)
  }

  lemma StartedFinished(d: Desk, boss: AgentId, child: AgentId, x: AgentId)
    requires child !in d.children
    ensures Finished(Started(d, boss, child), x) <==> Finished(d, x)
  {
    var d' := Started(d, boss, child);
    var n := |d.pending|;
    assert d'.pending[n].child == child;
    if IsPending(d, x) {
      var i :| 0 <= i < n && d.pending[i].child == x;
      assert d'.pending[i].child == x;
    }
  }

  lemma EndedFinished(d: Desk, k: nat, x: AgentId)
    requires Fresh(d) && k < |d.pending|
    ensures Finished(Ended(d, k), x) <==> Finished(d, x) || x == d.pending[k].child
  {
    WithoutIs(d.pending, k);
    var rest := Without(d.pending, k);
    if IsPending(d, x) && x != d.pending[k].child {
      var i :| 0 <= i < |d.pending| && d.pending[i].child == x;
      assert rest[if i < k then i else i - 1].child == x;
    }
  }

  lemma StartedLacks(d: Desk, boss: AgentId, child: AgentId)
    requires Fresh(d) && StaleLacks(d) && child !in d.children
    ensures StaleLacks(Started(d, boss, child))
  {
    var d' := Started(d, boss, child);
    forall i | 0 <= i < |d'.pending| && d'.pending[i].stale != d'.manages
      ensures exists x :: Finished(d', x) && x !in d'.pending[i].stale
    {
      assert d'.pending[i] == d.pending[i];
      var x :| Finished(d, x) && x !in d.pending[i].stale;
      StartedFinished(d, boss, child, x);
    }
  }

  lemma EndedChild(d: Desk, k: nat)
    requires Fresh(d) && k < |d.pending|
    ensures d.pending[k].child in Ended(d, k).manages
    ensures forall i :: 0 <= i < |d.pending| - 1 ==> d.pending[k].child !in Ended(d, k).pending[i].stale
  {
    WithoutIs(d.pending, k);
  }

  lemma EndedLacks(d: Desk, k: nat)
    requires Fresh(d) && k < |d.pending|
    ensures StaleLacks(Ended(d, k))
  {
    var d' := Ended(d, k);
    WithoutIs(d.pending, k);
    EndedFinished(d, k, d.pending[k].child);
    EndedChild(d, k);
  }

  /** A create leaves a clean desk exactly if it found one, with nothing under way. */
  lemma StartedCleanIff(d: Desk, boss: AgentId, child: AgentId)
    requires Fresh(d) && child !in d.children
    ensures Clean(Started(d, boss, child)) <==> Clean(d) && d.pending == []
  {
    var d' := Started(d, boss, child);
    forall x ensures Finished(d', x) <==> Finished(d, x) {
      StartedFinished(d, boss, child, x);
    }
  }

  lemma EndedCleanIf(d: Desk, k: nat)
    requires Fresh(d) && k < |d.pending| && Clean(d)
    ensures Clean(Ended(d, k))
  {
    var d' := Ended(d, k);
    forall x | Finished(d', x) ensures x in d'.manages {
      EndedFinished(d, k, x);
    }
  }

  lemma EndedCleanOnlyIf(d: Desk, k: nat)
    requires Fresh(d) && StaleLacks(d) && k < |d.pending| && Clean(Ended(d, k))
    ensures Clean(d)
  {
    var d' := Ended(d, k);
    var c := d.pending[k];
    WithoutIs(d.pending, k);
    EndedChild(d, k);
    assert d'.pending == [];
    forall x | Finished(d, x) ensures x in c.stale {
      EndedFinished(d, k, x);
      assert IsPending(d, c.child);
    }
  }

  /** A crash leaves a clean desk exactly if it found one with nothing under way: an agent it catches stays unlisted. */
  lemma ClearedCleanIff(d: Desk)
    requires Fresh(d)
    ensures Clean(d.(pending := [])) <==> Clean(d) && d.pending == []
  {
    var cleared := d.(pending := []);
    if d.pending == [] {
      assert cleared == d;
    } else {
      assert Finished(cleared, d.pending[0].child);
    }
  }

  // ---- Desks in a world ----

  function Pending(creating: seq<Organization.Creation>, boss: AgentId): seq<Organization.Creation> {
    if creating == [] then []
    else
      var last := creating[|creating| - 1];
      Pending(creating[..|creating| - 1], boss) + if last.creator == boss then [last] else []
  }

  function Children(minted: map<AgentId, ReportTarget>, boss: AgentId): set<AgentId> {
    set x | x in minted && minted[x] == Boss(boss)
  }

  function DeskOf(w: World, boss: AgentId): Desk {
    Desk(if boss in Roster(w) then Roster(w)[boss].manages else [],
         Children(w.minted, boss), Pending(w.creating, boss))
  }

  lemma PendingSnoc(creating: seq<Organization.Creation>, c: Organization.Creation, boss: AgentId)
    ensures Pending(creating + [c], boss) == Pending(creating, boss) + if c.creator == boss then [c] else []
  {
    assert (creating + [c])[..|creating|] == creating;
  }

  lemma {:induction false} PendingConcat(a: seq<Organization.Creation>, b: seq<Organization.Creation>, boss: AgentId)
    ensures Pending(a + b, boss) == Pending(a, boss) + Pending(b, boss)
  {
    if b == [] {
      assert a + b == a;
    } else {
      PendingConcat(a, b[..|b| - 1], boss);
      assert (a + b)[..|a + b| - 1] == a + b[..|b| - 1];
    }
  }

  lemma {:induction false} PendingMembers(creating: seq<Organization.Creation>, boss: AgentId)
    ensures forall c :: c in Pending(creating, boss) <==> c in creating && c.creator == boss
  {
    if creating != [] {
      var n := |creating| - 1;
      assert creating == creating[..n] + [creating[n]];
      PendingMembers(creating[..n], boss);
    }
  }

  /** Where a create stands among those of its creator. */
  function Place(creating: seq<Organization.Creation>, i: nat): nat
    requires i < |creating|
  {
    |Pending(creating[..i], creating[i].creator)|
  }

  lemma WithoutMiddle(before: seq<Organization.Creation>, c: Organization.Creation, after: seq<Organization.Creation>)
    ensures |before| < |before + [c] + after| && (before + [c] + after)[|before|] == c
    ensures Without(before + [c] + after, |before|) == before + after
  {
  }

  lemma PendingSplit(creating: seq<Organization.Creation>, i: nat, boss: AgentId)
    requires i < |creating|
    ensures
      var before, after := Pending(creating[..i], boss), Pending(creating[i + 1..], boss);
      && Pending(creating, boss) == before + (if creating[i].creator == boss then [creating[i]] else []) + after
      && Pending(Without(creating, i), boss) == before + after
  {
    var a, c, b := creating[..i], creating[i], creating[i + 1..];
    assert creating == (a + [c]) + b;
    PendingConcat(a + [c], b, boss);
    PendingSnoc(a, c, boss);
    PendingConcat(a, b, boss);
  }

  lemma PendingWithout(creating: seq<Organization.Creation>, i: nat, boss: AgentId)
    requires i < |creating|
    ensures creating[i].creator != boss ==> Pending(Without(creating, i), boss) == Pending(creating, boss)
    ensures creating[i].creator == boss ==>
      var p := Pending(creating, boss);
      var k := Place(creating, i);
      k < |p| && p[k] == creating[i] && Pending(Without(creating, i), boss) == Without(p, k)
  {
    PendingSplit(creating, i, boss);
    var before, after := Pending(creating[..i], boss), Pending(creating[i + 1..], boss);
    if creating[i].creator == boss {
      WithoutMiddle(before, creating[i], after);
    } else {
      assert before + [] == before;
    }
  }

  lemma NewChild(minted: map<AgentId, ReportTarget>, boss: AgentId, child: AgentId)
    ensures Children(minted[child := Boss(boss)], boss) == Children(minted, boss) + {child}
  {
  }

  lemma OwnCreateDesk(w: World, boss: AgentId, department: Option<Department>)
    requires Inv(w) && w.up && Organization.Begin(w.office, boss, department).1.Started?
    ensures
      var child := Organization.Begin(w.office, boss, department).1.creation.child;
      && child !in DeskOf(w, boss).children
      && DeskOf(Apply(w, Create(boss, department)), boss) == Started(DeskOf(w, boss), boss, child)
  {
    var w' := Apply(w, Create(boss, department));
    var c := Organization.Begin(w.office, boss, department).1.creation;
    CreateAdds(w, boss, department);
    PendingSnoc(w.creating, c, boss);
    NewChild(w.minted, boss, c.child);
    assert w'.minted == w.minted[c.child := Boss(boss)];
    assert Roster(w')[boss] == Roster(w)[boss];
    assert c == Organization.Creation(boss, DeskOf(w, boss).manages, c.child);
  }

  lemma OtherCreateDesk(w: World, creator: AgentId, department: Option<Department>, boss: AgentId)
    requires Inv(w) && w.up && (creator != boss || !Organization.Begin(w.office, creator, department).1.Started?)
    ensures DeskOf(Apply(w, Create(creator, department)), boss) == DeskOf(w, boss)
  {
    if Organization.Begin(w.office, creator, department).1.Started? {
      var w' := Apply(w, Create(creator, department));
      CreateAdds(w, creator, department);
      PendingSnoc(w.creating, Organization.Begin(w.office, creator, department).1.creation, boss);
      assert Pending(w.creating, boss) + [] == Pending(w.creating, boss);
      assert Children(w'.minted, boss) == Children(w.minted, boss);
    }
  }

  lemma CreateDesk(w: World, creator: AgentId, department: Option<Department>, boss: AgentId)
    requires Inv(w) && w.up
    ensures
      var begun := Organization.Begin(w.office, creator, department).1;
      var d, d' := DeskOf(w, boss), DeskOf(Apply(w, Create(creator, department)), boss);
      if begun.Started? && creator == boss
      then begun.creation.child !in d.children && d' == Started(d, boss, begun.creation.child)
      else d' == d
  {
    if Organization.Begin(w.office, creator, department).1.Started? && creator == boss {
      OwnCreateDesk(w, boss, department);
    } else {
      OtherCreateDesk(w, creator, department, boss);
    }
  }

  lemma CompleteDesk(w: World, i: nat, boss: AgentId)
    requires Possible(w, Complete(i))
    ensures
      var d, d' := DeskOf(w, boss), DeskOf(Apply(w, Complete(i)), boss);
      if w.creating[i].creator != boss then d' == d
      else
        var k := Place(w.creating, i);
        k < |d.pending| && d.pending[k] == w.creating[i] &&
        d' == if boss in Roster(w) then Ended(d, k) else d.(pending := Without(d.pending, k))
  {
    PendingWithout(w.creating, i, boss);
  }

  lemma BossWasMinted(w: World, boss: AgentId)
    requires Inv(w) && (boss in Roster(w) || Pending(w.creating, boss) != [])
    ensures boss in w.minted
  {
    if boss in Roster(w) {
      assert AgentOk(w, boss);
    } else {
      PendingMembers(w.creating, boss);
      var c := Pending(w.creating, boss)[0];
      assert c in w.creating && CreationOk(w, c);
    }
  }

  lemma BootDesk(w: World, boss: AgentId)
    requires Inv(w) && !w.up && w.creating == []
    ensures DeskOf(Apply(w, Boot), boss) == DeskOf(w, boss)
  {
    if w.minted == map[] {
      assert boss in Roster(w) ==> boss in w.minted by {
        if boss in Roster(w) { BossWasMinted(w, boss); }
      }
      assert Children(Apply(w, Boot).minted, boss) == {} == Children(w.minted, boss);
    } else {
      RestartLaunchesTheActive(w);
      if Organization.Seeded(w.office.repo).Some? && Organization.Seeded(w.office.repo).value != w.office.repo {
        OnlyAnEmptyDatabaseIsSeeded(w);
        assert false;
      }
    }
  }

  /** Nothing is under way while the process is down. */
  predicate IdleWhenDown(w: World) { !w.up ==> w.creating == [] }

  lemma StepIdles(w: World, a: Action)
    requires Possible(w, a) && IdleWhenDown(w)
    ensures IdleWhenDown(Apply(w, a))
  {
  }

  lemma CreateKeepsFresh(w: World, creator: AgentId, department: Option<Department>, boss: AgentId)
    requires Inv(w) && w.up && Fresh(DeskOf(w, boss))
    ensures Fresh(DeskOf(Apply(w, Create(creator, department)), boss))
  {
    CreateDesk(w, creator, department, boss);
    if Organization.Begin(w.office, creator, department).1.Started? && creator == boss {
      StartedIsFresh(DeskOf(w, boss), boss, Organization.Begin(w.office, creator, department).1.creation.child);
    }
  }

  lemma CompleteKeepsFresh(w: World, i: nat, boss: AgentId)
    requires Possible(w, Complete(i)) && Fresh(DeskOf(w, boss))
    ensures Fresh(DeskOf(Apply(w, Complete(i)), boss))
  {
    CompleteDesk(w, i, boss);
    if w.creating[i].creator == boss {
      EndedIsFresh(DeskOf(w, boss), Place(w.creating, i));
      FewerAreFresh(DeskOf(w, boss), Place(w.creating, i));
    }
  }

  /** Steps that neither create nor end a create change a desk only by clearing it. */
  lemma OtherDesk(w: World, a: Action, boss: AgentId)
    requires Possible(w, a) && !a.Boot? && !a.Create? && !a.Complete?
    ensures
      var d, d' := DeskOf(w, boss), DeskOf(Apply(w, a), boss);
      && d'.children == d.children
      && d'.manages == (if a == TerminateAgent(boss) then [] else d.manages)
      && d'.pending == (if a == Crash then [] else d.pending)
  {
  }

  /** Whatever happens, new agents stay unlisted until their create ends. */
  lemma StepKeepsFresh(w: World, a: Action, boss: AgentId)
    requires Inv(w) && Possible(w, a) && IdleWhenDown(w) && Fresh(DeskOf(w, boss))
    ensures Fresh(DeskOf(Apply(w, a), boss))
  {
    if a.Boot? {
      BootDesk(w, boss);
    } else if a.Create? {
      CreateKeepsFresh(w, a.creator, a.department, boss);
    } else if a.Complete? {
      CompleteKeepsFresh(w, a.index, boss);
    } else {
      OtherDesk(w, a, boss);
    }
  }

  lemma {:induction false} RunsKeepFresh(run: seq<Action>, boss: AgentId)
    requires Exec(run).Some?
    ensures IdleWhenDown(Exec(run).value) && Fresh(DeskOf(Exec(run).value, boss))
  {
    if run != [] {
      var before := run[..|run| - 1];
      RunsKeepFresh(before, boss);
      EveryRunKeeps(before);
      StepKeepsFresh(Exec(before).value, run[|run| - 1], boss);
      StepIdles(Exec(before).value, run[|run| - 1]);
    }
  }

  /** In every reachable state an unfinished child is in nobody's list and in no copy of a list. */
  lemma UnfinishedIsUnlisted(run: seq<Action>, i: nat)
    requires Exec(run).Some? && i < |Exec(run).value.creating|
    ensures
      var w := Exec(run).value;
      var child := w.creating[i].child;
      && (forall id :: id in Roster(w) ==> child !in Roster(w)[id].manages)
      && (forall j :: 0 <= j < |w.creating| ==> child !in w.creating[j].stale)
  {
    var w := Exec(run).value;
    var c := w.creating[i];
    EveryRunKeeps(run);
    RunsKeepFresh(run, c.creator);
    PendingMembers(w.creating, c.creator);
    assert c in w.creating && CreationOk(w, c);
    var p := Pending(w.creating, c.creator);
    var k :| 0 <= k < |p| && p[k] == c;
    forall id | id in Roster(w) ensures c.child !in Roster(w)[id].manages {
      assert AgentOk(w, id);
    }
    forall j | 0 <= j < |w.creating| ensures c.child !in w.creating[j].stale {
      var other := w.creating[j];
      assert other in w.creating && CreationOk(w, other);
      assert c.child in other.stale ==> c.child in other.stale + [other.child];
      if other.creator == c.creator {
        var m :| 0 <= m < |p| && p[m] == other;
      }
    }
  }

  /**
   * From any reachable state with two unfinished creates of one live creator,
   * completing both, in either order, leaves exactly the later one's agent listed.
   */
  lemma OverlapLosesOne(run: seq<Action>, i: nat, j: nat)
    requires Exec(run).Some?
    requires
      var w := Exec(run).value;
      && i < |w.creating| && j < |w.creating| && i != j && w.up
      && w.creating[i].creator == w.creating[j].creator && w.creating[i].creator in Roster(w)
    ensures
      var w := Exec(run).value;
      var boss := w.creating[i].creator;
      var first := Apply(w, Complete(i));
      var rest := if j < i then j else j - 1;
      Possible(first, Complete(rest)) &&
      var w' := Apply(first, Complete(rest));
      && boss in Roster(w')
      && w.creating[j].child in Roster(w')[boss].manages && w.creating[i].child !in Roster(w')[boss].manages
  {
    var w := Exec(run).value;
    var rest := if j < i then j else j - 1;
    WithoutIs(w.creating, i);
    UnfinishedIsUnlisted(run, i);
    DifferentChildren(run, i, j);
    var first := Apply(w, Complete(i));
    assert first.creating[rest] == w.creating[j];
  }

  lemma DifferentChildren(run: seq<Action>, i: nat, j: nat)
    requires Exec(run).Some?
    requires i < |Exec(run).value.creating| && j < |Exec(run).value.creating| && i != j
    requires Exec(run).value.creating[i].creator == Exec(run).value.creating[j].creator
    ensures Exec(run).value.creating[i].child != Exec(run).value.creating[j].child
  {
    var w := Exec(run).value;
    var boss := w.creating[i].creator;
    RunsKeepFresh(run, boss);
    PendingWithout(w.creating, i, boss);
    PendingWithout(w.creating, j, boss);
    PlacesDiffer(w.creating, i, j);
  }

  lemma PlacesDiffer(creating: seq<Organization.Creation>, i: nat, j: nat)
    requires i < |creating| && j < |creating| && i != j && creating[i].creator == creating[j].creator
    ensures Place(creating, i) != Place(creating, j)
  {
    var boss := creating[i].creator;
    var lo, hi := if i < j then i else j, if i < j then j else i;
    assert creating[..hi] == (creating[..lo] + [creating[lo]]) + creating[lo + 1..hi];
    PendingConcat(creating[..lo] + [creating[lo]], creating[lo + 1..hi], boss);
    PendingSnoc(creating[..lo], creating[lo], boss);
  }

  // ---- Exactness over runs ----

  /** A create of `boss` that starts while another one of its creates is unfinished. */
  predicate Overlaps(w: World, a: Action, boss: AgentId) {
    && a.Create? && a.creator == boss && Organization.Begin(w.office, boss, a.department).1.Started?
    && Pending(w.creating, boss) != []
  }

  predicate NoOverlap(run: seq<Action>, boss: AgentId) {
    run == [] ||
    (NoOverlap(run[..|run| - 1], boss) &&
     var before := Exec(run[..|run| - 1]);
     before.Some? && !Overlaps(before.value, run[|run| - 1], boss))
  }

  /** A crash that falls inside a create of `boss`. */
  predicate Interrupts(w: World, a: Action, boss: AgentId) {
    a == Crash && Pending(w.creating, boss) != []
  }

  /** How many crashes of the run fall inside creates of `boss`. */
  function CrashesInside(run: seq<Action>, boss: AgentId): nat
    requires Exec(run).Some?
  {
    if run == [] then 0
    else
      var before := run[..|run| - 1];
      CrashesInside(before, boss) + if Interrupts(Exec(before).value, run[|run| - 1], boss) then 1 else 0
  }

  /** No crash falls inside a create of `boss`. */
  predicate CrashesSpare(run: seq<Action>, boss: AgentId) {
    Exec(run).Some? && CrashesInside(run, boss) == 0
  }

  lemma CreateCleanIff(w: World, creator: AgentId, department: Option<Department>, boss: AgentId)
    requires Inv(w) && w.up && Fresh(DeskOf(w, boss)) && StaleLacks(DeskOf(w, boss))
    ensures
      var d' := DeskOf(Apply(w, Create(creator, department)), boss);
      && StaleLacks(d')
      && (Clean(d') <==> Clean(DeskOf(w, boss)) && !Overlaps(w, Create(creator, department), boss))
  {
    var d := DeskOf(w, boss);
    CreateDesk(w, creator, department, boss);
    if Organization.Begin(w.office, creator, department).1.Started? && creator == boss {
      var child := Organization.Begin(w.office, creator, department).1.creation.child;
      StartedLacks(d, boss, child);
      StartedCleanIff(d, boss, child);
    }
  }

  lemma CompleteCleanIff(w: World, i: nat, boss: AgentId)
    requires Inv(w) && Possible(w, Complete(i)) && Fresh(DeskOf(w, boss)) && StaleLacks(DeskOf(w, boss))
    requires !Gone(Apply(w, Complete(i)), boss)
    ensures
      var d' := DeskOf(Apply(w, Complete(i)), boss);
      StaleLacks(d') && (Clean(d') <==> Clean(DeskOf(w, boss)))
  {
    CompleteDesk(w, i, boss);
    if w.creating[i].creator == boss {
      var d, k := DeskOf(w, boss), Place(w.creating, i);
      CreatorWasMinted(w, i);
      EndedLacks(d, k);
      if Clean(d) {
        EndedCleanIf(d, k);
      }
      if Clean(Ended(d, k)) {
        EndedCleanOnlyIf(d, k);
      }
    }
  }

  lemma StepCleanIff(w: World, a: Action, boss: AgentId)
    requires Inv(w) && Possible(w, a) && IdleWhenDown(w)
    requires Fresh(DeskOf(w, boss)) && StaleLacks(DeskOf(w, boss))
    requires !Gone(Apply(w, a), boss)
    ensures StaleLacks(DeskOf(Apply(w, a), boss))
    ensures
      Clean(DeskOf(Apply(w, a), boss)) <==>
        Clean(DeskOf(w, boss)) && !Overlaps(w, a, boss) && !Interrupts(w, a, boss)
  {
    if a.Boot? {
      BootDesk(w, boss);
    } else if a.Create? {
      CreateCleanIff(w, a.creator, a.department, boss);
    } else if a.Complete? {
      CompleteCleanIff(w, a.index, boss);
    } else {
      OtherDesk(w, a, boss);
      if a == TerminateAgent(boss) {
        TerminateDesk(w, boss, boss);
      } else if a == Crash {
        ClearedCleanIff(DeskOf(w, boss));
      }
    }
  }

  lemma CreatorWasMinted(w: World, i: nat)
    requires Inv(w) && Possible(w, Complete(i)) && !Gone(Apply(w, Complete(i)), w.creating[i].creator)
    ensures w.creating[i].creator in Roster(w)
  {
    assert w.creating[i] in w.creating && CreationOk(w, w.creating[i]);
  }

  lemma TerminateDesk(w: World, id: AgentId, boss: AgentId)
    requires Inv(w) && w.up && !Gone(Apply(w, TerminateAgent(id)), boss)
    ensures DeskOf(Apply(w, TerminateAgent(id)), boss) == DeskOf(w, boss)
  {
    assert boss in Roster(w) ==> AgentOk(w, boss);
  }

  lemma {:induction false} CleanIff(run: seq<Action>, boss: AgentId)
    requires Exec(run).Some? && !Gone(Exec(run).value, boss)
    ensures StaleLacks(DeskOf(Exec(run).value, boss))
    ensures Clean(DeskOf(Exec(run).value, boss)) <==> NoOverlap(run, boss) && CrashesSpare(run, boss)
  {
    if run == [] {
      assert DeskOf(FRESH, boss) == Desk([], {}, []);
    } else {
      var before, a := run[..|run| - 1], run[|run| - 1];
      var w := Exec(before).value;
      EveryRunKeeps(before);
      RunsKeepFresh(before, boss);
      if Gone(w, boss) {
        StepLeavesGone(w, a, boss);
        assert false;
      }
      CleanIff(before, boss);
      StepCleanIff(w, a, boss);
    }
  }

  predicate ListIsExact(w: World, boss: AgentId)
    requires boss in Roster(w)
  {
    Reports(Roster(w), boss) == set id | id in Roster(w)[boss].manages && id in Roster(w)
  }

  lemma NothingPending(w: World, boss: AgentId)
    requires boss in Roster(w) && Pending(w.creating, boss) == []
    ensures Clean(DeskOf(w, boss)) <==> forall x :: x in Children(w.minted, boss) ==> x in Roster(w)[boss].manages
  {
    var d := DeskOf(w, boss);
    assert forall x :: Finished(d, x) <==> x in Children(w.minted, boss);
  }

  lemma ReportsAreChildren(w: World, boss: AgentId)
    requires Inv(w) && boss in Roster(w)
    ensures Reports(Roster(w), boss) == set id | id in Children(w.minted, boss) && id in Roster(w)
    ensures forall id :: id in Roster(w)[boss].manages ==> id in Children(w.minted, boss)
  {
    assert AgentOk(w, boss);
    forall id | id in Roster(w) ensures id in Reports(Roster(w), boss) <==> id in Children(w.minted, boss) {
      assert AgentOk(w, id);
    }
  }

  /**
   * With terminations: as long as no creates of `boss` overlap, the live entries of
   * its list are exactly the agents that report to it, and there are at most eight.
   */
  lemma ManagesIsExact(run: seq<Action>, boss: AgentId)
    requires Exec(run).Some? && boss in Roster(Exec(run).value)
    requires CrashesSpare(run, boss) && NoOverlap(run, boss) && Pending(Exec(run).value.creating, boss) == []
    ensures ListIsExact(Exec(run).value, boss)
    ensures |Reports(Roster(Exec(run).value), boss)| <= Organization.MAX_DIRECT_REPORTS
  {
    var w := Exec(run).value;
    EveryRunKeeps(run);
    CleanIff(run, boss);
    NothingPending(w, boss);
    ReportsAreChildren(w, boss);
    assert AgentOk(w, boss);
    FewerThanListed(Reports(Roster(w), boss), Roster(w)[boss].manages);
  }

  /** Every agent ever created under `boss` is still there. */
  predicate Undiminished(w: World, boss: AgentId) {
    Children(w.minted, boss) <= Roster(w).Keys
  }

  /** Without terminations this is so for everyone. */
  lemma NobodyIsMissed(run: seq<Action>, boss: AgentId)
    requires Exec(run).Some? && NoTerminations(run)
    ensures Undiminished(Exec(run).value, boss)
  {
    NobodyLeaves(run);
  }

  lemma ExactIffClean(w: World, boss: AgentId)
    requires Inv(w) && boss in Roster(w) && Undiminished(w, boss) && Pending(w.creating, boss) == []
    ensures ListIsExact(w, boss) <==> Clean(DeskOf(w, boss))
  {
    NothingPending(w, boss);
    ReportsAreChildren(w, boss);
    assert Reports(Roster(w), boss) == Children(w.minted, boss);
    if ListIsExact(w, boss) {
      forall x | x in Children(w.minted, boss) ensures x in Roster(w)[boss].manages {
        assert x in Reports(Roster(w), boss);
      }
    }
  }

  /**
   * When none of the agents created under `boss` has been terminated and none of its
   * creates is under way: its list is exactly the agents that report to it if and only
   * if none of its creates ever overlapped and no crash ever fell inside one.
   */
  lemma ManagesIsExactIff(run: seq<Action>, boss: AgentId)
    requires Exec(run).Some? && boss in Roster(Exec(run).value)
    requires Undiminished(Exec(run).value, boss) && Pending(Exec(run).value.creating, boss) == []
    ensures ListIsExact(Exec(run).value, boss) <==> NoOverlap(run, boss) && CrashesSpare(run, boss)
  {
    EveryRunKeeps(run);
    CleanIff(run, boss);
    ExactIffClean(Exec(run).value, boss);
  }

  // ---- The fan-out cap ----

  /** At no time does `boss` have more than `m` creates unfinished. */
  predicate AtMostUnfinished(run: seq<Action>, boss: AgentId, m: nat) {
    Exec(run).Some? && |Pending(Exec(run).value.creating, boss)| <= m
    && (run == [] || AtMostUnfinished(run[..|run| - 1], boss, m))
  }

  lemma OverlapMakesTwo(w: World, a: Action, boss: AgentId)
    requires Inv(w) && Possible(w, a) && Overlaps(w, a, boss)
    ensures |Pending(Apply(w, a).creating, boss)| >= 2
  {
    CreateDesk(w, boss, a.department, boss);
    assert DeskOf(Apply(w, a), boss).pending == Pending(Apply(w, a).creating, boss);
  }

  lemma {:induction false} OneAtATimeIsClean(run: seq<Action>, boss: AgentId)
    requires AtMostUnfinished(run, boss, 1)
    ensures NoOverlap(run, boss)
  {
    if run != [] {
      var before, a := run[..|run| - 1], run[|run| - 1];
      OneAtATimeIsClean(before, boss);
      EveryRunKeeps(before);
      if Overlaps(Exec(before).value, a, boss) {
        OverlapMakesTwo(Exec(before).value, a, boss);
        assert false;
      }
    }
  }

  /** At most one create is under way, and its copy is the current list. */
  predicate Tidy(d: Desk) {
    |d.pending| <= 1 && (d.pending != [] ==> d.pending[0].stale == d.manages)
  }

  /** The finished agents that the list lacks. */
  function Unlisted(d: Desk): set<AgentId> {
    set x | x in d.children && !IsPending(d, x) && x !in d.manages
  }

  lemma StartedTidy(d: Desk, boss: AgentId, child: AgentId)
    requires d.pending == [] && child !in d.children
    ensures Tidy(Started(d, boss, child)) && Unlisted(Started(d, boss, child)) == Unlisted(d)
  {
    forall x ensures x in Unlisted(Started(d, boss, child)) <==> x in Unlisted(d) {
      StartedFinished(d, boss, child, x);
    }
  }

  lemma EndedTidy(d: Desk)
    requires Fresh(d) && Tidy(d) && |d.pending| == 1
    ensures Tidy(Ended(d, 0)) && Unlisted(Ended(d, 0)) == Unlisted(d)
  {
    forall x ensures x in Unlisted(Ended(d, 0)) <==> x in Unlisted(d) {
      EndedFinished(d, 0, x);
    }
  }

  lemma ClearedTidy(d: Desk)
    requires Fresh(d) && Tidy(d)
    ensures Tidy(d.(pending := [])) && |Unlisted(d.(pending := []))| <= |Unlisted(d)| + |d.pending|
  {
    if d.pending == [] {
      assert d.(pending := []) == d;
    } else {
      assert Unlisted(d.(pending := [])) <= Unlisted(d) + {d.pending[0].child};
      UnionFits(Unlisted(d.(pending := [])), Unlisted(d), d.pending[0].child);
    }
  }

  lemma UnionFits(s: set<AgentId>, t: set<AgentId>, x: AgentId)
    requires s <= t + {x}
    ensures |s| <= |t| + 1
  {
    SubsetCount(s, t + {x});
  }

  lemma CreateTidy(w: World, creator: AgentId, department: Option<Department>, boss: AgentId)
    requires Inv(w) && w.up && Tidy(DeskOf(w, boss))
    requires |Pending(Apply(w, Create(creator, department)).creating, boss)| <= 1
    ensures
      var d' := DeskOf(Apply(w, Create(creator, department)), boss);
      Tidy(d') && Unlisted(d') == Unlisted(DeskOf(w, boss))
  {
    CreateDesk(w, creator, department, boss);
    var begun := Organization.Begin(w.office, creator, department).1;
    if begun.Started? && creator == boss {
      assert DeskOf(Apply(w, Create(creator, department)), boss).pending
          == Pending(Apply(w, Create(creator, department)).creating, boss);
      StartedTidy(DeskOf(w, boss), boss, begun.creation.child);
    }
  }

  lemma CompleteTidy(w: World, i: nat, boss: AgentId)
    requires Inv(w) && Possible(w, Complete(i)) && Fresh(DeskOf(w, boss)) && Tidy(DeskOf(w, boss))
    requires !Gone(Apply(w, Complete(i)), boss)
    ensures
      var d' := DeskOf(Apply(w, Complete(i)), boss);
      Tidy(d') && Unlisted(d') == Unlisted(DeskOf(w, boss))
  {
    CompleteDesk(w, i, boss);
    if w.creating[i].creator == boss {
      CreatorWasMinted(w, i);
      EndedTidy(DeskOf(w, boss));
    }
  }

  /** With one create at a time, a step adds to the unlisted agents only by a crash inside the create. */
  lemma StepTidy(w: World, a: Action, boss: AgentId)
    requires Inv(w) && Possible(w, a) && IdleWhenDown(w) && Fresh(DeskOf(w, boss)) && Tidy(DeskOf(w, boss))
    requires !Gone(Apply(w, a), boss) && |Pending(Apply(w, a).creating, boss)| <= 1
    ensures
      var d, d' := DeskOf(w, boss), DeskOf(Apply(w, a), boss);
      Tidy(d') && |Unlisted(d')| <= |Unlisted(d)| + if Interrupts(w, a, boss) then 1 else 0
  {
    if a.Boot? {
      BootDesk(w, boss);
    } else if a.Create? {
      CreateTidy(w, a.creator, a.department, boss);
    } else if a.Complete? {
      CompleteTidy(w, a.index, boss);
    } else {
      OtherDesk(w, a, boss);
      if a == TerminateAgent(boss) {
        TerminateDesk(w, boss, boss);
      } else if a == Crash {
        ClearedTidy(DeskOf(w, boss));
      }
    }
  }

  lemma {:induction false} FewAreUnlisted(run: seq<Action>, boss: AgentId)
    requires AtMostUnfinished(run, boss, 1) && !Gone(Exec(run).value, boss)
    ensures Tidy(DeskOf(Exec(run).value, boss))
    ensures |Unlisted(DeskOf(Exec(run).value, boss))| <= CrashesInside(run, boss)
  {
    if run == [] {
      assert DeskOf(FRESH, boss) == Desk([], {}, []);
    } else {
      var before, a := run[..|run| - 1], run[|run| - 1];
      var w := Exec(before).value;
      EveryRunKeeps(before);
      RunsKeepFresh(before, boss);
      if Gone(w, boss) {
        StepLeavesGone(w, a, boss);
        assert false;
      }
      FewAreUnlisted(before, boss);
      StepTidy(w, a, boss);
    }
  }

  /** A child is unlisted, or in the list as it is or is about to be. */
  lemma ChildrenFit(d: Desk, list: seq<AgentId>, reports: set<AgentId>)
    requires Tidy(d) && reports <= d.children
    requires list == if d.pending == [] then d.manages else d.pending[0].stale + [d.pending[0].child]
    ensures |reports| <= |list| + |Unlisted(d)|
  {
    forall x | x in reports - Unlisted(d) ensures x in list {
      if IsPending(d, x) {
        var i :| 0 <= i < |d.pending| && d.pending[i].child == x;
      }
    }
    FewerThanListed(reports - Unlisted(d), list);
    assert reports <= (reports - Unlisted(d)) + Unlisted(d);
    SubsetCount(reports, (reports - Unlisted(d)) + Unlisted(d));
  }

  lemma TidyDeskFits(w: World, boss: AgentId)
    requires Inv(w) && boss in Roster(w) && Tidy(DeskOf(w, boss))
    ensures |Reports(Roster(w), boss)| <= Organization.MAX_DIRECT_REPORTS + |Unlisted(DeskOf(w, boss))|
  {
    var d := DeskOf(w, boss);
    ReportsAreChildren(w, boss);
    if d.pending == [] {
      assert AgentOk(w, boss);
      ChildrenFit(d, d.manages, Reports(Roster(w), boss));
    } else {
      var c := d.pending[0];
      PendingMembers(w.creating, boss);
      assert c in w.creating && CreationOk(w, c);
      ChildrenFit(d, c.stale + [c.child], Reports(Roster(w), boss));
    }
  }

  /** Nobody can have more direct reports than there are other agents. */
  lemma OthersReport(w: World, boss: AgentId)
    requires Inv(w) && boss in Roster(w)
    ensures |Reports(Roster(w), boss)| < Organization.MAX_TOTAL_AGENTS
  {
    OneUp(w, boss);
    assert Reports(Roster(w), boss) <= Roster(w).Keys - {boss};
    SubsetCount(Reports(Roster(w), boss), Roster(w).Keys - {boss});
    assert |Roster(w)| == |Roster(w).Keys|;
  }

  /** How many agents report to `boss`, while it is there. */
  function FanOut(run: seq<Action>, boss: AgentId): nat
    requires Exec(run).Some?
  {
    if boss in Roster(Exec(run).value) then |Reports(Roster(Exec(run).value), boss)| else 0
  }

  /** With one create at a time there are at most eight direct reports and one for each crash inside a create. */
  lemma FanOutIsBounded(run: seq<Action>, boss: AgentId)
    requires AtMostUnfinished(run, boss, 1)
    ensures FanOut(run, boss) <= Organization.MAX_DIRECT_REPORTS + CrashesInside(run, boss)
    ensures FanOut(run, boss) < Organization.MAX_TOTAL_AGENTS
  {
    EveryRunKeeps(run);
    if boss in Roster(Exec(run).value) {
      FewAreUnlisted(run, boss);
      TidyDeskFits(Exec(run).value, boss);
      OthersReport(Exec(run).value, boss);
    }
  }

  // ---- Runs that reach the bounds ----

  /** Everyone else reports to the executive, and all unfinished creates are its own. */
  ghost predicate UnderRoot(w: World) {
    && w.up && Inv(w) && Organization.ROOT in Roster(w)
    && (forall i :: 0 <= i < |w.creating| ==> w.creating[i].creator == Organization.ROOT)
    && (forall id :: id in Roster(w) && id != Organization.ROOT ==> Roster(w)[id].reportsTo == Boss(Organization.ROOT))
  }

  function Listed(w: World): seq<AgentId>
    requires Organization.ROOT in Roster(w)
  {
    Roster(w)[Organization.ROOT].manages
  }

  lemma UnderRootReports(w: World)
    requires UnderRoot(w)
    ensures |Reports(Roster(w), Organization.ROOT)| == |Roster(w)| - 1
  {
    OneUp(w, Organization.ROOT);
    assert Reports(Roster(w), Organization.ROOT) == Roster(w).Keys - {Organization.ROOT};
    assert |Roster(w)| == |Roster(w).Keys|;
  }

  const NEW_HEAD := Create(Organization.ROOT, Some(Engineering))

  predicate HasRoom(w: World) {
    && |Roster(w)| < Organization.MAX_TOTAL_AGENTS
    && Organization.ROOT in Roster(w) && |Listed(w)| < Organization.MAX_DIRECT_REPORTS
  }

  /** A create by the executive that is not refused. */
  lemma RootCreates(w: World)
    requires Inv(w) && w.up && HasRoom(w)
    ensures Organization.Begin(w.office, Organization.ROOT, Some(Engineering)).1.Started?
  {
    DepthIsRank(w, Organization.ROOT, 0);
    OneUp(w, Organization.ROOT);
    assert AgentOk(w, Organization.ROOT);
    InsertSucceeds(w, Head, Engineering, Organization.ROOT);
  }

  lemma RootStarts(w: World)
    requires UnderRoot(w) && HasRoom(w)
    ensures
      var w' := Apply(w, NEW_HEAD);
      && UnderRoot(w') && Listed(w') == Listed(w) && |Roster(w')| == |Roster(w)| + 1
      && |w'.creating| == |w.creating| + 1 && w'.creating[|w.creating|].stale == Listed(w)
  {
    RootCreates(w);
    CreateAdds(w, Organization.ROOT, Some(Engineering));
    CreateKeeps(w, Organization.ROOT, Some(Engineering));
    NewRowCounts(w, Apply(w, NEW_HEAD), Organization.Begin(w.office, Organization.ROOT, Some(Engineering)).1.creation);
  }

  lemma LastEnds(w: World)
    requires UnderRoot(w) && w.creating != []
    ensures
      var last := |w.creating| - 1;
      var w' := Apply(w, Complete(last));
      && UnderRoot(w') && |Listed(w')| == |w.creating[last].stale| + 1 && |Roster(w')| == |Roster(w)|
      && |w'.creating| == last
  {
    var last := |w.creating| - 1;
    CompleteKeeps(w, last);
    WithoutIs(w.creating, last);
    var w' := Apply(w, Complete(last));
    assert Roster(w').Keys == Roster(w).Keys;
    assert |Roster(w')| == |Roster(w').Keys| && |Roster(w)| == |Roster(w).Keys|;
  }

  lemma CrashForgets(w: World)
    requires UnderRoot(w)
    ensures
      var w' := Apply(Apply(w, Crash), Boot);
      UnderRoot(w') && Roster(w') == Roster(w) && w'.creating == []
  {
    StepKeeps(w, Crash);
    StepKeeps(Apply(w, Crash), Boot);
    assert AgentOk(w, Organization.ROOT);
    RestartLaunchesTheActive(Apply(w, Crash));
  }

  /** A run with at most `m` creates of the executive unfinished at a time, to a world under it. */
  ghost predicate Held(run: seq<Action>, m: nat) {
    AtMostUnfinished(run, Organization.ROOT, m) && UnderRoot(Exec(run).value)
  }

  lemma {:induction false} PendingAtMost(creating: seq<Organization.Creation>, boss: AgentId)
    ensures |Pending(creating, boss)| <= |creating|
  {
    if creating != [] {
      PendingAtMost(creating[..|creating| - 1], boss);
    }
  }

  lemma UnfinishedSnoc(run: seq<Action>, a: Action, m: nat)
    requires AtMostUnfinished(run, Organization.ROOT, m)
    requires Possible(Exec(run).value, a) && |Apply(Exec(run).value, a).creating| <= m
    ensures Exec(run + [a]) == Some(Apply(Exec(run).value, a))
    ensures AtMostUnfinished(run + [a], Organization.ROOT, m)
    ensures CrashesInside(run + [a], Organization.ROOT) == CrashesInside(run, Organization.ROOT) +
              if Interrupts(Exec(run).value, a, Organization.ROOT) then 1 else 0
  {
    OneMore(FRESH, run, a);
    assert (run + [a])[..|run|] == run;
    PendingAtMost(Apply(Exec(run).value, a).creating, Organization.ROOT);
  }

  lemma BootedRun(m: nat)
    ensures Held([Boot], m) && CrashesInside([Boot], Organization.ROOT) == 0
    ensures
      var w := Exec([Boot]).value;
      |Roster(w)| == 1 && Listed(w) == [] && w.creating == []
  {
    FirstBoot();
    EveryRunKeeps([Boot]);
    assert [] + [Boot] == [Boot];
    UnfinishedSnoc([], Boot, m);
  }

  /** One more create by the executive. */
  lemma StartedRun(run: seq<Action>, m: nat)
    requires Held(run, m) && HasRoom(Exec(run).value) && |Exec(run).value.creating| < m
    ensures Held(run + [NEW_HEAD], m)
    ensures CrashesInside(run + [NEW_HEAD], Organization.ROOT) == CrashesInside(run, Organization.ROOT)
    ensures
      var w, w' := Exec(run).value, Exec(run + [NEW_HEAD]).value;
      && Listed(w') == Listed(w) && |Roster(w')| == |Roster(w)| + 1
      && |w'.creating| == |w.creating| + 1 && w'.creating[|w.creating|].stale == Listed(w)
  {
    RootStarts(Exec(run).value);
    UnfinishedSnoc(run, NEW_HEAD, m);
  }

  /** A create that starts and ends, behind `open` others that stay unfinished. */
  function Whole(open: nat): seq<Action> { [NEW_HEAD] + [Complete(open)] }

  lemma ListedRun(run: seq<Action>, m: nat, open: nat)
    requires Held(run, m) && HasRoom(Exec(run).value) && |Exec(run).value.creating| == open < m
    ensures Held(run + Whole(open), m)
    ensures CrashesInside(run + Whole(open), Organization.ROOT) == CrashesInside(run, Organization.ROOT)
    ensures
      var w, w' := Exec(run).value, Exec(run + Whole(open)).value;
      |Listed(w')| == |Listed(w)| + 1 && |Roster(w')| == |Roster(w)| + 1 && |w'.creating| == |w.creating|
  {
    StartedRun(run, m);
    EndedRun(run + [NEW_HEAD], m, open);
    assert run + Whole(open) == run + [NEW_HEAD] + [Complete(open)];
  }

  lemma EndedRun(run: seq<Action>, m: nat, open: nat)
    requires Held(run, m) && |Exec(run).value.creating| == open + 1 <= m
    ensures Held(run + [Complete(open)], m)
    ensures CrashesInside(run + [Complete(open)], Organization.ROOT) == CrashesInside(run, Organization.ROOT)
    ensures
      var w, w' := Exec(run).value, Exec(run + [Complete(open)]).value;
      |Listed(w')| == |w.creating[open].stale| + 1 && |Roster(w')| == |Roster(w)| && |w'.creating| == open
  {
    LastEnds(Exec(run).value);
    UnfinishedSnoc(run, Complete(open), m);
  }

  /** A create that a crash falls into. */
  function Torn(): seq<Action> { [NEW_HEAD] + [Crash] + [Boot] }

  /** A run, one create at a time, with `n` crashes inside creates and nothing listed or under way at the end. */
  ghost predicate Loses(run: seq<Action>, n: nat) {
    && Held(run, 1) && CrashesInside(run, Organization.ROOT) == n
    && var w := Exec(run).value;
    && |Roster(w)| == n + 1 && Listed(w) == [] && w.creating == []
  }

  lemma LostRun(run: seq<Action>, n: nat)
    requires 1 <= n < Organization.MAX_TOTAL_AGENTS && Loses(run, n - 1)
    ensures Loses(run + Torn(), n)
  {
    TornRun(run);
  }

  lemma TornRun(run: seq<Action>)
    requires Held(run, 1) && HasRoom(Exec(run).value) && Exec(run).value.creating == []
    ensures Held(run + Torn(), 1)
    ensures CrashesInside(run + Torn(), Organization.ROOT) == CrashesInside(run, Organization.ROOT) + 1
    ensures
      var w, w' := Exec(run).value, Exec(run + Torn()).value;
      Listed(w') == Listed(w) && |Roster(w')| == |Roster(w)| + 1 && w'.creating == []
  {
    StartedRun(run, 1);
    CrashedRun(run + [NEW_HEAD], 1);
    assert run + Torn() == run + [NEW_HEAD] + [Crash] + [Boot];
  }

  /** A crash inside the only create, and the next boot. */
  lemma CrashedRun(run: seq<Action>, m: nat)
    requires Held(run, m) && |Exec(run).value.creating| == 1
    ensures Held(run + [Crash] + [Boot], m)
    ensures CrashesInside(run + [Crash] + [Boot], Organization.ROOT) == CrashesInside(run, Organization.ROOT) + 1
    ensures
      var w, w' := Exec(run).value, Exec(run + [Crash] + [Boot]).value;
      Roster(w') == Roster(w) && w'.creating == []
  {
    OneIsPending(Exec(run).value);
    CrashForgets(Exec(run).value);
    UnfinishedSnoc(run, Crash, m);
    UnfinishedSnoc(run + [Crash], Boot, m);
  }

  lemma OneIsPending(w: World)
    requires UnderRoot(w) && |w.creating| == 1
    ensures Interrupts(w, Crash, Organization.ROOT)
  {
    assert w.creating == [] + [w.creating[0]];
    PendingSnoc([], w.creating[0], Organization.ROOT);
  }

  /** The executive creates `n` agents, and every time the process dies between the insert and the `manages` write. */
  function Losing(n: nat): seq<Action> {
    if n == 0 then [Boot] else Losing(n - 1) + Torn()
  }

  /** After `start`, `n` creates run from start to end, one after the other. */
  function Listing(start: seq<Action>, n: nat, open: nat): seq<Action> {
    if n == 0 then start else Listing(start, n - 1, open) + Whole(open)
  }

  lemma {:induction false} LosingRuns(n: nat)
    requires n < Organization.MAX_TOTAL_AGENTS
    ensures Loses(Losing(n), n)
  {
    if n == 0 {
      BootedRun(1);
    } else {
      LosingRuns(n - 1);
      LostRun(Losing(n - 1), n);
    }
  }

  lemma {:induction false} ListingRuns(start: seq<Action>, m: nat, n: nat, open: nat)
    requires Held(start, m) && |Exec(start).value.creating| == open < m && Listed(Exec(start).value) == []
    requires |Roster(Exec(start).value)| + n <= Organization.MAX_TOTAL_AGENTS && n <= Organization.MAX_DIRECT_REPORTS
    ensures Held(Listing(start, n, open), m)
    ensures CrashesInside(Listing(start, n, open), Organization.ROOT) == CrashesInside(start, Organization.ROOT)
    ensures
      var w := Exec(Listing(start, n, open)).value;
      |Listed(w)| == n && |Roster(w)| == |Roster(Exec(start).value)| + n && |w.creating| == open
  {
    if n > 0 {
      ListingRuns(start, m, n - 1, open);
      ListedRun(Listing(start, n - 1, open), m, open);
    }
  }

  /**
   * A process that dies inside creates loses their agents from the list for good: the
   * executive can have any number of direct reports below the organization's size, none
   * of them listed, with one create at a time and no overlap.
   */
  lemma CrashesLoseAgents(n: nat)
    requires n < Organization.MAX_TOTAL_AGENTS
    ensures AtMostUnfinished(Losing(n), Organization.ROOT, 1) && NoOverlap(Losing(n), Organization.ROOT)
    ensures
      var w := Exec(Losing(n)).value;
      && Organization.ROOT in Roster(w) && w.creating == []
      && |Reports(Roster(w), Organization.ROOT)| == n && Roster(w)[Organization.ROOT].manages == []
      && (ListIsExact(w, Organization.ROOT) <==> n == 0)
  {
    LosingRuns(n);
    OneAtATimeIsClean(Losing(n), Organization.ROOT);
    UnderRootReports(Exec(Losing(n)).value);
  }

  /** `lost` creates end in a crash and then `listed` go through. */
  lemma CrashesAndLists(lost: nat, listed: nat)
    requires listed <= Organization.MAX_DIRECT_REPORTS && lost + listed < Organization.MAX_TOTAL_AGENTS
    ensures
      var run := Listing(Losing(lost), listed, 0);
      && AtMostUnfinished(run, Organization.ROOT, 1) && CrashesInside(run, Organization.ROOT) == lost
      && FanOut(run, Organization.ROOT) == lost + listed
  {
    LosingRuns(lost);
    ListingRuns(Losing(lost), 1, listed, 0);
    UnderRootReports(Exec(Listing(Losing(lost), listed, 0)).value);
  }

  /** One create is left unfinished while `listed` others run. */
  lemma OvertakenAndLists(listed: nat)
    requires listed <= Organization.MAX_DIRECT_REPORTS
    ensures
      var run := Listing([Boot] + [NEW_HEAD], listed, 1);
      && AtMostUnfinished(run, Organization.ROOT, 2) && CrashesInside(run, Organization.ROOT) == 0
      && FanOut(run, Organization.ROOT) == 1 + listed
  {
    BootedRun(2);
    StartedRun([Boot], 2);
    ListingRuns([Boot] + [NEW_HEAD], 2, listed, 1);
    UnderRootReports(Exec(Listing([Boot] + [NEW_HEAD], listed, 1)).value);
  }

  /** Two creates at a time, or a crash inside one, are enough for nine direct reports. */
  lemma NineReports(m: nat, k: nat)
    requires m >= 2 || (m == 1 && k >= 1)
    ensures exists run ::
              AtMostUnfinished(run, Organization.ROOT, m) && CrashesInside(run, Organization.ROOT) <= k
              && FanOut(run, Organization.ROOT) == Organization.MAX_DIRECT_REPORTS + 1
  {
    var cap := Organization.MAX_DIRECT_REPORTS;
    if m >= 2 {
      OvertakenAndLists(cap);
      var run := Listing([Boot] + [NEW_HEAD], cap, 1);
      AtMostMore(run, Organization.ROOT, 2, m);
      assert FanOut(run, Organization.ROOT) == cap + 1;
    } else {
      CrashesAndLists(1, cap);
      assert FanOut(Listing(Losing(1), cap, 0), Organization.ROOT) == cap + 1;
    }
  }

  lemma {:induction false} AtMostMore(run: seq<Action>, boss: AgentId, m: nat, k: nat)
    requires AtMostUnfinished(run, boss, m) && m <= k
    ensures AtMostUnfinished(run, boss, k)
  {
    if run != [] {
      AtMostMore(run[..|run| - 1], boss, m, k);
    }
  }

  /** Without a create under way there is none to crash in. */
  lemma {:induction false} NothingToInterrupt(run: seq<Action>, boss: AgentId)
    requires AtMostUnfinished(run, boss, 0)
    ensures CrashesInside(run, boss) == 0
  {
    if run != [] {
      NothingToInterrupt(run[..|run| - 1], boss);
    }
  }

  /**
   * No run with at most `m` creates of an agent unfinished at a time, and at most `k`
   * crashes inside them, ends with more than `limit` agents that report to it.
   */
  ghost predicate NeverExceeds(m: nat, k: nat, limit: nat) {
    forall run, boss :: AtMostUnfinished(run, boss, m) && CrashesInside(run, boss) <= k ==> FanOut(run, boss) <= limit
  }

  /**
   * The limit of eight direct reports is kept exactly if no agent has two creates
   * unfinished at a time and no crash falls inside one.
   */
  lemma FanOutCapHoldsIff(m: nat, k: nat)
    ensures NeverExceeds(m, k, 8) <==> m == 0 || (m == 1 && k == 0)
  {
    if m == 0 || (m == 1 && k == 0) {
      forall run, boss | AtMostUnfinished(run, boss, m) && CrashesInside(run, boss) <= k
        ensures FanOut(run, boss) <= Organization.MAX_DIRECT_REPORTS
      {
        if m == 0 {
          NothingToInterrupt(run, boss);
        }
        AtMostMore(run, boss, m, 1);
        FanOutIsBounded(run, boss);
      }
    } else {
      NineReports(m, k);
    }
  }

  /**
   * With one create at a time, exactly how far crashes inside creates push the number of
   * direct reports: one each above the eight, up to everyone else in the organization.
   */
  lemma CrashesRaiseTheFanOutIff(k: nat, limit: nat)
    ensures NeverExceeds(1, k, limit) <==> limit >= 8 + k || limit >= 39
  {
    var cap, all := Organization.MAX_DIRECT_REPORTS, Organization.MAX_TOTAL_AGENTS - 1;
    if limit >= cap + k || limit >= all {
      forall run, boss | AtMostUnfinished(run, boss, 1) && CrashesInside(run, boss) <= k
        ensures FanOut(run, boss) <= limit
      {
        FanOutIsBounded(run, boss);
      }
    } else {
      var lost := if cap + k < all then k else all - cap;
      CrashesAndLists(lost, cap);
      var run := Listing(Losing(lost), cap, 0);
      assert CrashesInside(run, Organization.ROOT) <= k && FanOut(run, Organization.ROOT) > limit;
    }
  }

  /** The executive starts `n` creates before any of them completes. */
  function Overlapping(n: nat): seq<Action> {
    if n == 0 then [Boot] else Overlapping(n - 1) + [NEW_HEAD]
  }

  lemma {:induction false} OverlapRuns(n: nat)
    requires n < Organization.MAX_TOTAL_AGENTS
    ensures Held(Overlapping(n), Organization.MAX_TOTAL_AGENTS)
    ensures
      var w := Exec(Overlapping(n)).value;
      |Roster(w)| == n + 1 && Listed(w) == [] && |w.creating| == n
  {
    if n == 0 {
      BootedRun(Organization.MAX_TOTAL_AGENTS);
    } else {
      OverlapRuns(n - 1);
      StartedRun(Overlapping(n - 1), Organization.MAX_TOTAL_AGENTS);
    }
  }

  /**
   * Overlapping creates get past the fan-out cap: the executive can be given any
   * number of direct reports up to the size of the organization.
   */
  lemma OverlapsBreakTheFanOutCap(n: nat)
    requires n < Organization.MAX_TOTAL_AGENTS
    ensures Exec(Overlapping(n)).Some?
    ensures |Reports(Roster(Exec(Overlapping(n)).value), Organization.ROOT)| == n
  {
    OverlapRuns(n);
    UnderRootReports(Exec(Overlapping(n)).value);
  }
}
