/** The browser's task list: pages of older tasks and live deltas, in any order. */
module TaskLists {
  import opened Common
  import opened Pages
  import opened Stream

  /** `tasks` as shown; of the table's rows, those from `lo` on have been paged in and those below `hi` announced. */
  datatype View = View(tasks: seq<Task>, lo: nat, hi: nat, cursor: Option<nat>)

  /** `size` is how long the table is when a page of older tasks is read from it. */
  datatype Step = Created | Changed(row: nat, body: string) | OlderPage(size: nat)

  /** What a table, of which the first `n` rows were there at the first fetch, allows. */
  predicate Possible(rows: seq<Row<Task>>, n: nat, v: View, s: Step) {
    match s
    case Created => v.hi < |rows|
    case Changed(row, _) => row < |rows| && row < v.hi
    case OlderPage(size) => v.cursor != None && n <= size <= |rows|
  }

  /** Changes are only reported for tasks that are listed. */
  predicate Orderly(v: View, s: Step) {
    s.Changed? ==> v.lo <= s.row
  }

  /** The initial page on an empty list. */
  function Opened(rows: seq<Row<Task>>, n: nat, limit: nat): View
    requires limit >= 1 && n <= |rows|
  {
    var page := PageOf(rows[..n], None, limit);
    View(TasksPage([], Tasks(page.items), true), LowerBy(n, limit), n, page.nextCursor)
  }

  function Next(rows: seq<Row<Task>>, n: nat, limit: nat, v: View, s: Step): View
    requires limit >= 1 && Possible(rows, n, v, s)
  {
    match s
    case Created => v.(tasks := UpsertTask(v.tasks, rows[v.hi].item), hi := v.hi + 1)
    case Changed(row, body) => v.(tasks := UpsertTask(v.tasks, rows[row].item.(body := body)))
    case OlderPage(size) =>
      var page := PageOf(rows[..size], v.cursor, limit);
      v.(tasks := TasksPage(v.tasks, Tasks(page.items), false), lo := LowerBy(v.lo, limit), cursor := page.nextCursor)
  }

  function Shows(rows: seq<Row<Task>>, n: nat, limit: nat, steps: seq<Step>): Option<View>
    requires limit >= 1 && n <= |rows|
  {
    if steps == [] then Some(Opened(rows, n, limit))
    else
      var before := Shows(rows, n, limit, steps[..|steps| - 1]);
      var s := steps[|steps| - 1];
      if before.Some? && Possible(rows, n, before.value, s) && Orderly(before.value, s)
      then Some(Next(rows, n, limit, before.value, s)) else None
  }

  /** What the first page and the steps after it dispatch to the reducer. */
  function Dispatched(rows: seq<Row<Task>>, n: nat, limit: nat, steps: seq<Step>): seq<Update>
    requires limit >= 1 && n <= |rows| && Shows(rows, n, limit, steps).Some?
  {
    if steps == [] then [] + [TasksArrive(Tasks(PageOf(rows[..n], None, limit).items), true)]
    else
      var k := |steps| - 1;
      var before := Shows(rows, n, limit, steps[..k]).value;
      Dispatched(rows, n, limit, steps[..k]) +
      [match steps[k]
       case Created => TaskDelta(rows[before.hi].item)
       case Changed(row, body) => TaskDelta(rows[row].item.(body := body))
       case OlderPage(size) => TasksArrive(Tasks(PageOf(rows[..size], before.cursor, limit).items), false)]
  }

  /** The tasks shown are what the reducer makes of the updates. */
  lemma {:induction false} TasksAreReduced(rows: seq<Row<Task>>, n: nat, limit: nat, steps: seq<Step>)
    requires limit >= 1 && n <= |rows| && Shows(rows, n, limit, steps).Some?
    ensures Shows(rows, n, limit, steps).value.tasks == Reduce(Dispatched(rows, n, limit, steps)).1
  {
    var updates := Dispatched(rows, n, limit, steps);
    if steps == [] {
      ReduceSnoc([], updates[0]);
    } else {
      var k := |steps| - 1;
      TasksAreReduced(rows, n, limit, steps[..k]);
      ReduceSnoc(Dispatched(rows, n, limit, steps[..k]), updates[|updates| - 1]);
    }
  }

  function Ids(tasks: seq<Task>): seq<string> {
    seq(|tasks|, i requires 0 <= i < |tasks| => tasks[i].id)
  }

  /** The ids of the rows from `lo` to `hi`, newest first. */
  function BlockIds(rows: seq<Row<Task>>, lo: nat, hi: nat): seq<string>
    requires lo <= hi <= |rows|
  {
    seq(hi - lo, i requires 0 <= i < hi - lo => rows[hi - 1 - i].item.id)
  }

  lemma PageIds(rows: seq<Row<Task>>, lo: nat, hi: nat)
    requires lo <= hi <= |rows|
    ensures Ids(Tasks(Reversed(rows[lo..hi]))) == BlockIds(rows, lo, hi)
  {
    var page := Tasks(Reversed(rows[lo..hi]));
    assert |page| == hi - lo;
    forall i | 0 <= i < hi - lo ensures page[i] == rows[hi - 1 - i].item {
      assert Reversed(rows[lo..hi])[i] == rows[lo..hi][hi - lo - 1 - i];
    }
  }

  predicate TableOk(rows: seq<Row<Task>>) {
    Ascending(rows) && UniqueIds(Tasks(rows))
  }

  /** The list is the block of the table from `lo` to `hi`, newest first, with the cursor at its older end. */
  ghost predicate BlockShown(rows: seq<Row<Task>>, n: nat, v: View) {
    && v.lo <= n <= v.hi <= |rows|
    && Ids(v.tasks) == BlockIds(rows, v.lo, v.hi)
    && (match v.cursor case None => v.lo == 0 case Some(key) => v.lo < n && rows[v.lo].key == key)
  }

  lemma SameIdSameRow(rows: seq<Row<Task>>, i: nat, j: nat)
    requires TableOk(rows) && i < |rows| && j < |rows| && rows[i].item.id == rows[j].item.id
    ensures i == j
  {
    assert Tasks(rows)[i] == rows[i].item && Tasks(rows)[j] == rows[j].item;
  }

  lemma TaskAt(rows: seq<Row<Task>>, tasks: seq<Task>, lo: nat, hi: nat, i: nat)
    requires lo <= hi <= |rows| && Ids(tasks) == BlockIds(rows, lo, hi) && i < hi - lo
    ensures |tasks| == hi - lo && tasks[i].id == rows[hi - 1 - i].item.id
  {
    assert |Ids(tasks)| == |BlockIds(rows, lo, hi)|;
    assert Ids(tasks)[i] == BlockIds(rows, lo, hi)[i];
  }

  /** An id is in the block exactly if its row is. */
  lemma InBlockIff(rows: seq<Row<Task>>, lo: nat, hi: nat, k: nat)
    requires TableOk(rows) && lo <= hi <= |rows| && k < |rows|
    ensures rows[k].item.id in BlockIds(rows, lo, hi) <==> lo <= k < hi
  {
    var ids := BlockIds(rows, lo, hi);
    if rows[k].item.id in ids {
      var i :| 0 <= i < |ids| && ids[i] == rows[k].item.id;
      SameIdSameRow(rows, k, hi - 1 - i);
    }
    if lo <= k < hi {
      assert ids[hi - 1 - k] == rows[k].item.id;
    }
  }

  lemma IdsCons(task: Task, tasks: seq<Task>)
    ensures Ids([task] + tasks) == [task.id] + Ids(tasks)
  {
  }

  lemma IdsReplaced(tasks: seq<Task>, i: nat, task: Task)
    requires i < |tasks| && tasks[i].id == task.id
    ensures Ids(tasks[i := task]) == Ids(tasks)
  {
  }

  lemma ListedIds(tasks: seq<Task>, id: string)
    ensures IndexOf(tasks, id) < |tasks| <==> id in Ids(tasks)
  {
    var i, ids := IndexOf(tasks, id), Ids(tasks);
    if i < |tasks| {
      assert ids[i] == id;
    } else {
      assert forall k :: 0 <= k < |ids| ==> ids[k] != id;
    }
  }

  lemma UpsertIds(tasks: seq<Task>, task: Task)
    ensures Ids(UpsertTask(tasks, task)) == if task.id in Ids(tasks) then Ids(tasks) else [task.id] + Ids(tasks)
  {
    ListedIds(tasks, task.id);
    var i := IndexOf(tasks, task.id);
    if i == |tasks| {
      IdsCons(task, tasks);
    } else {
      IdsReplaced(tasks, i, task);
    }
  }

  lemma BlockGrowsUp(rows: seq<Row<Task>>, lo: nat, hi: nat)
    requires lo <= hi < |rows|
    ensures BlockIds(rows, lo, hi + 1) == [rows[hi].item.id] + BlockIds(rows, lo, hi)
  {
  }

  lemma BlockGrowsDown(rows: seq<Row<Task>>, from: nat, lo: nat, hi: nat)
    requires from <= lo <= hi <= |rows|
    ensures BlockIds(rows, from, hi) == BlockIds(rows, lo, hi) + BlockIds(rows, from, lo)
  {
  }

  lemma CreatedKeeps(rows: seq<Row<Task>>, n: nat, limit: nat, v: View)
    requires limit >= 1 && TableOk(rows) && BlockShown(rows, n, v) && Possible(rows, n, v, Created)
    ensures BlockShown(rows, n, Next(rows, n, limit, v, Created))
  {
    InBlockIff(rows, v.lo, v.hi, v.hi);
    UpsertIds(v.tasks, rows[v.hi].item);
    BlockGrowsUp(rows, v.lo, v.hi);
  }

  /** A change keeps the list a block exactly if the task is already listed: an unlisted one jumps to the front. */
  lemma ChangeKeepsOrderIff(rows: seq<Row<Task>>, n: nat, limit: nat, v: View, row: nat, body: string)
    requires limit >= 1 && TableOk(rows) && BlockShown(rows, n, v) && Possible(rows, n, v, Changed(row, body))
    ensures BlockShown(rows, n, Next(rows, n, limit, v, Changed(row, body))) <==> v.lo <= row
  {
    InBlockIff(rows, v.lo, v.hi, row);
    UpsertIds(v.tasks, rows[row].item.(body := body));
    assert |[rows[row].item.id] + Ids(v.tasks)| != |BlockIds(rows, v.lo, v.hi)|;
  }

  lemma OlderPageIds(rows: seq<Row<Task>>, tasks: seq<Task>, from: nat, lo: nat, hi: nat)
    requires TableOk(rows) && from <= lo <= hi <= |rows| && Ids(tasks) == BlockIds(rows, lo, hi)
    ensures Ids(TasksPage(tasks, Tasks(Reversed(rows[from..lo])), false)) == BlockIds(rows, from, hi)
  {
    var items := Tasks(Reversed(rows[from..lo]));
    PageIds(rows, from, lo);
    forall i, j | 0 <= i < |items| && 0 <= j < |tasks| ensures items[i].id != tasks[j].id {
      assert |tasks| == |Ids(tasks)|;
      TaskAt(rows, tasks, lo, hi, j);
      assert Ids(items)[i] == rows[lo - 1 - i].item.id;
      if items[i].id == tasks[j].id {
        SameIdSameRow(rows, lo - 1 - i, hi - 1 - j);
      }
    }
    NoneSeen(items, tasks);
    assert Ids(tasks + items) == Ids(tasks) + Ids(items);
    BlockGrowsDown(rows, from, lo, hi);
  }

  lemma OlderPageKeeps(rows: seq<Row<Task>>, n: nat, limit: nat, v: View, size: nat)
    requires limit >= 1 && TableOk(rows) && BlockShown(rows, n, v) && Possible(rows, n, v, OlderPage(size))
    ensures BlockShown(rows, n, Next(rows, n, limit, v, OlderPage(size)))
  {
    var first, later := rows[..n], rows[..size];
    assert first <= later;
    PageFromCursor(first, later, v.lo, limit);
    var from := LowerBy(v.lo, limit);
    assert first[from..v.lo] == rows[from..v.lo];
    OlderPageIds(rows, v.tasks, from, v.lo, v.hi);
  }

  lemma OpenedIsBlock(rows: seq<Row<Task>>, n: nat, limit: nat)
    requires limit >= 1 && TableOk(rows) && n <= |rows|
    ensures BlockShown(rows, n, Opened(rows, n, limit))
  {
    FirstPage(rows[..n], limit);
    PageIds(rows, LowerBy(n, limit), n);
    assert rows[..n][LowerBy(n, limit)..n] == rows[LowerBy(n, limit)..n];
  }

  /**
   * However pages of older tasks and deltas interleave, as long as changes are
   * reported of listed tasks only, the list is one block of the table, each task
   * once and newest first, from the cursor up to the last task announced.
   */
  lemma {:induction false} TaskListIsOneBlock(rows: seq<Row<Task>>, n: nat, limit: nat, steps: seq<Step>)
    requires limit >= 1 && TableOk(rows) && n <= |rows| && Shows(rows, n, limit, steps).Some?
    ensures BlockShown(rows, n, Shows(rows, n, limit, steps).value)
  {
    if steps == [] {
      OpenedIsBlock(rows, n, limit);
    } else {
      var before := steps[..|steps| - 1];
      TaskListIsOneBlock(rows, n, limit, before);
      var v := Shows(rows, n, limit, before).value;
      match steps[|steps| - 1]
      case Created => CreatedKeeps(rows, n, limit, v);
      case Changed(row, body) => ChangeKeepsOrderIff(rows, n, limit, v, row, body);
      case OlderPage(size) => OlderPageKeeps(rows, n, limit, v, size);
    }
  }

  /** After the last page, with every task announced, the whole table is listed, each task once and newest first. */
  lemma EveryTaskIsListed(rows: seq<Row<Task>>, n: nat, limit: nat, steps: seq<Step>)
    requires limit >= 1 && TableOk(rows) && n <= |rows| && Shows(rows, n, limit, steps).Some?
    requires
      var v := Shows(rows, n, limit, steps).value;
      v.cursor == None && v.hi == |rows|
    ensures Ids(Shows(rows, n, limit, steps).value.tasks) == Ids(Tasks(Reversed(rows)))
  {
    TaskListIsOneBlock(rows, n, limit, steps);
    PageIds(rows, 0, |rows|);
    assert rows[0..|rows|] == rows;
  }
}
