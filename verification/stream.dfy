/** The browser's live view: reducers over message and task lists, and the page-loading guards. */
module Stream {
  import opened Common
  import opened Pages

  type Message = Row<Event>

  datatype Task = Task(id: string, body: string)

  predicate HasKey(messages: seq<Message>, key: nat) {
    exists i :: 0 <= i < |messages| && messages[i].key == key
  }

  /** A live message goes to the end unless it is already shown. */
  function AppendMessage(messages: seq<Message>, m: Message): seq<Message> {
    if HasKey(messages, m.key) then messages else messages + [m]
  }

  /** The messages not yet shown, in their order. */
  function Unseen(messages: seq<Message>, shown: seq<Message>): seq<Message> {
    if messages == [] then []
    else
      (if HasKey(shown, messages[0].key) then [] else [messages[0]]) + Unseen(messages[1..], shown)
  }

  /** A page arrives newest first; an initial page replaces the list, an older one goes in front. */
  function MessagesPage(messages: seq<Message>, items: seq<Message>, initial: bool): seq<Message> {
    var unseen := Unseen(Reversed(items), messages);
    if initial then unseen else unseen + messages
  }

  /** The position of a task, or the length of the list. */
  function IndexOf(tasks: seq<Task>, id: string): (i: nat)
    ensures i <= |tasks|
    ensures i < |tasks| ==> tasks[i].id == id
    ensures forall k :: 0 <= k < i ==> tasks[k].id != id
  {
    if tasks == [] || tasks[0].id == id then 0 else 1 + IndexOf(tasks[1..], id)
  }

  /** A new task goes to the front; a known one is replaced where it stands. */
  function UpsertTask(tasks: seq<Task>, task: Task): seq<Task> {
    var i := IndexOf(tasks, task.id);
    if i == |tasks| then [task] + tasks else tasks[i := task]
  }

  function UnseenTasks(items: seq<Task>, shown: seq<Task>): seq<Task> {
    if items == [] then []
    else
      (if IndexOf(shown, items[0].id) < |shown| then [] else [items[0]]) + UnseenTasks(items[1..], shown)
  }

  function TasksPage(tasks: seq<Task>, items: seq<Task>, initial: bool): seq<Task> {
    if initial then items else tasks + UnseenTasks(items, tasks)
  }

  /** The message history as the hook holds it: what is shown, the cursor and the guard against two fetches at once. */
  datatype History = History(messages: seq<Message>, hasMore: bool, cursor: Option<nat>, loading: bool)

  const NO_HISTORY := History([], false, None, false)

  /** Whether a load goes out: not beside another one, and not for older pages once there are none. */
  predicate MayLoad(h: History, initial: bool) {
    !h.loading && (initial || h.cursor != None)
  }

  function Loaded(h: History, initial: bool, page: Page<Event>): History {
    History(MessagesPage(h.messages, page.items, initial), page.nextCursor != None, page.nextCursor, false)
  }

  /** A failed fetch only lifts the guard. */
  function LoadFailed(h: History): History { h.(loading := false) }

  class MessageHistory {
    var messages: seq<Message>
    var hasMore: bool
    var cursor: Option<nat>
    var loading: bool

    ghost function View(): History
      reads this
    {
      History(messages, hasMore, cursor, loading)
    }

    constructor ()
      ensures View() == NO_HISTORY
    {
      messages, hasMore, cursor, loading := [], false, None, false;
    }

    method OnMessage(m: Message)
      modifies this`messages
      ensures View() == old(View()).(messages := AppendMessage(old(messages), m))
    {
      for i := 0 to |messages|
        invariant messages == old(messages)
        invariant forall k :: 0 <= k < i ==> messages[k].key != m.key
      {
        if messages[i].key == m.key {
          return;
        }
      }
      messages := messages + [m];
    }

    /** The cursor to fetch with, when a fetch goes out at all. */
    method BeginLoad(initial: bool) returns (request: Option<Option<nat>>)
      modifies this`loading
      ensures request == if MayLoad(old(View()), initial) then Some(if initial then None else cursor) else None
      ensures request.Some? <==> !old(loading) && (initial || cursor.Some?)
      ensures loading == (old(loading) || request.Some?)
    {
      if loading || (!initial && cursor == None) {
        return None;
      }
      loading := true;
      request := Some(if initial then None else cursor);
    }

    method FinishLoad(initial: bool, page: Page<Event>)
      modifies this
      ensures View() == Loaded(old(View()), initial, page)
    {
      cursor := page.nextCursor;
      messages := MessagesPage(messages, page.items, initial);
      hasMore := page.nextCursor != None;
      loading := false;
    }

    method FailLoad()
      modifies this`loading
      ensures View() == LoadFailed(old(View()))
    {
      loading := false;
    }
  }

  // ---- Nothing is ever shown twice ----

  predicate UniqueKeys(messages: seq<Message>) {
    forall i, j :: 0 <= i < j < |messages| ==> messages[i].key != messages[j].key
  }

  predicate UniqueIds(tasks: seq<Task>) {
    forall i, j :: 0 <= i < j < |tasks| ==> tasks[i].id != tasks[j].id
  }

  datatype Update =
    | MessageDelta(message: Message)
    | MessagesArrive(messages: seq<Message>, initial: bool)
    | TaskDelta(task: Task)
    | TasksArrive(tasks: seq<Task>, initial: bool)

  /** A server page never repeats a row. */
  predicate ServerLike(u: Update) {
    (u.MessagesArrive? ==> UniqueKeys(u.messages)) && (u.TasksArrive? ==> UniqueIds(u.tasks))
  }

  function Reduce(updates: seq<Update>): (seq<Message>, seq<Task>) {
    if updates == [] then ([], [])
    else
      var (messages, tasks) := Reduce(updates[..|updates| - 1]);
      match updates[|updates| - 1]
      case MessageDelta(m) => (AppendMessage(messages, m), tasks)
      case MessagesArrive(items, initial) => (MessagesPage(messages, items, initial), tasks)
      case TaskDelta(t) => (messages, UpsertTask(tasks, t))
      case TasksArrive(items, initial) => (messages, TasksPage(tasks, items, initial))
  }

  lemma {:induction false} UnseenKeys(messages: seq<Message>, shown: seq<Message>)
    requires UniqueKeys(messages)
    ensures UniqueKeys(Unseen(messages, shown))
    ensures forall r :: r in Unseen(messages, shown) <==> r in messages && !HasKey(shown, r.key)
  {
    if messages != [] {
      UnseenKeys(messages[1..], shown);
      assert messages == [messages[0]] + messages[1..];
      forall r | r in Unseen(messages[1..], shown) ensures r.key != messages[0].key {
        assert r in messages[1..];
      }
    }
  }

  lemma {:induction false} UnseenTaskIds(items: seq<Task>, shown: seq<Task>)
    requires UniqueIds(items)
    ensures UniqueIds(UnseenTasks(items, shown))
    ensures forall t :: t in UnseenTasks(items, shown) ==> t in items && IndexOf(shown, t.id) == |shown|
  {
    if items != [] {
      UnseenTaskIds(items[1..], shown);
      assert items == [items[0]] + items[1..];
      forall t | t in UnseenTasks(items[1..], shown) ensures t.id != items[0].id {
        assert t in items[1..];
      }
    }
  }

  lemma MessagesPageUnique(messages: seq<Message>, items: seq<Message>, initial: bool)
    requires UniqueKeys(messages) && UniqueKeys(items)
    ensures UniqueKeys(MessagesPage(messages, items, initial))
  {
    var unseen := Unseen(Reversed(items), messages);
    UnseenKeys(Reversed(items), messages);
    forall i, j | 0 <= i < |unseen| && 0 <= j < |messages| ensures unseen[i].key != messages[j].key {
      assert unseen[i] in unseen;
    }
  }

  lemma TasksPageUnique(tasks: seq<Task>, items: seq<Task>, initial: bool)
    requires UniqueIds(tasks) && UniqueIds(items)
    ensures UniqueIds(TasksPage(tasks, items, initial))
  {
    var unseen := UnseenTasks(items, tasks);
    UnseenTaskIds(items, tasks);
    forall i, j | 0 <= i < |unseen| && 0 <= j < |tasks| ensures unseen[i].id != tasks[j].id {
      assert unseen[i] in unseen;
    }
  }

  lemma ReduceSnoc(updates: seq<Update>, u: Update)
    ensures
      var (messages, tasks) := Reduce(updates);
      Reduce(updates + [u]) ==
        match u
        case MessageDelta(m) => (AppendMessage(messages, m), tasks)
        case MessagesArrive(items, initial) => (MessagesPage(messages, items, initial), tasks)
        case TaskDelta(t) => (messages, UpsertTask(tasks, t))
        case TasksArrive(items, initial) => (messages, TasksPage(tasks, items, initial))
  {
    assert (updates + [u])[..|updates|] == updates;
  }

  /** Whatever arrives in whatever order, no message and no task is listed twice. */
  lemma {:induction false} NothingIsListedTwice(updates: seq<Update>)
    requires forall i :: 0 <= i < |updates| ==> ServerLike(updates[i])
    ensures UniqueKeys(Reduce(updates).0) && UniqueIds(Reduce(updates).1)
  {
    if updates != [] {
      NothingIsListedTwice(updates[..|updates| - 1]);
      var (messages, tasks) := Reduce(updates[..|updates| - 1]);
      match updates[|updates| - 1]
      case MessageDelta(m) =>
      case MessagesArrive(items, initial) => MessagesPageUnique(messages, items, initial);
      case TaskDelta(t) =>
      case TasksArrive(items, initial) => TasksPageUnique(tasks, items, initial);
    }
  }

  /** After an update the list shows that task's new state under its id, and every other task where it was. */
  lemma UpsertShowsTheTask(tasks: seq<Task>, task: Task)
    ensures
      var r := UpsertTask(tasks, task);
      var i := IndexOf(r, task.id);
      var shift := |r| - |tasks|;
      && i < |r| && r[i] == task
      && shift == (if IndexOf(tasks, task.id) < |tasks| then 0 else 1)
      && (forall k :: 0 <= k < |tasks| && k != IndexOf(tasks, task.id) ==> r[k + shift] == tasks[k])
  {
    var i := IndexOf(tasks, task.id);
    if i < |tasks| {
      IndexOfIs(tasks[i := task], i, task.id);
    }
  }

  lemma {:induction false} IndexOfIs(tasks: seq<Task>, i: nat, id: string)
    requires i < |tasks| && tasks[i].id == id && forall k :: 0 <= k < i ==> tasks[k].id != id
    ensures IndexOf(tasks, id) == i
  {
    if i > 0 {
      IndexOfIs(tasks[1..], i - 1, id);
    }
  }

  // ---- Task pages in a row ----

  function Tasks(rows: seq<Row<Task>>): seq<Task> {
    seq(|rows|, i requires 0 <= i < |rows| => rows[i].item)
  }

  /** The task list after the pages of a walk, the first of them initial. */
  function Shown(pages: seq<Page<Task>>): seq<Task> {
    if pages == [] then []
    else
      var n := |pages| - 1;
      TasksPage(Shown(pages[..n]), Tasks(pages[n].items), n == 0)
  }

  lemma {:induction false} AllItemsSnoc(pages: seq<Page<Task>>, page: Page<Task>)
    ensures AllItems(pages + [page]) == AllItems(pages) + page.items
  {
    if pages == [] {
      assert ([page])[1..] == [];
    } else {
      AllItemsSnoc(pages[1..], page);
      assert (pages + [page])[1..] == pages[1..] + [page];
    }
  }

  lemma {:induction false} NoneSeen(items: seq<Task>, shown: seq<Task>)
    requires forall i, j :: 0 <= i < |items| && 0 <= j < |shown| ==> items[i].id != shown[j].id
    ensures UnseenTasks(items, shown) == items
  {
    if items != [] {
      NoneSeen(items[1..], shown);
      assert [items[0]] + items[1..] == items;
    }
  }

  lemma {:induction false} PagesAreShown(pages: seq<Page<Task>>)
    requires UniqueIds(Tasks(AllItems(pages)))
    ensures Shown(pages) == Tasks(AllItems(pages))
  {
    if pages != [] {
      var n := |pages| - 1;
      var before, items := AllItems(pages[..n]), pages[n].items;
      assert pages == pages[..n] + [pages[n]];
      AllItemsSnoc(pages[..n], pages[n]);
      var all := Tasks(AllItems(pages));
      assert all == Tasks(before) + Tasks(items);
      assert forall i :: 0 <= i < |before| ==> all[i] == Tasks(before)[i];
      assert forall i :: 0 <= i < |items| ==> all[|before| + i] == Tasks(items)[i];
      PagesAreShown(pages[..n]);
      if n > 0 {
        NoneSeen(Tasks(items), Tasks(before));
      }
    }
  }

  /**
   * Paging to the end of a growing task table shows the tasks that were there at
   * the first fetch, each once, newest first.
   */
  lemma TaskPagesShowTheTable(tables: seq<seq<Row<Task>>>, pages: seq<Page<Task>>, limit: nat)
    requires limit >= 1 && IsWalk(tables, pages, None, limit) && Growing(tables[0], tables)
    requires UniqueIds(Tasks(tables[0]))
    ensures Shown(pages) == Reversed(Tasks(tables[0]))
  {
    WalkReturnsTheTable(tables, pages, limit);
    assert Tasks(Reversed(tables[0])) == Reversed(Tasks(tables[0]));
    PagesAreShown(pages);
  }

  // ---- What an initial page does to a list that is not empty ----

  lemma {:induction false} UnseenIsAllIff(messages: seq<Message>, shown: seq<Message>)
    ensures |Unseen(messages, shown)| <= |messages|
    ensures Unseen(messages, shown) == messages <==> forall i :: 0 <= i < |messages| ==> !HasKey(shown, messages[i].key)
    ensures Unseen(messages, shown) == [] <==> forall i :: 0 <= i < |messages| ==> HasKey(shown, messages[i].key)
  {
    if messages != [] {
      UnseenIsAllIff(messages[1..], shown);
      var rest := Unseen(messages[1..], shown);
      if !HasKey(shown, messages[0].key) {
        assert ([messages[0]] + rest == messages) <==> rest == messages[1..] by {
          assert ([messages[0]] + rest)[1..] == rest;
        }
        assert (forall i :: 0 <= i < |messages| ==> !HasKey(shown, messages[i].key)) <==>
               (forall i :: 0 <= i < |messages| - 1 ==> !HasKey(shown, messages[1..][i].key)) by {
          assert forall i :: 0 < i < |messages| ==> messages[i] == messages[1..][i - 1];
        }
      } else {
        assert |[] + rest| < |messages|;
        assert (forall i :: 0 <= i < |messages| ==> HasKey(shown, messages[i].key)) <==>
               (forall i :: 0 <= i < |messages| - 1 ==> HasKey(shown, messages[1..][i].key)) by {
          assert forall i :: 0 < i < |messages| ==> messages[i] == messages[1..][i - 1];
        }
      }
    }
  }

  /**
   * An initial page is filtered against the list it then replaces: it shows its own
   * messages exactly if none of them was listed before.
   */
  lemma InitialPageShowsItselfIff(messages: seq<Message>, items: seq<Message>)
    ensures MessagesPage(messages, items, true) == Reversed(items)
            <==> forall i :: 0 <= i < |items| ==> !HasKey(messages, items[i].key)
  {
    UnseenIsAllIff(Reversed(items), messages);
    assert forall i :: 0 <= i < |items| ==> items[i] == Reversed(items)[|items| - 1 - i];
  }
}
