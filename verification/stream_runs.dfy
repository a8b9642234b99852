/** One connection: a growing event log, live deltas in order, and pages fetched meanwhile. */
module StreamRuns {
  import opened Common
  import opened Pages
  import opened Stream

  /** A fetch on its way: asked, or answered from the log as it stood, with `size` conversation messages. */
  datatype Fetch =
    | NoFetch
    | Asked(initial: bool, before: Option<nat>)
    | Answered(initial: bool, page: Page<Event>, size: nat)

  /**
   * `start` is how many conversation messages there were when the socket opened and
   * `received` counts those and the deltas delivered since.  `seeded` says whether
   * the initial page has arrived; then the list is the block from `lo` to `hi`.
   */
  datatype World = World(events: seq<Row<Event>>, start: nat, received: nat, view: History, fetch: Fetch,
                         seeded: bool, lo: nat, hi: nat)

  datatype Action =
    | Publish(row: Row<Event>)
    | Deliver
    | Ask(initial: bool)
    | Answer
    | Arrive
    | Fail

  function Table(w: World): seq<Message> { Conversation(w.events) }

  /** The connection has just opened on an empty view. */
  function Opened(events: seq<Row<Event>>): World {
    World(events, |Conversation(events)|, |Conversation(events)|, NO_HISTORY, NoFetch, false, 0, 0)
  }

  predicate Possible(w: World, a: Action) {
    match a
    case Publish(row) => forall r :: r in w.events ==> r.key < row.key
    case Deliver => w.received < |Table(w)|
    case Ask(initial) => MayLoad(w.view, initial)
    case Answer => w.fetch.Asked?
    case Arrive => w.fetch.Answered?
    case Fail => w.fetch != NoFetch
  }

  function Apply(w: World, limit: nat, a: Action): World
    requires limit >= 1 && Possible(w, a)
  {
    match a
    case Publish(row) => w.(events := w.events + [row])
    case Deliver =>
      w.(view := w.view.(messages := AppendMessage(w.view.messages, Table(w)[w.received])),
         received := w.received + 1,
         hi := if w.hi <= w.received then w.received + 1 else w.hi)
    case Ask(initial) =>
      w.(view := w.view.(loading := true), fetch := Asked(initial, if initial then None else w.view.cursor))
    case Answer =>
      w.(fetch := Answered(w.fetch.initial, PageMessages(w.events, w.fetch.before, limit), |Table(w)|))
    case Arrive =>
      var arrived := w.(view := Loaded(w.view, w.fetch.initial, w.fetch.page), fetch := NoFetch);
      if w.fetch.initial then arrived.(seeded := true, lo := LowerBy(w.fetch.size, limit), hi := w.fetch.size)
      else arrived.(lo := LowerBy(w.lo, limit))
    case Fail =>
      w.(view := LoadFailed(w.view), fetch := NoFetch)
  }

  /**
   * One initial load; its page arrives before any delta, and reaches back to the
   * opening of the connection.
   */
  predicate Orderly(w: World, limit: nat, a: Action) {
    match a
    case Ask(initial) => initial ==> !w.seeded
    case Arrive => w.fetch.Answered? && w.fetch.initial ==> w.view.messages == [] && w.fetch.size <= w.received + limit
    case _ => true
  }

  function Exec(events: seq<Row<Event>>, limit: nat, run: seq<Action>): Option<World>
    requires limit >= 1
  {
    if run == [] then Some(Opened(events))
    else
      var before := Exec(events, limit, run[..|run| - 1]);
      var a := run[|run| - 1];
      if before.Some? && Possible(before.value, a) && Orderly(before.value, limit, a)
      then Some(Apply(before.value, limit, a)) else None
  }

  /** What a run dispatches to the reducer. */
  function Dispatched(events: seq<Row<Event>>, limit: nat, run: seq<Action>): seq<Update>
    requires limit >= 1 && Exec(events, limit, run).Some?
  {
    if run == [] then []
    else
      var n := |run| - 1;
      var before := Exec(events, limit, run[..n]).value;
      Dispatched(events, limit, run[..n]) +
      match run[n]
      case Deliver => [MessageDelta(Table(before)[before.received])]
      case Arrive => [MessagesArrive(before.fetch.page.items, before.fetch.initial)]
      case _ => []
  }

  /** The messages shown in a run are what the reducer makes of its updates. */
  lemma {:induction false} MessagesAreReduced(events: seq<Row<Event>>, limit: nat, run: seq<Action>)
    requires limit >= 1 && Exec(events, limit, run).Some?
    ensures Exec(events, limit, run).value.view.messages == Reduce(Dispatched(events, limit, run)).0
  {
    if run != [] {
      var n := |run| - 1;
      var before := Exec(events, limit, run[..n]).value;
      var updates := Dispatched(events, limit, run[..n]);
      MessagesAreReduced(events, limit, run[..n]);
      match run[n]
      case Deliver => ReduceSnoc(updates, MessageDelta(Table(before)[before.received]));
      case Arrive => ReduceSnoc(updates, MessagesArrive(before.fetch.page.items, before.fetch.initial));
      case _ => assert updates + [] == updates;
    }
  }

  // ---- The invariant ----

  /** The list is the block of the table from `lo` to `hi`, with the cursor at its lower end. */
  ghost predicate BlockOk(w: World, limit: nat) {
    var t := Table(w);
    && w.lo <= w.received <= w.hi <= |t| && w.lo <= LowerBy(w.hi, limit)
    && w.view.messages == t[w.lo..w.hi]
    && w.view.hasMore == w.view.cursor.Some?
    && (w.view.cursor == None ==> w.lo == 0)
    && (w.view.cursor.Some? ==> w.lo < |t| && t[w.lo].key == w.view.cursor.value)
  }

  ghost predicate FetchOk(w: World, limit: nat)
    requires limit >= 1
  {
    match w.fetch
    case NoFetch => true
    case Asked(initial, before) =>
      && w.view.loading
      && initial != w.seeded
      && before == (if initial then None else w.view.cursor)
      && (!initial ==> before.Some?)
    case Answered(initial, page, size) =>
      && w.view.loading
      && initial != w.seeded
      && (initial ==> w.start <= size <= |Table(w)| && ShowsBelow(page, Table(w), size, limit))
      && (!initial ==> w.lo <= |Table(w)| && ShowsBelow(page, Table(w), w.lo, limit))
  }

  ghost predicate Inv(w: World, limit: nat)
    requires limit >= 1
  {
    && Ascending(w.events)
    && w.start <= w.received <= |Table(w)|
    && (w.view.loading ==> w.fetch != NoFetch)
    && (!w.seeded ==> w.view.cursor == None && w.view.messages == Table(w)[w.start..w.received])
    && (w.seeded ==> BlockOk(w, limit))
    && FetchOk(w, limit)
  }

  lemma TableAscends(w: World)
    requires Ascending(w.events)
    ensures Ascending(Table(w))
  {
    ConversationAscends(w.events);
  }

  // ---- Each action keeps it ----

  lemma PublishKeeps(w: World, limit: nat, row: Row<Event>)
    requires limit >= 1 && Inv(w, limit) && Possible(w, Publish(row))
    ensures Inv(Apply(w, limit, Publish(row)), limit)
  {
    var w' := Apply(w, limit, Publish(row));
    ConversationGrows(w.events, w'.events);
    var t, t' := Table(w), Table(w');
    assert t'[w.start..w.received] == t[w.start..w.received];
    if w.seeded {
      assert t'[w.lo..w.hi] == t[w.lo..w.hi];
    }
    if w.fetch.Answered? {
      LongerTable(w.fetch.page, t, t', if w.fetch.initial then w.fetch.size else w.lo, limit);
    }
  }

  lemma LongerTable(page: Page<Event>, t: seq<Message>, t': seq<Message>, j: nat, limit: nat)
    requires limit >= 1 && t <= t' && j <= |t| && ShowsBelow(page, t, j, limit)
    ensures ShowsBelow(page, t', j, limit)
  {
    var from := LowerBy(j, limit);
    assert t'[from..j] == t[from..j];
  }

  lemma KnownKey(t: seq<Message>, lo: nat, hi: nat, k: nat)
    requires Ascending(t) && lo <= hi <= |t| && k < |t|
    ensures HasKey(t[lo..hi], t[k].key) <==> lo <= k < hi
  {
    if lo <= k < hi {
      assert t[lo..hi][k - lo].key == t[k].key;
    }
  }

  /** A delta at the upper end of a block, or inside it. */
  lemma AppendToBlock(t: seq<Message>, lo: nat, hi: nat, k: nat)
    requires Ascending(t) && lo <= k <= hi <= |t| && k < |t|
    ensures AppendMessage(t[lo..hi], t[k]) == t[lo..if hi <= k then k + 1 else hi]
  {
    KnownKey(t, lo, hi, k);
    if k == hi {
      assert t[lo..k] + [t[k]] == t[lo..k + 1];
    }
  }

  lemma DeliverKeeps(w: World, limit: nat)
    requires limit >= 1 && Inv(w, limit) && Possible(w, Deliver)
    ensures Inv(Apply(w, limit, Deliver), limit)
  {
    TableAscends(w);
    if w.seeded {
      AppendToBlock(Table(w), w.lo, w.hi, w.received);
    } else {
      AppendToBlock(Table(w), w.start, w.received, w.received);
    }
  }

  lemma AnswerKeeps(w: World, limit: nat)
    requires limit >= 1 && Inv(w, limit) && Possible(w, Answer)
    ensures Inv(Apply(w, limit, Answer), limit)
  {
    TableAscends(w);
    if w.fetch.initial {
      FirstPage(Table(w), limit);
    } else {
      PageFromCursor(Table(w), Table(w), w.lo, limit);
    }
  }

  lemma ReversedTwice<T>(s: seq<T>)
    ensures Reversed(Reversed(s)) == s
  {
    var twice := Reversed(Reversed(s));
    assert forall i :: 0 <= i < |s| ==> twice[i] == s[i];
  }

  lemma UnseenBlock(t: seq<Message>, from: nat, lo: nat, hi: nat)
    requires Ascending(t) && from <= lo <= hi <= |t|
    ensures Unseen(t[from..lo], t[lo..hi]) == t[from..lo]
  {
    UnseenIsAllIff(t[from..lo], t[lo..hi]);
    forall i | 0 <= i < lo - from ensures !HasKey(t[lo..hi], t[from..lo][i].key) {
      KnownKey(t, lo, hi, from + i);
    }
  }

  lemma SeenBlock(t: seq<Message>, from: nat, lo: nat, hi: nat)
    requires Ascending(t) && lo <= from <= hi <= |t|
    ensures Unseen(t[from..hi], t[lo..hi]) == []
  {
    UnseenIsAllIff(t[from..hi], t[lo..hi]);
    forall i | 0 <= i < hi - from ensures HasKey(t[lo..hi], t[from..hi][i].key) {
      KnownKey(t, lo, hi, from + i);
    }
  }

  /** An older page put in front of the block it ends at. */
  lemma OlderPage(t: seq<Message>, from: nat, lo: nat, hi: nat)
    requires Ascending(t) && from <= lo <= hi <= |t|
    ensures MessagesPage(t[lo..hi], Reversed(t[from..lo]), false) == t[from..hi]
  {
    ReversedTwice(t[from..lo]);
    UnseenBlock(t, from, lo, hi);
    JoinBlocks(t, from, lo, hi);
  }

  lemma JoinBlocks(t: seq<Message>, from: nat, lo: nat, hi: nat)
    requires from <= lo <= hi <= |t|
    ensures t[from..lo] + t[lo..hi] == t[from..hi]
  {
  }

  lemma NewestPage(t: seq<Message>, from: nat, to: nat)
    requires Ascending(t) && from <= to <= |t|
    ensures MessagesPage([], Reversed(t[from..to]), true) == t[from..to]
  {
    var newest := t[from..to];
    ReversedTwice(newest);
    UnseenBlock(t, from, to, to);
    assert t[to..to] == [];
    assert MessagesPage([], Reversed(newest), true) == Unseen(newest, []);
  }

  lemma ArriveKeeps(w: World, limit: nat)
    requires limit >= 1 && Inv(w, limit) && Possible(w, Arrive) && Orderly(w, limit, Arrive)
    ensures Inv(Apply(w, limit, Arrive), limit)
  {
    TableAscends(w);
    var t := Table(w);
    if w.fetch.initial {
      NewestPage(t, LowerBy(w.fetch.size, limit), w.fetch.size);
    } else {
      OlderPage(t, LowerBy(w.lo, limit), w.lo, w.hi);
    }
  }

  lemma {:induction false} EveryRunKeeps(events: seq<Row<Event>>, limit: nat, run: seq<Action>)
    requires limit >= 1 && Ascending(events) && Exec(events, limit, run).Some?
    ensures Inv(Exec(events, limit, run).value, limit)
  {
    if run == [] {
      var n := |Conversation(events)|;
      assert Conversation(events)[n..n] == [];
    } else {
      EveryRunKeeps(events, limit, run[..|run| - 1]);
      var w := Exec(events, limit, run[..|run| - 1]).value;
      match run[|run| - 1]
      case Publish(row) => PublishKeeps(w, limit, row);
      case Deliver => DeliverKeeps(w, limit);
      case Ask(_) =>
      case Answer => AnswerKeeps(w, limit);
      case Arrive => ArriveKeeps(w, limit);
      case Fail =>
    }
  }

  /**
   * Once the initial page is in, the list is one contiguous block of the
   * conversation, oldest first: it starts at the cursor, or at the very beginning
   * when there is none, and reaches past every delta received.
   */
  lemma ListIsOneBlock(events: seq<Row<Event>>, limit: nat, run: seq<Action>)
    requires limit >= 1 && Ascending(events)
    requires Exec(events, limit, run).Some? && Exec(events, limit, run).value.seeded
    ensures
      var w := Exec(events, limit, run).value;
      var t := Conversation(w.events);
      && w.lo <= w.received <= w.hi <= |t|
      && w.view.messages == t[w.lo..w.hi] && Ascending(w.view.messages)
      && (match w.view.cursor case None => w.lo == 0 case Some(key) => w.lo < |t| && t[w.lo].key == key)
  {
    EveryRunKeeps(events, limit, run);
    TableAscends(Exec(events, limit, run).value);
  }

  /** With no more pages to load and every delta received, all of the conversation is shown. */
  lemma EverythingIsShown(events: seq<Row<Event>>, limit: nat, run: seq<Action>)
    requires limit >= 1 && Ascending(events)
    requires Exec(events, limit, run).Some? && Exec(events, limit, run).value.seeded
    requires
      var w := Exec(events, limit, run).value;
      !w.view.hasMore && w.received == |Conversation(w.events)|
    ensures
      var w := Exec(events, limit, run).value;
      w.view.messages == Conversation(w.events)
  {
    ListIsOneBlock(events, limit, run);
    EveryRunKeeps(events, limit, run);
    var t := Conversation(Exec(events, limit, run).value.events);
    assert t[0..|t|] == t;
  }

  // ---- Paging back to the beginning ----

  /** One older page, asked for, answered and arrived. */
  function OlderPageLoad(w: World, limit: nat): World
    requires limit >= 1 && Possible(w, Ask(false))
  {
    Apply(Apply(Apply(w, limit, Ask(false)), limit, Answer), limit, Arrive)
  }

  lemma OneOlderPage(w: World, limit: nat)
    requires limit >= 1 && Inv(w, limit) && w.seeded && w.fetch == NoFetch && w.view.cursor.Some?
    ensures Possible(w, Ask(false)) && Orderly(w, limit, Ask(false))
    ensures
      var answered := Apply(Apply(w, limit, Ask(false)), limit, Answer);
      Possible(answered, Arrive) && Orderly(answered, limit, Arrive)
    ensures
      var w' := OlderPageLoad(w, limit);
      && Inv(w', limit) && w'.seeded && w'.fetch == NoFetch && w'.events == w.events && w'.hi == w.hi
      && w'.lo == LowerBy(w.lo, limit)
      && (w'.view.cursor == None <==> w.lo < limit)
  {
    var asked := Apply(w, limit, Ask(false));
    AnswerKeeps(asked, limit);
    var answered := Apply(asked, limit, Answer);
    assert ShowsBelow(answered.fetch.page, Table(answered), answered.lo, limit);
    ArriveKeeps(answered, limit);
  }

  lemma OlderPageRuns(events: seq<Row<Event>>, limit: nat, run: seq<Action>)
    requires limit >= 1 && Ascending(events) && Exec(events, limit, run).Some?
    requires
      var w := Exec(events, limit, run).value;
      w.seeded && w.fetch == NoFetch && w.view.cursor.Some?
    ensures Possible(Exec(events, limit, run).value, Ask(false))
    ensures
      Exec(events, limit, run + [Ask(false)] + [Answer] + [Arrive]) ==
        Some(OlderPageLoad(Exec(events, limit, run).value, limit))
  {
    EveryRunKeeps(events, limit, run);
    OneOlderPage(Exec(events, limit, run).value, limit);
    ExecSnoc(events, limit, run, Ask(false));
    ExecSnoc(events, limit, run + [Ask(false)], Answer);
    ExecSnoc(events, limit, run + [Ask(false)] + [Answer], Arrive);
  }

  /** The run goes on with `n` loads of older pages. */
  function Older(run: seq<Action>, n: nat): seq<Action>
    decreases n
  {
    if n == 0 then run else Older(run + [Ask(false)] + [Answer] + [Arrive], n - 1)
  }

  /** With no load under way and older pages to come, so many loads show everything up to what is shown now. */
  lemma {:induction false} OlderPagesShow(events: seq<Row<Event>>, limit: nat, run: seq<Action>, n: nat)
    requires limit >= 1 && Ascending(events) && Exec(events, limit, run).Some?
    requires
      var w := Exec(events, limit, run).value;
      w.seeded && w.fetch == NoFetch && w.view.cursor.Some? && n == Fetches(w.lo, limit)
    ensures Exec(events, limit, Older(run, n)).Some?
    ensures
      var w, w' := Exec(events, limit, run).value, Exec(events, limit, Older(run, n)).value;
      w'.seeded && !w'.view.hasMore && w'.events == w.events && w'.lo == 0 && w'.hi == w.hi
    decreases n
  {
    var w := Exec(events, limit, run).value;
    var next := run + [Ask(false)] + [Answer] + [Arrive];
    EveryRunKeeps(events, limit, run);
    OneOlderPage(w, limit);
    OlderPageRuns(events, limit, run);
    EveryRunKeeps(events, limit, next);
    if w.lo < limit {
      assert Older(next, 0) == next;
    } else {
      OlderPagesShow(events, limit, next, n - 1);
    }
  }

  /**
   * From any reachable state with the initial page in and no load under way, paging on
   * ends after a known number of loads with the conversation shown from its beginning.
   */
  lemma PagingReachesTheBeginning(events: seq<Row<Event>>, limit: nat, run: seq<Action>)
    requires limit >= 1 && Ascending(events) && Exec(events, limit, run).Some?
    requires Exec(events, limit, run).value.seeded && Exec(events, limit, run).value.fetch == NoFetch
    ensures
      var w := Exec(events, limit, run).value;
      var n := if w.view.hasMore then Fetches(w.lo, limit) else 0;
      Exec(events, limit, Older(run, n)).Some? &&
      var w' := Exec(events, limit, Older(run, n)).value;
      && !w'.view.hasMore && w.hi <= |Conversation(w.events)| && w'.view.messages == Conversation(w.events)[..w.hi]
  {
    var w := Exec(events, limit, run).value;
    EveryRunKeeps(events, limit, run);
    if w.view.hasMore {
      OlderPagesShow(events, limit, run, Fetches(w.lo, limit));
    }
    var n := if w.view.hasMore then Fetches(w.lo, limit) else 0;
    EveryRunKeeps(events, limit, Older(run, n));
    assert Table(w)[0..w.hi] == Table(w)[..w.hi];
  }

  lemma RegroupMessages(x: seq<Message>, y: seq<Message>, z: seq<Message>)
    ensures x + (y + z) == (x + y) + z
  {
  }

  lemma {:induction false} UnseenConcat(a: seq<Message>, b: seq<Message>, shown: seq<Message>)
    ensures Unseen(a + b, shown) == Unseen(a, shown) + Unseen(b, shown)
  {
    if a == [] {
      assert a + b == b;
    } else {
      var first := if HasKey(shown, a[0].key) then [] else [a[0]];
      UnseenConcat(a[1..], b, shown);
      assert (a + b)[0] == a[0] && (a + b)[1..] == a[1..] + b;
      assert Unseen(a, shown) == first + Unseen(a[1..], shown);
      RegroupMessages(first, Unseen(a[1..], shown), Unseen(b, shown));
    }
  }

  /** Of a page, what lies above a block is not seen yet, and what lies in it is. */
  lemma UnseenAbove(t: seq<Message>, lo: nat, hi: nat, from: nat)
    requires Ascending(t) && lo <= from <= |t| && lo <= hi <= |t|
    ensures Unseen(t[from..], t[lo..hi]) == t[if hi < from then from else hi..]
  {
    var split := if hi < from then from else hi;
    if from <= hi {
      SeenBlock(t, from, lo, hi);
    } else {
      assert t[from..split] == [];
    }
    assert t[from..] == t[from..split] + t[split..];
    UnseenConcat(t[from..split], t[split..], t[lo..hi]);
    UnseenIsAllIff(t[split..], t[lo..hi]);
    forall i | 0 <= i < |t| - split ensures !HasKey(t[lo..hi], t[split..][i].key) {
      KnownKey(t, lo, hi, split + i);
    }
  }

  lemma NewestItems(events: seq<Row<Event>>, limit: nat)
    requires limit >= 1
    ensures
      var t := Conversation(events);
      Reversed(PageMessages(events, None, limit).items) == t[LowerBy(|t|, limit)..]
  {
    var t := Conversation(events);
    var from := LowerBy(|t|, limit);
    FirstPage(t, limit);
    assert t[from..|t|] == t[from..];
    ReversedTwice(t[from..]);
  }

  /**
   * A reconnecting client loads the initial page again. It is left with exactly the
   * part of that page that it had missed.
   */
  lemma ReconnectShowsTheMissed(events: seq<Row<Event>>, limit: nat, run: seq<Action>)
    requires limit >= 1 && Ascending(events)
    requires Exec(events, limit, run).Some? && Exec(events, limit, run).value.seeded
    ensures
      var w := Exec(events, limit, run).value;
      var t := Conversation(w.events);
      var from := LowerBy(|t|, limit);
      w.hi <= |t| &&
      Loaded(w.view, true, PageMessages(w.events, None, limit)).messages == t[if w.hi < from then from else w.hi..]
  {
    EveryRunKeeps(events, limit, run);
    var w := Exec(events, limit, run).value;
    var t := Table(w);
    TableAscends(w);
    NewestItems(w.events, limit);
    UnseenAbove(t, w.lo, w.hi, LowerBy(|t|, limit));
  }

  /**
   * So the list is left empty exactly if nothing was missed, and shows a whole page
   * exactly if at least a page of messages was missed.
   */
  lemma ReconnectEmptiesTheListIff(events: seq<Row<Event>>, limit: nat, run: seq<Action>)
    requires limit >= 1 && Ascending(events)
    requires Exec(events, limit, run).Some? && Exec(events, limit, run).value.seeded
    ensures
      var w := Exec(events, limit, run).value;
      var n := |Conversation(w.events)|;
      var list := Loaded(w.view, true, PageMessages(w.events, None, limit)).messages;
      && (list == [] <==> w.hi == n)
      && (list == Conversation(w.events)[LowerBy(n, limit)..] <==> w.hi <= LowerBy(n, limit))
  {
    ReconnectShowsTheMissed(events, limit, run);
    var w := Exec(events, limit, run).value;
    var t := Conversation(w.events);
    var from := LowerBy(|t|, limit);
    assert |t[if w.hi < from then from else w.hi..]| == |t| - (if w.hi < from then from else w.hi);
  }

  /** Connecting to a conversation of one message, and loading it. */
  function Loading(): seq<Action> { [] + [Ask(true)] + [Answer] + [Arrive] }

  lemma ExecSnoc(events: seq<Row<Event>>, limit: nat, run: seq<Action>, a: Action)
    requires limit >= 1
    ensures
      Exec(events, limit, run + [a]) ==
        (var before := Exec(events, limit, run);
         if before.Some? && Possible(before.value, a) && Orderly(before.value, limit, a)
         then Some(Apply(before.value, limit, a)) else None)
  {
    assert (run + [a])[..|run|] == run;
  }

  lemma OneMessage(row: Row<Event>)
    requires InConversation(row.item)
    ensures Conversation([row]) == [row]
  {
    assert [row][..0] == [];
  }

  lemma AnsweredRun(row: Row<Event>, limit: nat)
    requires limit >= 1 && InConversation(row.item)
    ensures
      var w := Exec([row], limit, [] + [Ask(true)] + [Answer]);
      w.Some? && w.value.events == [row] && w.value.received == 1 && w.value.view.messages == []
      && w.value.fetch.Answered? && w.value.fetch.initial && w.value.fetch.size == 1
  {
    OneMessage(row);
    ExecSnoc([row], limit, [], Ask(true));
    ExecSnoc([row], limit, [] + [Ask(true)], Answer);
  }

  lemma InitialArrives(w: World, limit: nat)
    requires limit >= 1 && Possible(w, Arrive) && w.fetch.initial
    ensures
      var w' := Apply(w, limit, Arrive);
      w'.events == w.events && w'.seeded && w'.lo == LowerBy(w.fetch.size, limit) && w'.hi == w.fetch.size
  {
  }

  lemma LoadedRun(row: Row<Event>, limit: nat)
    requires limit >= 1 && InConversation(row.item)
    ensures
      var w := Exec([row], limit, Loading());
      w.Some? && w.value.events == [row] && w.value.seeded && w.value.lo == 0 && w.value.hi == 1
  {
    AnsweredRun(row, limit);
    var w := Exec([row], limit, [] + [Ask(true)] + [Answer]).value;
    InitialArrives(w, limit);
    ExecSnoc([row], limit, [] + [Ask(true)] + [Answer], Arrive);
  }

  /** A run after which a reconnection empties a list that is not empty. */
  lemma ReconnectLosesTheConversation(row: Row<Event>, limit: nat)
    requires limit >= 1 && InConversation(row.item)
    ensures Exec([row], limit, Loading()).Some?
    ensures
      var w := Exec([row], limit, Loading()).value;
      && w.view.messages == [row]
      && Loaded(w.view, true, PageMessages(w.events, None, limit)).messages == []
  {
    LoadedRun(row, limit);
    OneMessage(row);
    ListIsOneBlock([row], limit, Loading());
    assert [row][0..1] == [row];
    ReconnectEmptiesTheListIff([row], limit, Loading());
  }

  // ---- When the initial page reaches back far enough ----

  lemma SnocAscends(t: seq<Message>, from: nat, size: nat, k: nat)
    requires Ascending(t) && from <= size <= |t| && k < |t| && (k < from ==> from < size) && k <= size
    ensures Ascending(AppendMessage(t[from..size], t[k])) <==> from <= k
  {
    KnownKey(t, from, size, k);
    var list := AppendMessage(t[from..size], t[k]);
    if k < from {
      assert list == t[from..size] + [t[k]];
      assert list[0].key > list[size - from].key;
    } else if k == size {
      assert list == t[from..size + 1];
    }
  }

  /**
   * The first delta after an initial page on an empty list keeps the list in order
   * exactly if the page reaches back to what was there when the socket opened.
   */
  lemma ShortPageBreaksTheOrderIff(w: World, limit: nat)
    requires limit >= 1 && Inv(w, limit) && w.fetch.Answered? && w.fetch.initial
    requires w.view.messages == [] && w.received < |Table(w)|
    ensures
      var arrived := Apply(w, limit, Arrive);
      Possible(arrived, Deliver) &&
      (Ascending(Apply(arrived, limit, Deliver).view.messages) <==> w.fetch.size <= w.received + limit)
  {
    var t, size := Table(w), w.fetch.size;
    var from := LowerBy(size, limit);
    TableAscends(w);
    assert |t[w.start..w.received]| == 0;
    NewestPage(t, from, size);
    assert Apply(w, limit, Arrive).view.messages == t[from..size];
    SnocAscends(t, from, size, w.received);
  }

  /** Two messages are published while the initial page of one is fetched. */
  function ShortLoading(a: Row<Event>, b: Row<Event>): seq<Action> {
    [] + [Ask(true)] + [Publish(a)] + [Publish(b)] + [Answer]
  }

  lemma PublishAppends(w: World, limit: nat, row: Row<Event>)
    requires limit >= 1 && Possible(w, Publish(row))
    ensures
      var w' := Apply(w, limit, Publish(row));
      w'.events == w.events + [row] && w'.received == w.received && w'.view == w.view && w'.fetch == w.fetch
      && w'.start == w.start && w'.seeded == w.seeded
  {
  }

  lemma PublishedRun(a: Row<Event>, b: Row<Event>)
    requires a.key < b.key
    ensures
      var w := Exec([], 1, [] + [Ask(true)] + [Publish(a)] + [Publish(b)]);
      w.Some? && w.value.events == [a, b] && w.value.received == 0 && w.value.view.messages == []
      && w.value.fetch == Asked(true, None)
  {
    var asked := [] + [Ask(true)];
    ExecSnoc([], 1, [], Ask(true));
    ExecSnoc([], 1, asked, Publish(a));
    PublishAppends(Exec([], 1, asked).value, 1, a);
    var one := Exec([], 1, asked + [Publish(a)]).value;
    assert one.events == [] + [a] == [a];
    ExecSnoc([], 1, asked + [Publish(a)], Publish(b));
    PublishAppends(one, 1, b);
    assert [a] + [b] == [a, b];
  }

  lemma TwoMessages(a: Row<Event>, b: Row<Event>)
    requires InConversation(a.item) && InConversation(b.item)
    ensures Conversation([a, b]) == [a, b]
  {
    OneMessage(a);
    assert [a, b][..1] == [a];
  }

  lemma AnswerIs(w: World, limit: nat)
    requires limit >= 1 && Possible(w, Answer)
    ensures
      var w' := Apply(w, limit, Answer);
      && w'.fetch.Answered? && w'.fetch.initial == w.fetch.initial && w'.fetch.size == |Table(w)|
      && w'.events == w.events && w'.received == w.received && w'.view == w.view
      && w'.start == w.start && w'.seeded == w.seeded
  {
  }

  lemma ShortRun(a: Row<Event>, b: Row<Event>)
    requires a.key < b.key && InConversation(a.item) && InConversation(b.item)
    ensures
      var w := Exec([], 1, ShortLoading(a, b));
      w.Some? && w.value.events == [a, b] && w.value.received == 0 && w.value.view.messages == []
      && w.value.fetch.Answered? && w.value.fetch.initial && w.value.fetch.size == 2
  {
    var published := [] + [Ask(true)] + [Publish(a)] + [Publish(b)];
    PublishedRun(a, b);
    TwoMessages(a, b);
    AnswerIs(Exec([], 1, published).value, 1);
    ExecSnoc([], 1, published, Answer);
  }

  /** A run in which the page does not reach back, and the list goes out of order. */
  lemma ShortPageBreaksTheOrder(a: Row<Event>, b: Row<Event>)
    requires a.key < b.key && InConversation(a.item) && InConversation(b.item)
    ensures Exec([], 1, ShortLoading(a, b)).Some?
    ensures
      var w := Exec([], 1, ShortLoading(a, b)).value;
      Possible(w, Arrive) && Possible(Apply(w, 1, Arrive), Deliver) &&
      !Ascending(Apply(Apply(w, 1, Arrive), 1, Deliver).view.messages)
  {
    ShortRun(a, b);
    TwoMessages(a, b);
    EveryRunKeeps([], 1, ShortLoading(a, b));
    ShortPageBreaksTheOrderIff(Exec([], 1, ShortLoading(a, b)).value, 1);
  }

  // ---- Deltas that come before the initial page ----

  lemma InitialPage(w: World, limit: nat)
    requires limit >= 1 && Inv(w, limit) && w.fetch.Answered? && w.fetch.initial
    ensures LowerBy(w.fetch.size, limit) <= w.fetch.size <= |Table(w)|
    ensures w.start <= w.fetch.size && w.start <= w.received <= |Table(w)|
    ensures w.view.messages == Table(w)[w.start..w.received]
    ensures w.fetch.page.items == Reversed(Table(w)[LowerBy(w.fetch.size, limit)..w.fetch.size])
  {
    assert ShowsBelow(w.fetch.page, Table(w), w.fetch.size, limit);
  }

  /** An initial page leaves what it shows beyond the deltas received so far. */
  lemma InitialList(w: World, limit: nat)
    requires limit >= 1 && Inv(w, limit) && w.fetch.Answered? && w.fetch.initial
    ensures LowerBy(w.fetch.size, limit) <= w.fetch.size <= |Table(w)|
    ensures w.start <= w.received <= |Table(w)|
    ensures
      Apply(w, limit, Arrive).view.messages ==
        Unseen(Table(w)[LowerBy(w.fetch.size, limit)..w.fetch.size], Table(w)[w.start..w.received])
  {
    InitialPage(w, limit);
    var page := Table(w)[LowerBy(w.fetch.size, limit)..w.fetch.size];
    ReversedTwice(page);
    assert Apply(w, limit, Arrive).view.messages == Unseen(Reversed(w.fetch.page.items), w.view.messages);
  }

  lemma NoneShownIff(t: seq<Message>, from: nat, size: nat, start: nat, received: nat)
    requires Ascending(t) && from <= size <= |t| && start <= received <= |t| && start <= size
    ensures Unseen(t[from..size], t[start..received]) == t[from..size]
            <==> start == received || received <= from || start == size || from == size
  {
    var page, shown := t[from..size], t[start..received];
    UnseenIsAllIff(page, shown);
    forall i | 0 <= i < |page| ensures HasKey(shown, page[i].key) <==> start <= from + i < received {
      KnownKey(t, start, received, from + i);
    }
    var k := if start < from then from else start;
    assert k < size && k < received ==> HasKey(shown, page[k - from].key);
  }

  /**
   * The first connection has the fault of a reconnection: a delta that comes before the
   * initial page is taken off the list by it.  The list is the page, and so a block of
   * the conversation, exactly if no such delta came or the page shows none of them.
   */
  lemma EarlyDeltasAreDroppedIff(w: World, limit: nat)
    requires limit >= 1 && Inv(w, limit) && w.fetch.Answered? && w.fetch.initial
    ensures
      var t, w' := Table(w), Apply(w, limit, Arrive);
      && w'.lo <= w'.hi <= |t| && w.start <= w.received <= |t|
      && (forall k :: w.start <= k < w.received ==> !HasKey(w'.view.messages, t[k].key))
      && (w'.view.messages == t[w'.lo..w'.hi]
          <==> w.start == w.received || w.received <= w'.lo || w.start == w'.hi)
  {
    var t, w' := Table(w), Apply(w, limit, Arrive);
    InitialPage(w, limit);
    InitialList(w, limit);
    TableAscends(w);
    NoneShownIff(t, w'.lo, w'.hi, w.start, w.received);
    forall k | w.start <= k < w.received ensures !HasKey(w'.view.messages, t[k].key) {
      UnseenKeys(t[w'.lo..w'.hi], t[w.start..w.received]);
      KnownKey(t, w.start, w.received, k);
    }
  }

  /** A message is published and delivered while the initial page that has it is on its way. */
  function EarlyDelta(a: Row<Event>): seq<Action> { [] + [Ask(true)] + [Publish(a)] + [Answer] + [Deliver] }

  lemma EarlyDeltaRun(a: Row<Event>, limit: nat)
    requires limit >= 1 && InConversation(a.item)
    ensures
      var w := Exec([], limit, EarlyDelta(a));
      w.Some? && Table(w.value) == [a] && w.value.start == 0 && w.value.received == 1
      && w.value.view.messages == [a] && w.value.fetch.Answered? && w.value.fetch.initial && w.value.fetch.size == 1
  {
    var answered := [] + [Ask(true)] + [Publish(a)] + [Answer];
    OneMessage(a);
    AnsweredEarly(a, limit);
    FirstDelivered(Exec([], limit, answered).value, limit, a);
    ExecSnoc([], limit, answered, Deliver);
  }

  lemma AnsweredEarly(a: Row<Event>, limit: nat)
    requires limit >= 1 && InConversation(a.item)
    ensures
      var w := Exec([], limit, [] + [Ask(true)] + [Publish(a)] + [Answer]);
      w.Some? && w.value.events == [a] && w.value.start == 0 && w.value.received == 0
      && w.value.view.messages == [] && w.value.fetch.Answered? && w.value.fetch.initial && w.value.fetch.size == 1
  {
    var asked := [] + [Ask(true)];
    OneMessage(a);
    ExecSnoc([], limit, [], Ask(true));
    ExecSnoc([], limit, asked, Publish(a));
    PublishAppends(Exec([], limit, asked).value, limit, a);
    assert [] + [a] == [a];
    AnswerIs(Exec([], limit, asked + [Publish(a)]).value, limit);
    ExecSnoc([], limit, asked + [Publish(a)], Answer);
  }

  lemma FirstDelivered(w: World, limit: nat, a: Row<Event>)
    requires limit >= 1 && Table(w) == [a] && w.received == 0 && w.view.messages == []
    ensures
      var w' := Apply(w, limit, Deliver);
      && w'.events == w.events && w'.start == w.start && w'.received == 1 && w'.view.messages == [a]
      && w'.fetch == w.fetch
  {
    assert AppendMessage([], a) == [] + [a] == [a];
  }

  /** A run after which the first page empties the list: the only message had come as a delta before. */
  lemma FirstPageLosesADelta(a: Row<Event>, limit: nat)
    requires limit >= 1 && InConversation(a.item)
    ensures
      var w := Exec([], limit, EarlyDelta(a));
      w.Some? && w.value.view.messages == [a] && Possible(w.value, Arrive)
      && Apply(w.value, limit, Arrive).view.messages == []
  {
    EarlyDeltaRun(a, limit);
    EveryRunKeeps([], limit, EarlyDelta(a));
    InitialList(Exec([], limit, EarlyDelta(a)).value, limit);
    SeenBlock([a], 0, 0, 1);
  }
}
