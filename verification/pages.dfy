/** Cursor pagination over a table that only grows at its newest end. */
module Pages {
  import opened Common
  import opened Division

  /** A table row under its integer key: events.seq, or a task row's rowid. */
  datatype Row<T> = Row(key: nat, item: T)

  datatype Page<T> = Page(items: seq<Row<T>>, nextCursor: Option<nat>)

  predicate Ascending<T>(rows: seq<Row<T>>) {
    forall i, j :: 0 <= i < j < |rows| ==> rows[i].key < rows[j].key
  }

  function Reversed<T>(s: seq<T>): (r: seq<T>)
    ensures |r| == |s| && forall i :: 0 <= i < |s| ==> r[i] == s[|s| - 1 - i]
  {
    seq(|s|, i requires 0 <= i < |s| => s[|s| - 1 - i])
  }

  /** The rows a cursor leaves visible. */
  function Below<T>(rows: seq<Row<T>>, before: Option<nat>): seq<Row<T>> {
    if before == None then rows
    else if rows == [] then []
    else
      var last := rows[|rows| - 1];
      Below(rows[..|rows| - 1], before) + if last.key < before.value then [last] else []
  }

  /** Newest first, at most `limit`; the cursor of the next page is the key of a full page's last row. */
  function PageOf<T>(rows: seq<Row<T>>, before: Option<nat>, limit: nat): Page<T>
    requires limit >= 1
  {
    var newest := Reversed(Below(rows, before));
    var items := if |newest| <= limit then newest else newest[..limit];
    Page(items, if |items| < limit then None else Some(items[|items| - 1].key))
  }

  // ---- The two tables ----

  datatype Event = Event(source: string, target: string, kind: string, content: string)

  predicate InConversation(e: Event) {
    e.kind == "message" && (e.source == "principal" || e.target == "principal")
  }

  function Conversation(events: seq<Row<Event>>): seq<Row<Event>> {
    if events == [] then []
    else
      var last := events[|events| - 1];
      Conversation(events[..|events| - 1]) + if InConversation(last.item) then [last] else []
  }

  /** A page of conversation messages out of the event log. */
  function PageMessages(events: seq<Row<Event>>, before: Option<nat>, limit: nat): Page<Event>
    requires limit >= 1
  {
    PageOf(Conversation(events), before, limit)
  }

  lemma {:induction false} ConversationAscends(events: seq<Row<Event>>)
    requires Ascending(events)
    ensures Ascending(Conversation(events))
    ensures forall r :: r in Conversation(events) <==> r in events && InConversation(r.item)
  {
    if events != [] {
      var n := |events| - 1;
      assert events == events[..n] + [events[n]];
      ConversationAscends(events[..n]);
      forall r | r in Conversation(events[..n]) ensures r.key < events[n].key {
        assert r in events[..n];
      }
    }
  }

  lemma {:induction false} ConversationGrows(events: seq<Row<Event>>, later: seq<Row<Event>>)
    requires events <= later
    ensures Conversation(events) <= Conversation(later)
  {
    if |later| == |events| {
      assert later == events;
    } else {
      ConversationGrows(events, later[..|later| - 1]);
    }
  }

  // ---- One page ----

  /** Below the key of row `j` are the first `j` rows, however the table has grown since. */
  lemma {:induction false} BelowIsPrefix<T>(rows: seq<Row<T>>, before: nat, j: nat)
    requires Ascending(rows) && j <= |rows|
    requires forall i :: 0 <= i < |rows| ==> (rows[i].key < before <==> i < j)
    ensures Below(rows, Some(before)) == rows[..j]
  {
    if rows != [] {
      var n := |rows| - 1;
      if j == |rows| {
        BelowIsPrefix(rows[..n], before, n);
        assert rows[..n][..n] + [rows[n]] == rows[..j];
      } else {
        BelowIsPrefix(rows[..n], before, j);
        assert rows[..n][..j] + [] == rows[..j];
      }
    }
  }

  /** Where a page below row `j` begins. */
  function LowerBy(j: nat, limit: nat): nat { if j < limit then 0 else j - limit }

  /** What a page shows when the cursor stands at row `j`: the rows just below it. */
  ghost predicate ShowsBelow<T>(page: Page<T>, rows: seq<Row<T>>, j: nat, limit: nat)
    requires j <= |rows| && limit >= 1
  {
    var from := LowerBy(j, limit);
    && page.items == Reversed(rows[from..j])
    && page.nextCursor == if j < limit then None else Some(rows[from].key)
  }

  lemma PageShowsPrefix<T>(rows: seq<Row<T>>, before: Option<nat>, limit: nat, j: nat)
    requires limit >= 1 && j <= |rows| && Below(rows, before) == rows[..j]
    ensures ShowsBelow(PageOf(rows, before, limit), rows, j, limit)
  {
    var newest := Reversed(rows[..j]);
    if j > limit {
      assert newest[..limit] == Reversed(rows[j - limit..j]);
    } else {
      assert rows[0..j] == rows[..j];
    }
  }

  /** A page fetched with row `j` as cursor, from any later state of the table. */
  lemma PageFromCursor<T>(rows: seq<Row<T>>, later: seq<Row<T>>, j: nat, limit: nat)
    requires limit >= 1 && rows <= later && Ascending(later) && j < |rows|
    ensures ShowsBelow(PageOf(later, Some(rows[j].key), limit), rows, j, limit)
  {
    BelowIsPrefix(later, rows[j].key, j);
    PageShowsPrefix(later, Some(rows[j].key), limit, j);
    assert forall from, to :: 0 <= from <= to <= |rows| ==> later[from..to] == rows[from..to];
  }

  lemma FirstPage<T>(rows: seq<Row<T>>, limit: nat)
    requires limit >= 1
    ensures ShowsBelow(PageOf(rows, None, limit), rows, |rows|, limit)
  {
    assert rows[..|rows|] == rows;
    PageShowsPrefix(rows, None, limit, |rows|);
  }

  // ---- A walk over a growing table ----

  /** Page `i` is fetched from `tables[i]` with the cursor of the page before, until a page has none. */
  ghost predicate IsWalk<T>(tables: seq<seq<Row<T>>>, pages: seq<Page<T>>, from: Option<nat>, limit: nat)
    requires limit >= 1
  {
    && |pages| == |tables| >= 1
    && pages[0] == PageOf(tables[0], from, limit)
    && (|pages| == 1 ==> pages[0].nextCursor == None)
    && (|pages| > 1 ==> pages[0].nextCursor != None && IsWalk(tables[1..], pages[1..], pages[0].nextCursor, limit))
  }

  function AllItems<T>(pages: seq<Page<T>>): seq<Row<T>> {
    if pages == [] then [] else pages[0].items + AllItems(pages[1..])
  }

  /** Later tables extend the first one at its end. */
  ghost predicate Growing<T>(first: seq<Row<T>>, tables: seq<seq<Row<T>>>) {
    forall i :: 0 <= i < |tables| ==> first <= tables[i] && Ascending(tables[i])
  }

  lemma ReversedSplit<T>(rows: seq<T>, k: nat)
    requires k <= |rows|
    ensures Reversed(rows) == Reversed(rows[k..]) + Reversed(rows[..k])
  {
  }

  lemma WalkEnds<T>(rows: seq<Row<T>>, pages: seq<Page<T>>, j: nat, limit: nat)
    requires limit >= 1 && j <= |rows| && j < limit && |pages| == 1 && ShowsBelow(pages[0], rows, j, limit)
    ensures AllItems(pages) == Reversed(rows[..j])
  {
    assert rows[0..j] == rows[..j];
    assert AllItems(pages[1..]) == [];
  }

  lemma WalkGoesOn<T>(rows: seq<Row<T>>, pages: seq<Page<T>>, j: nat, limit: nat)
    requires limit >= 1 && limit <= j <= |rows| && pages != [] && ShowsBelow(pages[0], rows, j, limit)
    requires AllItems(pages[1..]) == Reversed(rows[..j - limit])
    ensures AllItems(pages) == Reversed(rows[..j])
  {
    ReversedBlock(rows, j - limit, j);
  }

  /** The rest of a walk whose next page shows what is below row `j`. */
  lemma {:induction false} WalkBelow<T>(rows: seq<Row<T>>, tables: seq<seq<Row<T>>>, pages: seq<Page<T>>,
                                        from: Option<nat>, j: nat, limit: nat)
    requires limit >= 1 && j <= |rows| && Growing(rows, tables) && IsWalk(tables, pages, from, limit)
    requires ShowsBelow(pages[0], rows, j, limit)
    ensures AllItems(pages) == Reversed(rows[..j])
    ensures |pages| == Fetches(j, limit)
    decreases j
  {
    if j < limit {
      WalkEnds(rows, pages, j, limit);
    } else {
      var k := j - limit;
      var laterTables, laterPages := tables[1..], pages[1..];
      assert laterPages[0] == PageOf(tables[1], pages[0].nextCursor, limit);
      PageFromCursor(rows, tables[1], k, limit);
      WalkBelow(rows, laterTables, laterPages, pages[0].nextCursor, k, limit);
      WalkGoesOn(rows, pages, j, limit);
    }
  }

  lemma ReversedBlock<T>(rows: seq<T>, k: nat, j: nat)
    requires k <= j <= |rows|
    ensures Reversed(rows[..j]) == Reversed(rows[k..j]) + Reversed(rows[..k])
  {
    assert rows[..j][k..] == rows[k..j] && rows[..j][..k] == rows[..k];
    ReversedSplit(rows[..j], k);
  }

  /** How many fetches it takes to page through `j` rows. */
  function Fetches(j: nat, limit: nat): nat
    requires limit >= 1
    decreases j
  {
    if j < limit then 1 else 1 + Fetches(j - limit, limit)
  }

  lemma {:induction false} FetchesIs(j: nat, limit: nat)
    requires limit >= 1
    ensures Fetches(j, limit) == j / limit + 1
    decreases j
  {
    if j < limit {
      DivModIs(j, limit, 0, j);
    } else {
      FetchesIs(j - limit, limit);
      var q := (j - limit) / limit;
      Distribute(q, limit);
      DivModIs(j, limit, q + 1, (j - limit) % limit);
    }
  }

  /**
   * A walk from no cursor to no cursor returns exactly the rows that were there at
   * the first fetch, each once and newest first, whatever is inserted meanwhile;
   * and it ends after a number of fetches fixed by that first table.
   */
  lemma WalkReturnsTheTable<T>(tables: seq<seq<Row<T>>>, pages: seq<Page<T>>, limit: nat)
    requires limit >= 1 && IsWalk(tables, pages, None, limit) && Growing(tables[0], tables)
    ensures AllItems(pages) == Reversed(tables[0])
    ensures |pages| == |tables[0]| / limit + 1
  {
    FirstPage(tables[0], limit);
    WalkBelow(tables[0], tables, pages, None, |tables[0]|, limit);
    assert tables[0][..|tables[0]|] == tables[0];
    FetchesIs(|tables[0]|, limit);
  }

  function Conversations(logs: seq<seq<Row<Event>>>): seq<seq<Row<Event>>> {
    seq(|logs|, i requires 0 <= i < |logs| => Conversation(logs[i]))
  }

  /** The same for the message history, over an event log that grows between fetches. */
  lemma MessageWalk(logs: seq<seq<Row<Event>>>, pages: seq<Page<Event>>, limit: nat)
    requires limit >= 1 && logs != [] && Growing(logs[0], logs)
    requires IsWalk(Conversations(logs), pages, None, limit)
    ensures AllItems(pages) == Reversed(Conversation(logs[0]))
    ensures forall r :: r in AllItems(pages) <==>
              && r in logs[0] && r.item.kind == "message"
              && (r.item.source == "principal" || r.item.target == "principal")
  {
    var tables := Conversations(logs);
    forall i | 0 <= i < |logs| ensures tables[0] <= tables[i] && Ascending(tables[i]) {
      ConversationGrows(logs[0], logs[i]);
      ConversationAscends(logs[i]);
    }
    WalkReturnsTheTable(Conversations(logs), pages, limit);
    ConversationAscends(logs[0]);
    ReversedMembers(Conversation(logs[0]));
  }

  lemma ReversedMembers<T>(s: seq<T>)
    ensures forall x :: x in Reversed(s) <==> x in s
  {
    forall x | x in s ensures x in Reversed(s) {
      var i :| 0 <= i < |s| && s[i] == x;
      assert Reversed(s)[|s| - 1 - i] == x;
    }
  }
}
