/**
 * What the event bus guarantees over every run, crashes included.
 *
 * A run is a list of atomic actions.  publish is three actions, so that a crash
 * can fall between the log append and the inbox row; everything else in the
 * source runs to completion without yielding and is one action.
 */
module DeliveryRuns {
  import opened Common
  import opened Delivery

  datatype Phase = Down | Booting | Running

  /** How far a publish has got. */
  datatype Publication = Idle | Logged(event: Event) | Queued(slot: Slot)

  /**
   * The process and its database.  The history fields are `earlier` (hand-outs by
   * mailboxes that no longer exist), `crashes`, `departures` (unsubscriptions, by
   * target) and `returned` (the ids publish has returned, over all incarnations).
   */
  datatype World = World(
    bus: Bus,
    phase: Phase,
    publication: Publication,
    earlier: map<Target, seq<Slot>>,
    crashes: nat,
    departures: multiset<Target>,
    returned: seq<nat>)

  datatype Action =
    | Boot
    | Subscribe(target: Target)
    | Unsubscribe(target: Target)
    | RecoverPending
    | Append(draft: Draft)
    | Enqueue
    | Push
    | TakeNext(target: Target)
    | Crash

  const FRESH := World(Bus([], [], 0, map[]), Down, Idle, map[], 0, multiset{}, [])

  // ---- Reading a world ----

  function Earlier(w: World, t: Target): seq<Slot> {
    if t in w.earlier then w.earlier[t] else []
  }

  /** Everything ever handed to the consumers of `t`, in order, repeats included. */
  function HandedTo(w: World, t: Target): seq<Slot> {
    Earlier(w, t) + if t in w.bus.boxes then w.bus.boxes[t].handed else []
  }

  /** The inbox rows of one target, in id order. */
  function RowsFor(rows: seq<Row>, t: Target): seq<Row> {
    if rows == [] then []
    else RowsFor(rows[..|rows| - 1], t) + if rows[|rows| - 1].target == t then [rows[|rows| - 1]] else []
  }

  function Slots(rows: seq<Row>): seq<Slot> {
    seq(|rows|, i requires 0 <= i < |rows| => SlotOf(rows[i]))
  }

  function AckedCount(rows: seq<Row>): nat {
    if rows == [] then 0
    else AckedCount(rows[..|rows| - 1]) + if rows[|rows| - 1].status == Consumed then 1 else 0
  }

  /** A sequence with every repeat of an earlier element dropped. */
  function Distinct<T(==)>(s: seq<T>): seq<T> {
    if s == [] then []
    else
      var d := Distinct(s[..|s| - 1]);
      if s[|s| - 1] in d then d else d + [s[|s| - 1]]
  }

  /** What a mailbox still owes an acknowledgement or a delivery for. */
  function Held(b: Box): seq<Slot> {
    (if b.inFlight.Some? then [b.inFlight.value] else []) + b.queue
  }

  /** A row already in the inbox whose push is still to come. */
  function Coming(w: World, t: Target): seq<Slot> {
    if w.publication.Queued? && w.publication.slot.event.target == t then [w.publication.slot] else []
  }

  // ---- Steps ----

  /** The steps the code can take. */
  predicate Possible(w: World, a: Action) {
    match a
    case Boot => w.phase == Down
    case Subscribe(_) => w.phase != Down && w.publication == Idle
    case Unsubscribe(_) => w.phase != Down && w.publication == Idle
    case RecoverPending => w.phase != Down && w.publication == Idle
    case Append(_) => w.phase != Down && w.publication == Idle
    case Enqueue => w.publication.Logged?
    case Push => w.publication.Queued? && w.publication.slot.event.target in w.bus.boxes
    case TakeNext(t) => w.phase != Down && w.publication == Idle && t in w.bus.boxes
    case Crash => w.phase != Down
  }

  /**
   * The startup discipline of the main program: recover once, before any
   * publish; register a target once, and after the recovery only when nothing is
   * pending for it.
   */
  predicate Disciplined(w: World, a: Action) {
    match a
    case Subscribe(t) => t !in w.bus.boxes && (w.phase == Booting || PendingRows(RowsFor(w.bus.inbox, t)) == [])
    case RecoverPending => w.phase == Booting
    case Append(_) => w.phase == Running
    case _ => true
  }

  function Apply(w: World, a: Action): World
    requires Possible(w, a)
  {
    match a
    case Boot =>
      w.(bus := Bus(w.bus.log, w.bus.inbox, MaxSeq(w.bus.log), map[]), phase := Booting)
    case Subscribe(t) =>
      w.(bus := w.bus.(boxes := w.bus.boxes[t := EMPTY_BOX]), earlier := w.earlier[t := HandedTo(w, t)])
    case Unsubscribe(t) =>
      w.(bus := w.bus.(boxes := w.bus.boxes - {t}),
         earlier := w.earlier[t := HandedTo(w, t)],
         departures := w.departures[t := w.departures[t] + 1])
    case RecoverPending =>
      w.(bus := Recover(w.bus), phase := Running)
    case Append(d) =>
      if Refused(w.bus, d) then w.(bus := w.bus.(counter := w.bus.counter + 1))
      else w.(bus := LogStep(w.bus, d), publication := Logged(Stamp(w.bus, d)))
    case Enqueue =>
      var e := w.publication.event;
      if e.target in w.bus.boxes then
        w.(bus := EnqueueStep(w.bus, e), publication := Queued(Slot(e, Some(NextId(w.bus.inbox)))))
      else
        w.(publication := Idle, returned := w.returned + [e.num])
    case Push =>
      var slot := w.publication.slot;
      w.(bus := PushStep(w.bus, slot), publication := Idle, returned := w.returned + [slot.event.num])
    case TakeNext(t) =>
      w.(bus := TakeFrom(w.bus, t).0)
    case Crash =>
      World(Bus(w.bus.log, w.bus.inbox, 0, map[]), Down, Idle,
            map t | t in w.earlier.Keys + w.bus.boxes.Keys :: HandedTo(w, t),
            w.crashes + 1, w.departures, w.returned)
  }

  /** The world after further actions, if every one of them could be taken. */
  function After(w: World, more: seq<Action>): Option<World> {
    if more == [] then Some(w)
    else
      var before := After(w, more[..|more| - 1]);
      var a := more[|more| - 1];
      if before.Some? && Possible(before.value, a) && Disciplined(before.value, a)
      then Some(Apply(before.value, a))
      else None
  }

  /** The world after a run from an empty database. */
  function Exec(run: seq<Action>): Option<World> { After(FRESH, run) }

  /** An uninterrupted publish is its three actions. */
  lemma PublishIsItsThreeActions(w: World, d: Draft)
    requires Possible(w, Append(d)) && !Refused(w.bus, d)
    ensures
      var logged := Apply(w, Append(d));
      Possible(logged, Enqueue) &&
      var queued := Apply(logged, Enqueue);
      var done := if queued.publication.Queued? then Apply(queued, Push) else queued;
      && done == w.(bus := Publish(w.bus, d).0, returned := w.returned + [Publish(w.bus, d).1.value])
      && Publish(w.bus, d).1.Some?
  {
  }

  // ---- The invariant ----

  predicate Numbered(bus: Bus) {
    && (forall i :: 0 <= i < |bus.log| ==> bus.log[i].num == i + 1)
    && (forall i :: 0 <= i < |bus.inbox| ==> bus.inbox[i].id == i + 1)
    && (forall i :: 0 <= i < |bus.inbox| ==>
          bus.inbox[i].event in bus.log && bus.inbox[i].target == bus.inbox[i].event.target)
  }

  /** The ids returned so far rise strictly and stay below an unfinished publish. */
  predicate ReturnedOk(w: World) {
    && (forall i, j :: 0 <= i < j < |w.returned| ==> w.returned[i] < w.returned[j])
    && (forall i :: 0 <= i < |w.returned| ==>
          1 <= w.returned[i] <= if w.publication == Idle then |w.bus.log| else |w.bus.log| - 1)
  }

  predicate PublicationOk(w: World) {
    match w.publication
    case Idle => true
    case Logged(e) =>
      w.phase == Running && w.bus.log != [] && e == w.bus.log[|w.bus.log| - 1]
    case Queued(slot) =>
      && w.phase == Running && w.bus.log != [] && slot.event == w.bus.log[|w.bus.log| - 1]
      && w.bus.inbox != [] && slot == SlotOf(w.bus.inbox[|w.bus.inbox| - 1])
      && slot.event.target in w.bus.boxes
  }

  /** The first `c` rows are consumed and no others. */
  predicate ConsumedPrefix(rows: seq<Row>, c: nat) {
    c <= |rows| && forall i :: 0 <= i < |rows| ==> (rows[i].status == Consumed <==> i < c)
  }

  /**
   * What has been handed out, repeats dropped, is the consumed rows and at most
   * one more.
   */
  predicate HistoryOk(handed: seq<Slot>, all: seq<Slot>, c: nat) {
    var m := |Distinct(handed)|;
    c <= m <= c + 1 && m <= |all| && Distinct(handed) == all[..m]
  }

  /**
   * One target's account: its rows as slots, how many of them are consumed, its
   * hand-outs, its mailbox if it has one, a slot still to be pushed, and how
   * many interruptions it has suffered.
   */
  datatype Account = Account(all: seq<Slot>, acked: nat, handed: seq<Slot>, box: Option<Box>,
                             coming: seq<Slot>, interruptions: nat, phase: Phase)

  predicate Holding(a: Account) {
    a.box.Some? && a.box.value.inFlight.Some?
  }

  /** The heart of the protocol. */
  predicate AccountOk(a: Account) {
    && HistoryOk(a.handed, a.all, a.acked)
    && |a.handed| <= a.acked + a.interruptions + (if Holding(a) then 1 else 0)
    && (Holding(a) ==> |Distinct(a.handed)| == a.acked + 1)
    && (a.box.Some? ==> BoxOk(a.box.value))
    && (a.box.Some? && a.phase == Booting ==> a.box.value.queue == [] && a.box.value.inFlight == None)
    && (a.box.Some? && a.phase == Running ==> Held(a.box.value) + a.coming == a.all[a.acked..])
  }

  function AccountOf(w: World, t: Target): Account {
    var rows := RowsFor(w.bus.inbox, t);
    Account(Slots(rows), AckedCount(rows), HandedTo(w, t),
            if t in w.bus.boxes then Some(w.bus.boxes[t]) else None,
            Coming(w, t), w.crashes + w.departures[t], w.phase)
  }

  predicate TargetOk(w: World, t: Target) {
    var rows := RowsFor(w.bus.inbox, t);
    ConsumedPrefix(rows, AckedCount(rows)) && AccountOk(AccountOf(w, t))
  }

  ghost predicate EveryTargetOk(w: World) {
    forall t :: TargetOk(w, t)
  }

  ghost predicate Inv(w: World) {
    && Numbered(w.bus)
    && (w.phase != Down ==> w.bus.counter == |w.bus.log|)
    && (w.phase == Down ==> w.bus.boxes == map[])
    && PublicationOk(w)
    && ReturnedOk(w)
    && EveryTargetOk(w)
  }

  // ---- Rows of one target ----

  lemma {:induction false} ConsumedPrefixCount(rows: seq<Row>, c: nat)
    requires ConsumedPrefix(rows, c)
    ensures AckedCount(rows) == c
    ensures PendingRows(rows) == rows[c..]
  {
    if rows != [] {
      var n := |rows| - 1;
      if rows[n].status == Consumed {
        ConsumedPrefixCount(rows[..n], n);
        assert rows[..n][n..] == rows[c..];
      } else {
        ConsumedPrefixCount(rows[..n], c);
        assert rows[c..] == rows[..n][c..] + [rows[n]];
      }
    }
  }

  lemma {:induction false} RowsForMembers(rows: seq<Row>, t: Target)
    ensures forall r :: r in RowsFor(rows, t) <==> r in rows && r.target == t
  {
    if rows != [] {
      assert rows == rows[..|rows| - 1] + [rows[|rows| - 1]];
      RowsForMembers(rows[..|rows| - 1], t);
    }
  }

  lemma {:induction false} RowsForOrdered(rows: seq<Row>, t: Target)
    requires forall i, j :: 0 <= i < j < |rows| ==> rows[i].id < rows[j].id
    ensures forall i, j :: 0 <= i < j < |RowsFor(rows, t)| ==> RowsFor(rows, t)[i].id < RowsFor(rows, t)[j].id
  {
    if rows != [] {
      RowsForOrdered(rows[..|rows| - 1], t);
      RowsForMembers(rows[..|rows| - 1], t);
    }
  }

  lemma RegroupRows(x: seq<Row>, y: seq<Row>, z: seq<Row>)
    ensures x + (y + z) == (x + y) + z
  {
  }

  lemma {:induction false} RowsForConcat(a: seq<Row>, b: seq<Row>, t: Target)
    ensures RowsFor(a + b, t) == RowsFor(a, t) + RowsFor(b, t)
  {
    if b == [] {
      assert a + b == a;
    } else {
      var last := b[|b| - 1];
      RowsForConcat(a, b[..|b| - 1], t);
      assert (a + b)[..|a + b| - 1] == a + b[..|b| - 1] && (a + b)[|a + b| - 1] == last;
      RegroupRows(RowsFor(a, t), RowsFor(b[..|b| - 1], t), if last.target == t then [last] else []);
    }
  }

  lemma {:induction false} RowsForConsume(rows: seq<Row>, id: nat, t: Target)
    ensures RowsFor(Consume(rows, id), t) == Consume(RowsFor(rows, t), id)
  {
    if rows != [] {
      var n := |rows| - 1;
      RowsForConsume(rows[..n], id, t);
      assert Consume(rows, id)[..n] == Consume(rows[..n], id);
    }
  }

  lemma {:induction false} RowsForPending(rows: seq<Row>, t: Target)
    ensures RowsFor(PendingRows(rows), t) == PendingRows(RowsFor(rows, t))
  {
    if rows != [] {
      var n := |rows| - 1;
      RowsForPending(rows[..n], t);
      RowsForConcat(PendingRows(rows[..n]), if rows[n].status == Pending then [rows[n]] else [], t);
      var mine := RowsFor(rows[..n], t);
      assert rows[n].target == t ==> (mine + [rows[n]])[..|mine|] == mine;
      assert rows[n].target != t ==> mine + [] == mine;
    }
  }

  // ---- Replay, one target at a time ----

  function OfferAll(b: Box, slots: seq<Slot>): Box
    decreases |slots|
  {
    if slots == [] then b else OfferAll(Offer(b, slots[0]), slots[1..])
  }

  lemma {:induction false} ReplayAt(rows: seq<Row>, boxes: map<Target, Box>, t: Target)
    ensures Replay(rows, boxes).Keys == boxes.Keys
    ensures t in boxes ==> Replay(rows, boxes)[t] == OfferAll(boxes[t], Slots(RowsFor(rows, t)))
  {
    if rows != [] {
      var r := rows[0];
      assert rows == [r] + rows[1..];
      RowsForConcat([r], rows[1..], t);
      var next := if r.target in boxes then boxes[r.target := Offer(boxes[r.target], SlotOf(r))] else boxes;
      ReplayAt(rows[1..], next, t);
      if t in boxes && r.target == t {
        assert Slots(RowsFor(rows, t)) == [SlotOf(r)] + Slots(RowsFor(rows[1..], t));
      } else {
        assert RowsFor([r], t) == [] || t !in boxes;
        assert RowsFor([r], t) == [] ==> RowsFor(rows, t) == RowsFor(rows[1..], t);
      }
    }
  }

  lemma {:induction false} OfferAllQueues(b: Box, slots: seq<Slot>)
    requires !b.waiting
    ensures OfferAll(b, slots) == b.(queue := b.queue + slots)
    decreases |slots|
  {
    if slots == [] {
      assert b.queue + slots == b.queue;
    } else {
      OfferAllQueues(Offer(b, slots[0]), slots[1..]);
      assert b.queue + [slots[0]] + slots[1..] == b.queue + slots;
    }
  }

  // ---- Hand-out histories ----

  lemma DistinctSnoc<T>(s: seq<T>, x: T)
    ensures Distinct(s + [x]) == if x in Distinct(s) then Distinct(s) else Distinct(s) + [x]
  {
    assert (s + [x])[..|s + [x]| - 1] == s;
  }

  /** Handing out the next row, or the same row again after an interruption. */
  lemma HandOneMore(handed: seq<Slot>, all: seq<Slot>, c: nat)
    requires c < |all| && NoRepeats(all) && HistoryOk(handed, all, c)
    ensures HistoryOk(handed + [all[c]], all, c)
    ensures |Distinct(handed + [all[c]])| == c + 1
  {
    DistinctSnoc(handed, all[c]);
    var d := Distinct(handed);
    if |d| == c + 1 {
      assert d[c] == all[c];
    } else {
      assert all[..c] + [all[c]] == all[..c + 1];
      assert forall i :: 0 <= i < |d| ==> d[i] == all[i];
    }
  }

  lemma SlotsDiffer(w: World, t: Target)
    requires Numbered(w.bus)
    ensures NoRepeats(Slots(RowsFor(w.bus.inbox, t)))
  {
    RowsForOrdered(w.bus.inbox, t);
  }

  // ---- Accounts ----

  lemma GrowAccount(a: Account, slot: Slot)
    requires AccountOk(a) && a.coming == []
    ensures AccountOk(a.(all := a.all + [slot], coming := [slot]))
  {
    var all := a.all + [slot];
    assert all[..|Distinct(a.handed)|] == a.all[..|Distinct(a.handed)|];
    assert all[a.acked..] == a.all[a.acked..] + [slot];
    assert a.box.Some? ==> Held(a.box.value) + [] == Held(a.box.value);
  }

  lemma PushAccount(a: Account, slot: Slot)
    requires AccountOk(a) && NoRepeats(a.all) && a.coming == [slot] && a.box.Some? && a.phase == Running
    ensures
      var b := Offer(a.box.value, slot);
      AccountOk(a.(box := Some(b), coming := [], handed := a.handed + if a.box.value.waiting then [slot] else []))
  {
    var b := a.box.value;
    if b.waiting {
      assert a.all[a.acked..] == [slot];
      assert a.all[a.acked] == slot;
      HandOneMore(a.handed, a.all, a.acked);
    } else {
      assert a.handed + [] == a.handed;
      assert Held(b) + [slot] + [] == Held(Offer(b, slot)) + [];
    }
  }

  /** A replay with nobody waiting only fills the queue. */
  lemma ReplayQueued(a: Account, b: Box)
    requires AccountOk(a) && a.coming == [] && a.box == Some(b) && a.phase == Booting && !b.waiting
    ensures
      var b' := OfferAll(b, a.all[a.acked..]);
      b'.handed == b.handed && AccountOk(a.(box := Some(b'), phase := Running))
  {
    var due := a.all[a.acked..];
    OfferAllQueues(b, due);
    assert [] + due == due && due + [] == due;
  }

  /** A replay to a waiting consumer hands it the first row and queues the rest. */
  lemma ReplayHanded(a: Account, b: Box)
    requires AccountOk(a) && NoRepeats(a.all) && a.coming == [] && a.box == Some(b) && a.phase == Booting
    requires b.waiting && a.acked < |a.all|
    ensures
      var b' := OfferAll(b, a.all[a.acked..]);
      && b'.handed == b.handed + [a.all[a.acked]]
      && AccountOk(a.(box := Some(b'), phase := Running, handed := a.handed + [a.all[a.acked]]))
  {
    var due := a.all[a.acked..];
    var b' := OfferAll(b, due);
    OfferAllQueues(Offer(b, due[0]), due[1..]);
    HandOneMore(a.handed, a.all, a.acked);
    assert [] + due[1..] == due[1..];
    assert Held(b') == [due[0]] + due[1..] == due;
    assert due + [] == due;
  }

  lemma ReplayAccount(a: Account, b: Box)
    requires AccountOk(a) && NoRepeats(a.all) && a.coming == [] && a.box == Some(b) && a.phase == Booting
    ensures
      var b' := OfferAll(b, a.all[a.acked..]);
      && b.handed <= b'.handed
      && AccountOk(a.(box := Some(b'), phase := Running, handed := a.handed + b'.handed[|b.handed|..]))
  {
    var due := a.all[a.acked..];
    var b' := OfferAll(b, due);
    if b.waiting && due != [] {
      ReplayHanded(a, b);
      assert b'.handed[|b.handed|..] == [due[0]];
    } else {
      if b.waiting {
        assert b' == b && Held(b) + [] == due;
      } else {
        ReplayQueued(a, b);
      }
      assert b'.handed[|b.handed|..] == [];
      assert a.handed + [] == a.handed;
    }
  }

  /** What a mailbox holds besides what is in hand is what is not acknowledged after the next return. */
  lemma QueueIsDue(a: Account, b: Box)
    requires AccountOk(a) && a.coming == [] && a.box == Some(b) && a.phase == Running
    ensures
      var c := if Holding(a) then a.acked + 1 else a.acked;
      c <= |a.all| && b.queue == a.all[c..]
  {
    assert Held(b) + [] == Held(b);
    assert Held(b) == a.all[a.acked..];
    if Holding(a) {
      assert Held(b)[1..] == b.queue;
      assert a.all[a.acked..][1..] == a.all[a.acked + 1..];
    } else {
      assert Held(b) == b.queue;
    }
  }

  /** The account after a return that finds the queue empty. */
  lemma TakeNothing(a: Account, b: Box)
    requires AccountOk(a) && a.coming == [] && a.box == Some(b) && a.phase != Down && b.queue == []
    ensures
      var b' := Take(b).0;
      AccountOk(a.(acked := if Holding(a) then a.acked + 1 else a.acked, box := Some(b')))
  {
    var b' := Take(b).0;
    assert Held(b') + [] == [];
    if a.phase == Running {
      QueueIsDue(a, b);
    }
  }

  /** The account after a return that finds the next row in the queue. */
  lemma TakeFirst(a: Account, b: Box)
    requires AccountOk(a) && NoRepeats(a.all) && a.coming == [] && a.box == Some(b) && a.phase == Running
    requires b.queue != []
    ensures
      AccountOk(a.(acked := if Holding(a) then a.acked + 1 else a.acked,
                   box := Some(Take(b).0), handed := a.handed + [b.queue[0]]))
  {
    var b' := Take(b).0;
    var c := if Holding(a) then a.acked + 1 else a.acked;
    QueueIsDue(a, b);
    assert b.queue[0] == a.all[c];
    HandOneMore(a.handed, a.all, c);
    assert Held(b') == [b.queue[0]] + b.queue[1..] == b.queue;
    assert Held(b') + [] == b.queue;
  }

  lemma TakeAccount(a: Account, b: Box)
    requires AccountOk(a) && NoRepeats(a.all) && a.coming == [] && a.box == Some(b) && a.phase != Down
    ensures
      var b' := Take(b).0;
      && b.handed <= b'.handed
      && AccountOk(a.(acked := if Holding(a) then a.acked + 1 else a.acked,
                      box := Some(b'), handed := a.handed + b'.handed[|b.handed|..]))
  {
    var b' := Take(b).0;
    if b.queue != [] {
      TakeFirst(a, b);
      assert b'.handed[|b.handed|..] == [b.queue[0]];
    } else {
      TakeNothing(a, b);
      assert b'.handed[|b.handed|..] == [];
      assert a.handed + [] == a.handed;
    }
  }

  // ---- Each action keeps the invariant ----

  /** A world in which a target's account has not changed for the worse. */
  lemma SameAccount(w: World, w': World, t: Target)
    requires TargetOk(w, t) && RowsFor(w'.bus.inbox, t) == RowsFor(w.bus.inbox, t)
    requires AccountOf(w', t) == AccountOf(w, t)
    ensures TargetOk(w', t)
  {
  }

  lemma NewAccount(w': World, t: Target, a: Account)
    requires ConsumedPrefix(RowsFor(w'.bus.inbox, t), AckedCount(RowsFor(w'.bus.inbox, t)))
    requires AccountOf(w', t) == a && AccountOk(a)
    ensures TargetOk(w', t)
  {
  }

  lemma BootKeeps(w: World)
    requires Inv(w) && w.phase == Down
    ensures Inv(Apply(w, Boot))
  {
    var w' := Apply(w, Boot);
    if w.bus.log != [] {
      assert w.bus.log[|w.bus.log| - 1].num == |w.bus.log|;
    }
    forall t ensures TargetOk(w', t) {
      assert TargetOk(w, t);
    }
  }

  lemma JoinAccount(a: Account)
    requires AccountOk(a) && a.box == None && a.coming == []
    requires a.phase == Booting || a.acked == |a.all|
    ensures AccountOk(a.(box := Some(EMPTY_BOX)))
  {
  }

  /** A box put in place of another, with the old one's history filed away. */
  lemma HandedUnchanged(w: World, w': World, u: Target)
    requires HandedTo(w, u) == (if u in w'.earlier then w'.earlier[u] else [])
    requires u in w'.bus.boxes ==> w'.bus.boxes[u].handed == []
    ensures HandedTo(w', u) == HandedTo(w, u)
  {
    assert HandedTo(w, u) + [] == HandedTo(w, u);
  }

  lemma SubscribedAccount(w: World, t: Target)
    requires Possible(w, Subscribe(t))
    ensures AccountOf(Apply(w, Subscribe(t)), t) == AccountOf(w, t).(box := Some(EMPTY_BOX))
  {
    HandedUnchanged(w, Apply(w, Subscribe(t)), t);
  }

  lemma SubscribeKeepsTarget(w: World, t: Target)
    requires TargetOk(w, t) && Possible(w, Subscribe(t)) && Disciplined(w, Subscribe(t))
    ensures TargetOk(Apply(w, Subscribe(t)), t)
  {
    var a := AccountOf(w, t);
    ConsumedPrefixCount(RowsFor(w.bus.inbox, t), a.acked);
    JoinAccount(a);
    SubscribedAccount(w, t);
  }

  lemma SubscribeKeeps(w: World, t: Target)
    requires Inv(w) && Possible(w, Subscribe(t)) && Disciplined(w, Subscribe(t))
    ensures Inv(Apply(w, Subscribe(t)))
  {
    forall u ensures TargetOk(Apply(w, Subscribe(t)), u) {
      assert TargetOk(w, u);
      if u == t {
        SubscribeKeepsTarget(w, t);
      } else {
        SameAccount(w, Apply(w, Subscribe(t)), u);
      }
    }
  }

  lemma InterruptAccount(a: Account, phase: Phase)
    requires AccountOk(a)
    ensures AccountOk(a.(box := None, coming := [], interruptions := a.interruptions + 1, phase := phase))
  {
  }

  lemma UnsubscribedAccount(w: World, t: Target)
    requires Possible(w, Unsubscribe(t))
    ensures
      var a := AccountOf(w, t);
      AccountOf(Apply(w, Unsubscribe(t)), t) == a.(box := None, coming := [], interruptions := a.interruptions + 1)
  {
    HandedUnchanged(w, Apply(w, Unsubscribe(t)), t);
  }

  lemma UnsubscribeKeepsTarget(w: World, t: Target)
    requires TargetOk(w, t) && Possible(w, Unsubscribe(t))
    ensures TargetOk(Apply(w, Unsubscribe(t)), t)
  {
    InterruptAccount(AccountOf(w, t), w.phase);
    UnsubscribedAccount(w, t);
  }

  lemma UnsubscribeKeeps(w: World, t: Target)
    requires Inv(w) && Possible(w, Unsubscribe(t))
    ensures Inv(Apply(w, Unsubscribe(t)))
  {
    forall u ensures TargetOk(Apply(w, Unsubscribe(t)), u) {
      assert TargetOk(w, u);
      if u == t {
        UnsubscribeKeepsTarget(w, t);
      } else {
        SameAccount(w, Apply(w, Unsubscribe(t)), u);
      }
    }
  }

  lemma CrashedAccount(w: World, u: Target)
    requires Possible(w, Crash)
    ensures
      var a := AccountOf(w, u);
      AccountOf(Apply(w, Crash), u) ==
        a.(box := None, coming := [], interruptions := a.interruptions + 1, phase := Down)
  {
    HandedUnchanged(w, Apply(w, Crash), u);
  }

  lemma CrashKeepsTarget(w: World, u: Target)
    requires TargetOk(w, u) && Possible(w, Crash)
    ensures TargetOk(Apply(w, Crash), u)
  {
    InterruptAccount(AccountOf(w, u), Down);
    CrashedAccount(w, u);
  }

  lemma CrashKeeps(w: World)
    requires Inv(w) && Possible(w, Crash)
    ensures Inv(Apply(w, Crash))
  {
    forall u ensures TargetOk(Apply(w, Crash), u) {
      assert TargetOk(w, u);
      CrashKeepsTarget(w, u);
    }
  }

  lemma AppendKeeps(w: World, d: Draft)
    requires Inv(w) && Possible(w, Append(d)) && Disciplined(w, Append(d))
    ensures !Refused(w.bus, d)
    ensures Inv(Apply(w, Append(d)))
  {
    var w' := Apply(w, Append(d));
    assert w'.bus.log == w.bus.log + [Stamp(w.bus, d)];
    forall u ensures TargetOk(w', u) {
      assert TargetOk(w, u);
      SameAccount(w, w', u);
    }
  }

  /** An enqueue changes nothing but the target's rows and what is coming to it. */
  lemma EnqueuedElsewhere(w: World, t: Target)
    requires TargetOk(w, t) && Possible(w, Enqueue)
    requires w.publication.event.target in w.bus.boxes ==> t != w.publication.event.target
    ensures TargetOk(Apply(w, Enqueue), t)
  {
    RowsElsewhere(w, t);
    AccountElsewhere(w, Apply(w, Enqueue), t);
    SameAccount(w, Apply(w, Enqueue), t);
  }

  lemma RowsElsewhere(w: World, t: Target)
    requires Possible(w, Enqueue)
    requires w.publication.event.target in w.bus.boxes ==> t != w.publication.event.target
    ensures RowsFor(Apply(w, Enqueue).bus.inbox, t) == RowsFor(w.bus.inbox, t)
  {
    if w.publication.event.target in w.bus.boxes {
      EnqueuedRow(w, t);
      assert RowsFor(w.bus.inbox, t) + [] == RowsFor(w.bus.inbox, t);
    }
  }

  lemma AccountElsewhere(w: World, w': World, t: Target)
    requires RowsFor(w'.bus.inbox, t) == RowsFor(w.bus.inbox, t)
    requires w'.bus.boxes == w.bus.boxes && w'.earlier == w.earlier && w'.phase == w.phase
    requires w'.crashes == w.crashes && w'.departures == w.departures
    requires Coming(w', t) == Coming(w, t)
    ensures AccountOf(w', t) == AccountOf(w, t)
  {
  }

  lemma EnqueueKeeps(w: World)
    requires Inv(w) && Possible(w, Enqueue)
    ensures Inv(Apply(w, Enqueue))
  {
    var e := w.publication.event;
    forall u ensures TargetOk(Apply(w, Enqueue), u) {
      assert TargetOk(w, u);
      if e.target in w.bus.boxes && u == e.target {
        EnqueueKeepsTarget(w);
      } else {
        EnqueuedElsewhere(w, u);
      }
    }
  }

  lemma PendingRowAppended(rows: seq<Row>, row: Row)
    requires ConsumedPrefix(rows, AckedCount(rows)) && row.status == Pending
    ensures AckedCount(rows + [row]) == AckedCount(rows)
    ensures ConsumedPrefix(rows + [row], AckedCount(rows))
    ensures Slots(rows + [row]) == Slots(rows) + [SlotOf(row)]
  {
    var n := |rows|;
    assert (rows + [row])[..n] == rows && (rows + [row])[n] == row;
    assert Slots(rows + [row]) == Slots(rows) + [SlotOf(row)];
  }

  /** The row of an enqueued event, seen from one target. */
  lemma EnqueuedRow(w: World, t: Target)
    requires Possible(w, Enqueue) && w.publication.event.target in w.bus.boxes
    ensures
      var e := w.publication.event;
      var row := Row(NextId(w.bus.inbox), e.target, e, Pending);
      RowsFor(Apply(w, Enqueue).bus.inbox, t) == RowsFor(w.bus.inbox, t) + if t == e.target then [row] else []
  {
    var e := w.publication.event;
    RowsForConcat(w.bus.inbox, [Row(NextId(w.bus.inbox), e.target, e, Pending)], t);
  }

  lemma EnqueuedAccount(w: World)
    requires Possible(w, Enqueue) && w.publication.event.target in w.bus.boxes
    requires
      var rows := RowsFor(w.bus.inbox, w.publication.event.target);
      ConsumedPrefix(rows, AckedCount(rows))
    ensures
      var w' := Apply(w, Enqueue);
      var e := w.publication.event;
      var slot := Slot(e, Some(NextId(w.bus.inbox)));
      var a := AccountOf(w, e.target);
      var rows' := RowsFor(w'.bus.inbox, e.target);
      && ConsumedPrefix(rows', AckedCount(rows'))
      && AccountOf(w', e.target) == a.(all := a.all + [slot], coming := [slot])
  {
    var e := w.publication.event;
    var w' := Apply(w, Enqueue);
    var rows := RowsFor(w.bus.inbox, e.target);
    var row := Row(NextId(w.bus.inbox), e.target, e, Pending);
    EnqueuedRow(w, e.target);
    assert RowsFor(w'.bus.inbox, e.target) == rows + [row];
    PendingRowAppended(rows, row);
    EnqueuedRest(w);
  }

  lemma EnqueuedRest(w: World)
    requires Possible(w, Enqueue) && w.publication.event.target in w.bus.boxes
    ensures
      var w', e := Apply(w, Enqueue), w.publication.event;
      && HandedTo(w', e.target) == HandedTo(w, e.target)
      && Coming(w', e.target) == [Slot(e, Some(NextId(w.bus.inbox)))]
      && w'.bus.boxes == w.bus.boxes && w'.phase == w.phase
      && w'.crashes == w.crashes && w'.departures == w.departures
  {
  }

  lemma EnqueueKeepsTarget(w: World)
    requires Possible(w, Enqueue) && w.publication.event.target in w.bus.boxes
    requires TargetOk(w, w.publication.event.target)
    ensures TargetOk(Apply(w, Enqueue), w.publication.event.target)
  {
    var e := w.publication.event;
    EnqueuedAccount(w);
    GrowAccount(AccountOf(w, e.target), Slot(e, Some(NextId(w.bus.inbox))));
  }

  lemma PushKeeps(w: World)
    requires Inv(w) && Possible(w, Push)
    ensures Inv(Apply(w, Push))
  {
    var w' := Apply(w, Push);
    forall u ensures TargetOk(w', u) {
      assert TargetOk(w, u);
      if u == w.publication.slot.event.target {
        PushKeepsTarget(w);
      } else {
        SameAccount(w, w', u);
      }
    }
  }

  lemma PushedAccount(w: World)
    requires Possible(w, Push)
    ensures
      var slot := w.publication.slot;
      var t := slot.event.target;
      var b := w.bus.boxes[t];
      AccountOf(Apply(w, Push), t) ==
        AccountOf(w, t).(box := Some(Offer(b, slot)), coming := [],
                         handed := HandedTo(w, t) + if b.waiting then [slot] else [])
  {
  }

  lemma PushKeepsTarget(w: World)
    requires Possible(w, Push) && w.phase == Running && Numbered(w.bus)
    requires TargetOk(w, w.publication.slot.event.target)
    ensures TargetOk(Apply(w, Push), w.publication.slot.event.target)
  {
    var slot := w.publication.slot;
    var t := slot.event.target;
    SlotsDiffer(w, t);
    PushAccount(AccountOf(w, t), slot);
    PushedAccount(w);
  }

  lemma RecoverKeeps(w: World)
    requires Inv(w) && Possible(w, RecoverPending) && Disciplined(w, RecoverPending)
    ensures Inv(Apply(w, RecoverPending))
  {
    var w' := Apply(w, RecoverPending);
    forall u ensures TargetOk(w', u) {
      RecoverKeepsTarget(w, u);
    }
  }

  /** What recovery delivers to one mailbox. */
  lemma RecoveredBox(w: World, t: Target)
    requires t in w.bus.boxes && ConsumedPrefix(RowsFor(w.bus.inbox, t), AckedCount(RowsFor(w.bus.inbox, t)))
    ensures
      var rows := RowsFor(w.bus.inbox, t);
      var boxes' := Recover(w.bus).boxes;
      t in boxes' && boxes'[t] == OfferAll(w.bus.boxes[t], Slots(rows)[AckedCount(rows)..])
  {
    var rows := RowsFor(w.bus.inbox, t);
    ReplayAt(PendingRows(w.bus.inbox), w.bus.boxes, t);
    RowsForPending(w.bus.inbox, t);
    ConsumedPrefixCount(rows, AckedCount(rows));
    SlotsFrom(rows, AckedCount(rows));
  }

  lemma RecoverKeepsTarget(w: World, t: Target)
    requires TargetOk(w, t) && Numbered(w.bus)
    requires Possible(w, RecoverPending) && Disciplined(w, RecoverPending)
    ensures TargetOk(Apply(w, RecoverPending), t)
  {
    var w' := Apply(w, RecoverPending);
    if t in w.bus.boxes {
      SlotsDiffer(w, t);
      RecoveredBox(w, t);
      var b, b' := w.bus.boxes[t], w'.bus.boxes[t];
      var a := AccountOf(w, t);
      ReplayAccount(a, b);
      HandedGrows(w, w', t, b, b');
      NewAccount(w', t, a.(box := Some(b'), phase := Running, handed := a.handed + b'.handed[|b.handed|..]));
    } else {
      ReplayAt(PendingRows(w.bus.inbox), w.bus.boxes, t);
    }
  }

  lemma HandedGrows(w: World, w': World, t: Target, b: Box, b': Box)
    requires t in w.bus.boxes && t in w'.bus.boxes && w.bus.boxes[t] == b && w'.bus.boxes[t] == b'
    requires w'.earlier == w.earlier && b.handed <= b'.handed
    ensures HandedTo(w', t) == HandedTo(w, t) + b'.handed[|b.handed|..]
  {
    assert b'.handed == b.handed + b'.handed[|b.handed|..];
  }

  lemma TakeKeeps(w: World, t: Target)
    requires Inv(w) && Possible(w, TakeNext(t))
    ensures Inv(Apply(w, TakeNext(t)))
  {
    var w' := Apply(w, TakeNext(t));
    AckKeepsNumbers(w, t);
    forall u ensures TargetOk(w', u) {
      assert TargetOk(w, u);
      if u == t {
        TakeKeepsTarget(w, t);
      } else {
        AckLeavesOthers(w, t, u);
        SameAccount(w, w', u);
      }
    }
  }

  lemma TakenAccount(w: World, t: Target)
    requires Inv(w) && Possible(w, TakeNext(t))
    ensures
      var a := AccountOf(w, t);
      var b := w.bus.boxes[t];
      var b' := Take(b).0;
      && b.handed <= b'.handed
      && AccountOf(Apply(w, TakeNext(t)), t) ==
           a.(acked := if Holding(a) then a.acked + 1 else a.acked,
              box := Some(b'), handed := a.handed + b'.handed[|b.handed|..])
  {
    AckChangesOneRow(w, t);
    HandedGrows(w, Apply(w, TakeNext(t)), t, w.bus.boxes[t], Take(w.bus.boxes[t]).0);
  }

  lemma TakeKeepsTarget(w: World, t: Target)
    requires Inv(w) && Possible(w, TakeNext(t))
    ensures TargetOk(Apply(w, TakeNext(t)), t)
  {
    assert TargetOk(w, t);
    AckChangesOneRow(w, t);
    TakenAccount(w, t);
    SlotsDiffer(w, t);
    TakeAccount(AccountOf(w, t), w.bus.boxes[t]);
  }

  /** A target that holds an unacknowledged slot holds its first pending row. */
  lemma InFlightIsFirstPending(w: World, t: Target)
    requires Inv(w) && w.phase != Down && t in w.bus.boxes && w.bus.boxes[t].inFlight.Some?
    ensures
      var rows := RowsFor(w.bus.inbox, t);
      AckedCount(rows) < |rows| && w.bus.boxes[t].inFlight == Some(SlotOf(rows[AckedCount(rows)]))
  {
    assert TargetOk(w, t);
    var rows := RowsFor(w.bus.inbox, t);
    var c := AckedCount(rows);
    var b := w.bus.boxes[t];
    assert (Held(b) + Coming(w, t))[0] == b.inFlight.value;
    assert Slots(rows)[c..][0] == Slots(rows)[c];
  }

  lemma FirstPendingConsumed(rows: seq<Row>, c: nat)
    requires ConsumedPrefix(rows, c) && c < |rows|
    requires forall i, j :: 0 <= i < j < |rows| ==> rows[i].id < rows[j].id
    ensures
      var rows' := Consume(rows, rows[c].id);
      ConsumedPrefix(rows', c + 1) && AckedCount(rows') == c + 1 && Slots(rows') == Slots(rows)
  {
    ConsumedPrefixCount(Consume(rows, rows[c].id), c + 1);
  }

  /** The acknowledgement turns the target's first pending row, and nothing else. */
  lemma AckChangesOneRow(w: World, t: Target)
    requires Inv(w) && Possible(w, TakeNext(t))
    ensures
      var rows, rows' := RowsFor(w.bus.inbox, t), RowsFor(Apply(w, TakeNext(t)).bus.inbox, t);
      var c := AckedCount(rows);
      var c' := if w.bus.boxes[t].inFlight.Some? then c + 1 else c;
      ConsumedPrefix(rows', c') && AckedCount(rows') == c' && Slots(rows') == Slots(rows)
  {
    assert TargetOk(w, t);
    var inbox := w.bus.inbox;
    if w.bus.boxes[t].inFlight.Some? {
      InFlightIsFirstPending(w, t);
      var rows := RowsFor(inbox, t);
      var c := AckedCount(rows);
      RowsForConsume(inbox, rows[c].id, t);
      RowsForOrdered(inbox, t);
      FirstPendingConsumed(rows, c);
    }
  }

  lemma AckLeavesOthers(w: World, t: Target, u: Target)
    requires Inv(w) && Possible(w, TakeNext(t)) && u != t
    ensures RowsFor(Apply(w, TakeNext(t)).bus.inbox, u) == RowsFor(w.bus.inbox, u)
  {
    if w.bus.boxes[t].inFlight.Some? {
      InFlightIsFirstPending(w, t);
      RowsForMembers(w.bus.inbox, t);
      var rows := RowsFor(w.bus.inbox, t);
      ConsumeElsewhere(w, rows[AckedCount(rows)], u);
    }
  }

  lemma AckKeepsNumbers(w: World, t: Target)
    requires Numbered(w.bus) && Possible(w, TakeNext(t))
    ensures Numbered(Apply(w, TakeNext(t)).bus)
  {
  }

  lemma ConsumeElsewhere(w: World, row: Row, u: Target)
    requires Numbered(w.bus) && row in w.bus.inbox && row.target != u
    ensures RowsFor(Consume(w.bus.inbox, row.id), u) == RowsFor(w.bus.inbox, u)
  {
    var rows := RowsFor(w.bus.inbox, u);
    RowsForConsume(w.bus.inbox, row.id, u);
    RowsForMembers(w.bus.inbox, u);
    forall i | 0 <= i < |rows| ensures rows[i].id != row.id {
      assert rows[i] in w.bus.inbox;
    }
    assert Consume(rows, row.id) == rows;
  }

  lemma StepKeeps(w: World, a: Action)
    requires Inv(w) && Possible(w, a) && Disciplined(w, a)
    ensures Inv(Apply(w, a))
  {
    match a
    case Boot => BootKeeps(w);
    case Subscribe(t) => SubscribeKeeps(w, t);
    case Unsubscribe(t) => UnsubscribeKeeps(w, t);
    case RecoverPending => RecoverKeeps(w);
    case Append(d) => AppendKeeps(w, d);
    case Enqueue => EnqueueKeeps(w);
    case Push => PushKeeps(w);
    case TakeNext(t) => TakeKeeps(w, t);
    case Crash => CrashKeeps(w);
  }

  lemma {:induction false} KeptAfter(w: World, more: seq<Action>)
    requires Inv(w) && After(w, more).Some?
    ensures Inv(After(w, more).value)
  {
    if more != [] {
      var n := |more| - 1;
      KeptAfter(w, more[..n]);
      StepKeeps(After(w, more[..n]).value, more[n]);
    }
  }

  lemma EveryRunKeeps(run: seq<Action>)
    requires Exec(run).Some?
    ensures Inv(Exec(run).value)
  {
    assert forall t :: TargetOk(FRESH, t);
    KeptAfter(FRESH, run);
  }

  // ---- What every run guarantees ----

  /**
   * At least once and in order: with repeats dropped, the hand-outs are a prefix
   * of the target's rows in id order; the rows marked consumed are a prefix too,
   * and only rows that were handed out are marked.
   */
  lemma HandOutsFollowTheInbox(run: seq<Action>, t: Target)
    requires Exec(run).Some?
    ensures
      var w := Exec(run).value;
      var rows := RowsFor(w.bus.inbox, t);
      var handed := Distinct(HandedTo(w, t));
      && handed <= Slots(rows)
      && ConsumedPrefix(rows, AckedCount(rows))
      && AckedCount(rows) <= |handed| <= AckedCount(rows) + 1
  {
    EveryRunKeeps(run);
    assert TargetOk(Exec(run).value, t);
  }

  /** A crash or an unsubscription can repeat one hand-out, and nothing else can. */
  lemma RepeatsAreBounded(run: seq<Action>, t: Target)
    requires Exec(run).Some?
    ensures
      var w := Exec(run).value;
      |HandedTo(w, t)| <= AckedCount(RowsFor(w.bus.inbox, t)) + w.crashes + w.departures[t] + 1
  {
    EveryRunKeeps(run);
    assert TargetOk(Exec(run).value, t);
  }

  /**
   * After recovery, between publishes, a subscribed mailbox holds the target's
   * pending rows, in id order, the unacknowledged one first, and nothing else.
   */
  lemma MailboxHoldsThePendingRows(run: seq<Action>, t: Target)
    requires Exec(run).Some?
    requires
      var w := Exec(run).value;
      w.phase == Running && w.publication == Idle && t in w.bus.boxes
    ensures
      var w := Exec(run).value;
      && Held(w.bus.boxes[t]) == Slots(PendingRows(RowsFor(w.bus.inbox, t)))
      && BoxOk(w.bus.boxes[t])
  {
    EveryRunKeeps(run);
    var w := Exec(run).value;
    assert TargetOk(w, t);
    HeldIsPending(w, t);
  }

  lemma SlotsFrom(rows: seq<Row>, c: nat)
    requires c <= |rows|
    ensures Slots(rows[c..]) == Slots(rows)[c..]
  {
  }

  lemma HeldIsPending(w: World, t: Target)
    requires TargetOk(w, t) && w.phase == Running && w.publication == Idle && t in w.bus.boxes
    ensures Held(w.bus.boxes[t]) == Slots(PendingRows(RowsFor(w.bus.inbox, t)))
  {
    var rows := RowsFor(w.bus.inbox, t);
    var c := AckedCount(rows);
    ConsumedPrefixCount(rows, c);
    SlotsFrom(rows, c);
    var held := Held(w.bus.boxes[t]);
    assert held + [] == held;
  }

  /** The log has an event with that number. */
  predicate Logs(log: seq<Event>, num: nat) { exists i :: 0 <= i < |log| && log[i].num == num }

  lemma ReturnedAreLogged(w: World, i: nat)
    requires Inv(w) && i < |w.returned|
    ensures Logs(w.bus.log, w.returned[i])
  {
    assert w.bus.log[w.returned[i] - 1].num == w.returned[i];
  }

  lemma QueuedAreLogged(w: World, r: Row)
    requires Numbered(w.bus) && r in w.bus.inbox
    ensures r.event in w.bus.log && r.event.target == r.target
  {
    var i :| 0 <= i < |w.bus.inbox| && w.bus.inbox[i] == r;
  }

  /**
   * Over any number of restarts the log holds the numbers 1 to n, the ids publish
   * returns rise strictly and are all in the log, and so is every inbox event.
   */
  lemma LogIsNumberedWithoutGaps(run: seq<Action>)
    requires Exec(run).Some?
    ensures
      var w := Exec(run).value;
      && (forall i :: 0 <= i < |w.bus.log| ==> w.bus.log[i].num == i + 1)
      && (forall i, j :: 0 <= i < j < |w.returned| ==> w.returned[i] < w.returned[j])
      && (forall i :: 0 <= i < |w.returned| ==> Logs(w.bus.log, w.returned[i]))
      && (forall r :: r in w.bus.inbox ==> r.event in w.bus.log && r.event.target == r.target)
      && (w.phase != Down ==> forall d :: !Refused(w.bus, d))
  {
    EveryRunKeeps(run);
    var w := Exec(run).value;
    forall i | 0 <= i < |w.returned| ensures Logs(w.bus.log, w.returned[i]) {
      ReturnedAreLogged(w, i);
    }
    forall r | r in w.bus.inbox ensures r.event in w.bus.log && r.event.target == r.target {
      QueuedAreLogged(w, r);
    }
    forall d | w.phase != Down ensures !Refused(w.bus, d) {
      NeverRefused(w, d);
    }
  }

  lemma NeverRefused(w: World, d: Draft)
    requires Inv(w) && w.phase != Down
    ensures !Refused(w.bus, d)
  {
    forall e | e in w.bus.log ensures e.num <= |w.bus.log| {
      var i :| 0 <= i < |w.bus.log| && w.bus.log[i] == e;
    }
  }

  /**
   * No step removes a row, changes its target or event, or makes it pending again;
   * a row turns consumed only when its own target's consumer comes back, and only
   * the row that was in that consumer's hands.
   */
  lemma RowsTurnConsumedOnce(run: seq<Action>, a: Action, i: nat)
    requires Exec(run).Some? && Possible(Exec(run).value, a) && Disciplined(Exec(run).value, a)
    requires i < |Exec(run).value.bus.inbox|
    ensures
      var w := Exec(run).value;
      var w' := Apply(w, a);
      && i < |w'.bus.inbox|
      && var r, r' := w.bus.inbox[i], w'.bus.inbox[i];
      && r' == r.(status := r'.status)
      && (r.status == Consumed ==> r'.status == Consumed)
      && (r.status != r'.status ==>
            a == TakeNext(r.target) && w.bus.boxes[r.target].inFlight == Some(SlotOf(r))
            && SlotOf(r) in HandedTo(w, r.target))
  {
    EveryRunKeeps(run);
    if a.TakeNext? {
      AcknowledgedRow(Exec(run).value, a.target, i);
    }
  }

  /** The row in hand is the target's own, and the only one with its id. */
  lemma InHandRow(w: World, t: Target, i: nat)
    requires Inv(w) && w.phase != Down && t in w.bus.boxes && w.bus.boxes[t].inFlight.Some?
    requires i < |w.bus.inbox| && w.bus.boxes[t].inFlight.value.inboxId == Some(w.bus.inbox[i].id)
    ensures w.bus.inbox[i].target == t && w.bus.boxes[t].inFlight == Some(SlotOf(w.bus.inbox[i]))
  {
    InFlightIsFirstPending(w, t);
    var rows := RowsFor(w.bus.inbox, t);
    RowsForMembers(w.bus.inbox, t);
    assert rows[AckedCount(rows)] in rows;
    IdDecides(w.bus, rows[AckedCount(rows)], i);
  }

  lemma IdDecides(bus: Bus, row: Row, i: nat)
    requires Numbered(bus) && row in bus.inbox && i < |bus.inbox| && row.id == bus.inbox[i].id
    ensures row == bus.inbox[i]
  {
    var k :| 0 <= k < |bus.inbox| && bus.inbox[k] == row;
    assert bus.inbox[k].id == k + 1 && bus.inbox[i].id == i + 1;
  }

  lemma AcknowledgedRow(w: World, t: Target, i: nat)
    requires Inv(w) && Possible(w, TakeNext(t)) && i < |w.bus.inbox|
    ensures
      var inbox' := Apply(w, TakeNext(t)).bus.inbox;
      && |inbox'| == |w.bus.inbox|
      && var r, r' := w.bus.inbox[i], inbox'[i];
      && r' == r.(status := r'.status)
      && (r.status == Consumed ==> r'.status == Consumed)
      && (r.status != r'.status ==>
            r.target == t && w.bus.boxes[t].inFlight == Some(SlotOf(r)) && SlotOf(r) in HandedTo(w, t))
  {
    var inFlight := w.bus.boxes[t].inFlight;
    assert Apply(w, TakeNext(t)).bus.inbox == Ack(w.bus.inbox, inFlight);
    if inFlight.Some? && inFlight.value.inboxId == Some(w.bus.inbox[i].id) {
      InHandRow(w, t, i);
      InFlightWasHanded(w, t);
    }
  }

  lemma InFlightWasHanded(w: World, t: Target)
    requires Inv(w) && w.phase != Down && t in w.bus.boxes && w.bus.boxes[t].inFlight.Some?
    ensures w.bus.boxes[t].inFlight.value in HandedTo(w, t)
  {
    InFlightIsFirstPending(w, t);
    assert TargetOk(w, t);
    var c := AckedCount(RowsFor(w.bus.inbox, t));
    DistinctMembers(HandedTo(w, t));
    assert Distinct(HandedTo(w, t))[c] == Slots(RowsFor(w.bus.inbox, t))[c];
  }

  lemma {:induction false} DistinctMembers<T>(s: seq<T>)
    ensures forall x :: x in Distinct(s) <==> x in s
  {
    if s != [] {
      DistinctMembers(s[..|s| - 1]);
      assert s == s[..|s| - 1] + [s[|s| - 1]];
    }
  }

  // ---- Nothing enqueued is lost: a consumer that keeps coming back gets it all ----

  function TakeMany(w: World, t: Target, n: nat): (r: World)
    requires Possible(w, TakeNext(t))
    ensures Possible(r, TakeNext(t))
    decreases n
  {
    if n == 0 then w else TakeMany(Apply(w, TakeNext(t)), t, n - 1)
  }

  lemma TakeOne(w: World, t: Target)
    requires Inv(w) && w.phase == Running && Possible(w, TakeNext(t)) && !w.bus.boxes[t].waiting
    ensures
      var w' := Apply(w, TakeNext(t));
      var queue := w.bus.boxes[t].queue;
      && Inv(w') && w'.phase == Running && Possible(w', TakeNext(t))
      && Slots(RowsFor(w'.bus.inbox, t)) == Slots(RowsFor(w.bus.inbox, t))
      && HandedTo(w', t) == HandedTo(w, t) + (if queue == [] then [] else [queue[0]])
      && w'.bus.boxes[t].queue == (if queue == [] then [] else queue[1..])
      && w'.bus.boxes[t].waiting == (queue == [])
  {
    TakeKeeps(w, t);
    AckChangesOneRow(w, t);
  }

  /** From `w` to `w'` the queue was handed out in order, and now every row is consumed. */
  predicate Drained(w: World, w': World, t: Target) {
    t in w.bus.boxes && t in w'.bus.boxes &&
    var rows' := RowsFor(w'.bus.inbox, t);
    && HandedTo(w', t) == HandedTo(w, t) + w.bus.boxes[t].queue
    && Slots(rows') == Slots(RowsFor(w.bus.inbox, t))
    && PendingRows(rows') == []
    && Distinct(HandedTo(w', t)) == Slots(rows')
    && w'.bus.boxes[t].waiting
  }

  lemma OneThenRest(s: seq<Slot>, queue: seq<Slot>)
    requires queue != []
    ensures s + [queue[0]] + queue[1..] == s + queue
  {
  }

  lemma DrainedAtOnce(w: World, t: Target)
    requires Inv(w) && w.phase == Running && Possible(w, TakeNext(t)) && !w.bus.boxes[t].waiting
    requires w.bus.boxes[t].queue == []
    ensures Drained(w, Apply(w, TakeNext(t)), t)
  {
    TakeOne(w, t);
    DrainedTarget(Apply(w, TakeNext(t)), t);
  }

  lemma DrainedLater(w: World, w': World, t: Target)
    requires Inv(w) && w.phase == Running && Possible(w, TakeNext(t)) && !w.bus.boxes[t].waiting
    requires w.bus.boxes[t].queue != [] && Drained(Apply(w, TakeNext(t)), w', t)
    ensures Drained(w, w', t)
  {
    TakeOne(w, t);
    OneThenRest(HandedTo(w, t), w.bus.boxes[t].queue);
  }

  lemma {:induction false} ReturningConsumerDrains(w: World, t: Target)
    requires Inv(w) && w.phase == Running && Possible(w, TakeNext(t)) && !w.bus.boxes[t].waiting
    ensures Drained(w, TakeMany(w, t, |w.bus.boxes[t].queue| + 1), t)
    decreases |w.bus.boxes[t].queue|
  {
    var queue := w.bus.boxes[t].queue;
    var next := Apply(w, TakeNext(t));
    TakeOne(w, t);
    if queue == [] {
      DrainedAtOnce(w, t);
      assert TakeMany(w, t, 1) == TakeMany(next, t, 0) == next;
    } else {
      ReturningConsumerDrains(next, t);
      DrainedLater(w, TakeMany(next, t, |queue|), t);
    }
  }

  lemma DrainedTarget(w: World, t: Target)
    requires Inv(w) && w.phase == Running && w.publication == Idle && t in w.bus.boxes && w.bus.boxes[t].waiting
    ensures PendingRows(RowsFor(w.bus.inbox, t)) == []
    ensures Distinct(HandedTo(w, t)) == Slots(RowsFor(w.bus.inbox, t))
  {
    assert TargetOk(w, t);
    var rows := RowsFor(w.bus.inbox, t);
    var c := AckedCount(rows);
    assert Held(w.bus.boxes[t]) + [] == [];
    assert |Slots(rows)[c..]| == 0;
    ConsumedPrefixCount(rows, c);
    assert Slots(rows)[..c] == Slots(rows);
  }

  // ---- Events that never reach the inbox ----

  /** Logged, in no inbox row, and not about to get one. */
  predicate Unqueued(w: World, e: Event) {
    && e in w.bus.log
    && (forall i :: 0 <= i < |w.bus.inbox| ==> w.bus.inbox[i].event != e)
    && (match w.publication
        case Idle => true
        case Logged(x) => x != e
        case Queued(slot) => slot.event != e)
  }

  lemma StepLeavesUnqueued(w: World, a: Action, e: Event)
    requires Inv(w) && Possible(w, a) && Disciplined(w, a) && Unqueued(w, e)
    ensures Unqueued(Apply(w, a), e)
  {
    if a.Append? && !Refused(w.bus, a.draft) {
      var i :| 0 <= i < |w.bus.log| && w.bus.log[i] == e;
      assert e.num == i + 1;
    }
  }

  lemma NeverHanded(w: World, t: Target, e: Event)
    requires Inv(w) && Unqueued(w, e)
    ensures forall s :: s in HandedTo(w, t) ==> s.event != e
  {
    assert TargetOk(w, t);
    var rows, handed := RowsFor(w.bus.inbox, t), HandedTo(w, t);
    DistinctMembers(handed);
    RowsForMembers(w.bus.inbox, t);
    forall s | s in handed ensures s.event != e {
      var i :| 0 <= i < |Distinct(handed)| && Distinct(handed)[i] == s;
      assert s == Slots(rows)[i] && rows[i] in w.bus.inbox;
    }
  }

  lemma {:induction false} StaysUnqueued(w: World, more: seq<Action>, e: Event)
    requires Inv(w) && Unqueued(w, e) && After(w, more).Some?
    ensures Inv(After(w, more).value) && Unqueued(After(w, more).value, e)
  {
    if more != [] {
      var n := |more| - 1;
      StaysUnqueued(w, more[..n], e);
      StepKeeps(After(w, more[..n]).value, more[n]);
      StepLeavesUnqueued(After(w, more[..n]).value, more[n], e);
    }
  }

  /** An event that is logged without an inbox row is never delivered to anyone, through any restarts. */
  lemma UnqueuedIsLostForGood(run: seq<Action>, more: seq<Action>, e: Event, t: Target)
    requires Exec(run).Some? && Unqueued(Exec(run).value, e)
    requires After(Exec(run).value, more).Some?
    ensures
      var w' := After(Exec(run).value, more).value;
      Unqueued(w', e) && forall s :: s in HandedTo(w', t) ==> s.event != e
  {
    EveryRunKeeps(run);
    StaysUnqueued(Exec(run).value, more, e);
    NeverHanded(After(Exec(run).value, more).value, t, e);
  }

  /** A crash right after the log append leaves the event so, and so does a publish to a target without mailbox. */
  lemma UnqueuedPublications(w: World, d: Draft)
    requires Inv(w) && Possible(w, Append(d)) && w.phase == Running
    ensures
      var logged := Apply(w, Append(d));
      && logged.publication == Logged(Stamp(w.bus, d))
      && Unqueued(Apply(logged, Crash), Stamp(w.bus, d))
      && (Unqueued(Apply(logged, Enqueue), Stamp(w.bus, d)) <==> d.target !in w.bus.boxes)
  {
    var e := Stamp(w.bus, d);
    forall i | 0 <= i < |w.bus.inbox| ensures w.bus.inbox[i].event != e {
      assert w.bus.inbox[i].event in w.bus.log;
    }
    var queued := Apply(Apply(w, Append(d)), Enqueue);
    assert d.target in w.bus.boxes ==> queued.bus.inbox[|w.bus.inbox|].event == e;
  }

  // ---- A lone consumer loop ----

  datatype MailboxCall = Offered(slot: Slot) | Taken

  /** A mailbox after a list of calls, with the number of takeNext calls it did not reject. */
  function Played(calls: seq<MailboxCall>): (Box, nat) {
    if calls == [] then (EMPTY_BOX, 0)
    else
      var (b, taken) := Played(calls[..|calls| - 1]);
      match calls[|calls| - 1]
      case Offered(slot) => (Offer(b, slot), taken)
      case Taken => (Take(b).0, if Take(b).1.Rejected? then taken else taken + 1)
  }

  function OfferedSlots(calls: seq<MailboxCall>): seq<Slot> {
    if calls == [] then []
    else
      OfferedSlots(calls[..|calls| - 1]) +
      match calls[|calls| - 1] { case Offered(slot) => [slot] case Taken => [] }
  }

  /**
   * A mailbox is a FIFO: what was handed out and then what is queued is what was
   * offered.  Every accepted takeNext is answered by one hand-out, so a consumer
   * that waits for each answer before calling again is never rejected.
   */
  lemma {:induction false} MailboxIsFifo(calls: seq<MailboxCall>)
    ensures
      var (b, taken) := Played(calls);
      && BoxOk(b)
      && b.handed + b.queue == OfferedSlots(calls)
      && taken == |b.handed| + (if b.waiting then 1 else 0)
      && (Take(b).1.Rejected? <==> taken > |b.handed|)
  {
    if calls != [] {
      MailboxIsFifo(calls[..|calls| - 1]);
      var b := Played(calls[..|calls| - 1]).0;
      match calls[|calls| - 1]
      case Offered(slot) =>
        assert b.handed + (b.queue + [slot]) == b.handed + b.queue + [slot];
        assert b.waiting ==> b.handed + [slot] + [] == b.handed + b.queue + [slot];
      case Taken =>
        if b.queue != [] {
          assert b.handed + [b.queue[0]] + b.queue[1..] == b.handed + b.queue;
        }
    }
  }

  // ---- Subscribing after the recovery ----

  /** Subscribe late and be sent one event. */
  function LatePushed(w: World, t: Target, d: Draft): World
    requires w.phase == Running && w.publication == Idle && d.target == t && !Refused(w.bus, d)
  {
    Apply(Apply(Apply(Apply(w, Subscribe(t)), Append(d)), Enqueue), Push)
  }

  lemma LateBox(w: World, t: Target, d: Draft)
    requires w.phase == Running && w.publication == Idle && d.target == t && !Refused(w.bus, d)
    ensures
      var row := Row(NextId(w.bus.inbox), t, Stamp(w.bus, d), Pending);
      var w' := LatePushed(w, t, d);
      && w'.phase == Running && w'.publication == Idle && w'.bus.inbox == w.bus.inbox + [row]
      && t in w'.bus.boxes && w'.bus.boxes[t] == Box([SlotOf(row)], false, None, [])
  {
    var row := Row(NextId(w.bus.inbox), t, Stamp(w.bus, d), Pending);
    var subscribed := Apply(w, Subscribe(t));
    assert subscribed.bus.boxes[t] == EMPTY_BOX && subscribed.bus.inbox == w.bus.inbox;
    var queued := Apply(Apply(subscribed, Append(d)), Enqueue);
    assert queued.bus.inbox == w.bus.inbox + [row] && queued.publication == Queued(SlotOf(row));
    assert queued.bus.boxes[t] == EMPTY_BOX;
    assert EMPTY_BOX.queue + [SlotOf(row)] == [SlotOf(row)];
  }

  /** Then take it, and come back for more. */
  function LateSubscription(w: World, t: Target, d: Draft): World
    requires w.phase == Running && w.publication == Idle && d.target == t && !Refused(w.bus, d)
  {
    LateBox(w, t, d);
    Apply(Apply(LatePushed(w, t, d), TakeNext(t)), TakeNext(t))
  }

  lemma LateInbox(w: World, t: Target, d: Draft)
    requires w.phase == Running && w.publication == Idle && d.target == t && !Refused(w.bus, d)
    ensures
      var row := Row(NextId(w.bus.inbox), t, Stamp(w.bus, d), Pending);
      LateSubscription(w, t, d).bus.inbox == Consume(w.bus.inbox + [row], row.id)
  {
    LateBox(w, t, d);
    var row := Row(NextId(w.bus.inbox), t, Stamp(w.bus, d), Pending);
    var taken := Apply(LatePushed(w, t, d), TakeNext(t));
    assert taken.bus.boxes[t].inFlight == Some(SlotOf(row)) && taken.bus.inbox == w.bus.inbox + [row];
  }

  /**
   * The code lets an agent resume, and so subscribe, after the recovery.  Its rows
   * are then consumed in order exactly if nothing was pending for it: otherwise
   * the new event overtakes the pending ones.
   */
  lemma LateSubscriptionKeepsOrderIff(w: World, t: Target, d: Draft)
    requires Inv(w) && w.phase == Running && w.publication == Idle && t !in w.bus.boxes && d.target == t
    ensures !Refused(w.bus, d)
    ensures
      (exists c :: ConsumedPrefix(RowsFor(LateSubscription(w, t, d).bus.inbox, t), c))
      <==> PendingRows(RowsFor(w.bus.inbox, t)) == []
  {
    LateInbox(w, t, d);
    var row := Row(NextId(w.bus.inbox), t, Stamp(w.bus, d), Pending);
    RowsForConcat(w.bus.inbox, [row], t);
    assert RowsFor([row], t) == [row];
    RowsForConsume(w.bus.inbox + [row], row.id, t);
    var rows := RowsFor(w.bus.inbox, t);
    forall i | 0 <= i < |rows| ensures rows[i].id != row.id {
      RowsForMembers(w.bus.inbox, t);
      assert rows[i] in w.bus.inbox;
    }
    assert TargetOk(w, t);
    Overtaken(rows, AckedCount(rows), row);
  }

  lemma OneMore(w: World, more: seq<Action>, a: Action)
    requires After(w, more).Some?
    requires Possible(After(w, more).value, a) && Disciplined(After(w, more).value, a)
    ensures After(w, more + [a]) == Some(Apply(After(w, more).value, a))
  {
    assert (more + [a])[..|more|] == more;
  }

  /** A running bus with one subscriber. */
  function Standing(t: Target): World {
    World(Bus([], [], 0, map[t := EMPTY_BOX]), Running, Idle, map[t := []], 0, multiset{}, [])
  }

  lemma StandingRun(t: Target)
    ensures Exec([Boot] + [Subscribe(t)] + [RecoverPending]) == Some(Standing(t))
  {
    OneMore(FRESH, [], Boot);
    assert [] + [Boot] == [Boot];
    OneMore(FRESH, [Boot], Subscribe(t));
    OneMore(FRESH, [Boot] + [Subscribe(t)], RecoverPending);
    var subscribed := After(FRESH, [Boot] + [Subscribe(t)]).value;
    assert PendingRows([]) == [] && Replay([], subscribed.bus.boxes) == subscribed.bus.boxes;
    assert subscribed.bus.boxes == map[t := EMPTY_BOX] && subscribed.earlier == map[t := []];
  }

  /** The same bus after one event has been published to the subscriber and nobody took it. */
  function Published(t: Target, e: Event): World {
    var slot := Slot(e, Some(1));
    World(Bus([e], [Row(1, t, e, Pending)], 1, map[t := Box([slot], false, None, [])]),
          Running, Idle, map[t := []], 0, multiset{}, [1])
  }

  lemma PublishedRun(t: Target, d: Draft)
    requires d.target == t
    ensures
      After(Standing(t), [Append(d)] + [Enqueue] + [Push]) == Some(Published(t, Event(1, d.source, t, d.body)))
  {
    var e := Event(1, d.source, t, d.body);
    OneMore(Standing(t), [], Append(d));
    assert [] + [Append(d)] == [Append(d)];
    var logged := Apply(Standing(t), Append(d));
    assert logged.bus.log == [e] && logged.publication == Logged(e);
    OneMore(Standing(t), [Append(d)], Enqueue);
    var queued := Apply(logged, Enqueue);
    assert NextId([]) == 1 && queued.bus.inbox == [] + [Row(1, t, e, Pending)];
    OneMore(Standing(t), [Append(d)] + [Enqueue], Push);
    var pushed := Apply(queued, Push);
    assert queued.bus.boxes[t] == EMPTY_BOX && queued.publication == Queued(Slot(e, Some(1)));
    assert Offer(EMPTY_BOX, Slot(e, Some(1))).queue == [Slot(e, Some(1))];
    assert pushed.bus.boxes == map[t := Box([Slot(e, Some(1))], false, None, [])];
    assert pushed.returned == [1] && pushed.bus.inbox == [Row(1, t, e, Pending)] && pushed.bus.log == [e];
    assert pushed.bus == Published(t, e).bus;
    assert pushed == Published(t, e);
  }

  lemma {:induction false} AfterAppends(w: World, more: seq<Action>, rest: seq<Action>)
    requires After(w, more).Some?
    ensures After(w, more + rest) == After(After(w, more).value, rest)
  {
    if rest == [] {
      assert more + rest == more;
    } else {
      var n := |rest| - 1;
      AfterAppends(w, more, rest[..n]);
      assert (more + rest)[..|more + rest| - 1] == more + rest[..n];
    }
  }

  lemma OnlyRow(row: Row)
    requires row.status == Pending
    ensures PendingRows(RowsFor([row], row.target)) == [row]
  {
    assert [row][..0] == [];
    assert RowsFor([row], row.target) == [row];
    assert PendingRows([row]) == [row];
  }

  /** The subscriber leaves with its event still queued. */
  lemma UnsubscribedRun(t: Target, d: Draft)
    requires d.target == t
    ensures
      var e := Event(1, d.source, t, d.body);
      After(Standing(t), [Append(d)] + [Enqueue] + [Push] + [Unsubscribe(t)]) ==
        Some(Apply(Published(t, e), Unsubscribe(t)))
  {
    PublishedRun(t, d);
    OneMore(Standing(t), [Append(d)] + [Enqueue] + [Push], Unsubscribe(t));
  }

  lemma LeftBehind(t: Target, e: Event)
    ensures
      var w := Apply(Published(t, e), Unsubscribe(t));
      && w.phase == Running && w.publication == Idle && t !in w.bus.boxes
      && w.bus.inbox == [Row(1, t, e, Pending)]
  {
  }

  /** A run that leaves a running bus with a pending row for a target without mailbox: unsubscribed with work queued. */
  lemma PendingWithoutMailbox(t: Target, d: Draft)
    requires d.target == t
    ensures
      var run := [Boot] + [Subscribe(t)] + [RecoverPending] + ([Append(d)] + [Enqueue] + [Push] + [Unsubscribe(t)]);
      Exec(run).Some? &&
      var w := Exec(run).value;
      && w.phase == Running && w.publication == Idle && t !in w.bus.boxes
      && PendingRows(RowsFor(w.bus.inbox, t)) != []
  {
    var e := Event(1, d.source, t, d.body);
    var standing := [Boot] + [Subscribe(t)] + [RecoverPending];
    var left := [Append(d)] + [Enqueue] + [Push] + [Unsubscribe(t)];
    StandingRun(t);
    UnsubscribedRun(t, d);
    AfterAppends(FRESH, standing, left);
    assert Exec(standing + left) == Some(Apply(Published(t, e), Unsubscribe(t)));
    LeftBehind(t, e);
    OnlyRow(Row(1, t, e, Pending));
  }

  lemma Overtaken(rows: seq<Row>, c: nat, row: Row)
    requires ConsumedPrefix(rows, c) && forall i :: 0 <= i < |rows| ==> rows[i].id != row.id
    ensures (exists k :: ConsumedPrefix(Consume(rows + [row], row.id), k)) <==> PendingRows(rows) == []
  {
    ConsumedPrefixCount(rows, c);
    var rows' := Consume(rows + [row], row.id);
    if c == |rows| {
      assert ConsumedPrefix(rows', c + 1);
    } else {
      assert rows'[c].status == rows[c].status;
      assert rows'[|rows|].status == Consumed;
    }
  }
}
