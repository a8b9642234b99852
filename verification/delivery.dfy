/**
 * The values the durable event bus works on, and what each of its operations
 * does to them.  The classes of module EventBus are proved to change their
 * fields exactly as these functions say; module DeliveryRuns proves what the
 * functions add up to over whole runs with crashes.
 */
module Delivery {
  import opened Common

  /** An agent id, a service id or an endpoint id. */
  type Target = string

  /** What a publisher supplies: an event without its id. */
  datatype Draft = Draft(source: string, target: Target, body: string)

  /** A published event; `num` is the number inside its id. */
  datatype Event = Event(num: nat, source: string, target: Target, body: string)

  datatype Status = Pending | Consumed

  /** A row of the durable inbox table. */
  datatype Row = Row(id: nat, target: Target, event: Event, status: Status)

  datatype Slot = Slot(event: Event, inboxId: Option<nat>)

  /**
   * A mailbox.  `handed` is the history of everything this mailbox gave to its
   * consumer, oldest first.
   */
  datatype Box = Box(queue: seq<Slot>, waiting: bool, inFlight: Option<Slot>, handed: seq<Slot>)

  const EMPTY_BOX := Box([], false, None, [])

  /** What a call of takeNext comes to. */
  datatype Outcome = Delivered(event: Event) | Parked | Rejected

  /** A bus and the two tables behind it. */
  datatype Bus = Bus(log: seq<Event>, inbox: seq<Row>, counter: nat, boxes: map<Target, Box>)

  // ---- Mailbox ----

  /** A parked consumer finds nothing queued and nothing unacknowledged. */
  predicate BoxOk(b: Box) {
    b.waiting ==> b.queue == [] && b.inFlight == None
  }

  function Offer(b: Box, slot: Slot): (r: Box)
    ensures BoxOk(b) ==> BoxOk(r)
  {
    if b.waiting
    then b.(waiting := false, inFlight := Some(slot), handed := b.handed + [slot])
    else b.(queue := b.queue + [slot])
  }

  /** The event a parked consumer wakes up with when `slot` is pushed. */
  function Wakes(b: Box, slot: Slot): Option<Event> {
    if b.waiting then Some(slot.event) else None
  }

  function Take(b: Box): (r: (Box, Outcome))
    ensures BoxOk(b) ==> BoxOk(r.0)
  {
    if b.queue != [] then
      (b.(queue := b.queue[1..], inFlight := Some(b.queue[0]), handed := b.handed + [b.queue[0]]),
       Delivered(b.queue[0].event))
    else if b.waiting then
      (b.(inFlight := None), Rejected)
    else
      (b.(waiting := true, inFlight := None), Parked)
  }

  /** From `b` to `b'` a slot with the event `e` was handed out, and is in flight. */
  predicate HandsOut(b: Box, b': Box, e: Event) {
    b'.inFlight.Some? && b'.inFlight.value.event == e && b'.handed == b.handed + [b'.inFlight.value]
  }

  /** takeNext answers with an event exactly if that event is handed out by it. */
  lemma TakeAnswersIff(b: Box, e: Event)
    ensures Take(b).1 == Delivered(e) <==> HandsOut(b, Take(b).0, e)
  {
    if b.queue == [] {
      assert |Take(b).0.handed| == |b.handed|;
    }
  }

  /** A push wakes a parked consumer with an event exactly if that event is handed out by it. */
  lemma PushWakesIff(b: Box, slot: Slot, e: Event)
    ensures Wakes(b, slot) == Some(e) <==> HandsOut(b, Offer(b, slot), e)
  {
    if !b.waiting {
      assert |Offer(b, slot).handed| == |b.handed|;
    }
  }

  // ---- Store ----

  function MaxSeq(log: seq<Event>): (m: nat)
    ensures forall e :: e in log ==> e.num <= m
    ensures (log == [] && m == 0) || (exists e :: e in log && e.num == m)
  {
    if log == [] then 0
    else
      var rest := MaxSeq(log[..|log| - 1]);
      var last := log[|log| - 1];
      assert log == log[..|log| - 1] + [last];
      if last.num < rest then rest else last.num
  }

  /** The autoincremented id of the next inbox row. */
  function NextId(rows: seq<Row>): nat {
    if rows == [] then 1 else rows[|rows| - 1].id + 1
  }

  function Consume(rows: seq<Row>, id: nat): (r: seq<Row>)
    ensures |r| == |rows|
  {
    seq(|rows|, i requires 0 <= i < |rows| => if rows[i].id == id then rows[i].(status := Consumed) else rows[i])
  }

  /** The acknowledgement that opens every takeNext. */
  function Ack(rows: seq<Row>, inFlight: Option<Slot>): seq<Row> {
    if inFlight.Some? && inFlight.value.inboxId.Some? then Consume(rows, inFlight.value.inboxId.value) else rows
  }

  function PendingRows(rows: seq<Row>): seq<Row> {
    if rows == [] then []
    else
      var last := rows[|rows| - 1];
      PendingRows(rows[..|rows| - 1]) + if last.status == Pending then [last] else []
  }

  predicate RisingIds(rows: seq<Row>) {
    forall i, j :: 0 <= i < j < |rows| ==> rows[i].id < rows[j].id
  }

  /** They are exactly the rows whose status is pending, in the order of their ids. */
  lemma {:induction false} PendingRowsAre(rows: seq<Row>)
    ensures forall r :: r in PendingRows(rows) <==> r in rows && r.status == Pending
    ensures RisingIds(rows) ==> RisingIds(PendingRows(rows))
  {
    if rows != [] {
      var n := |rows| - 1;
      var before := PendingRows(rows[..n]);
      PendingRowsAre(rows[..n]);
      assert rows == rows[..n] + [rows[n]];
      if RisingIds(rows) {
        forall i | 0 <= i < |before| ensures before[i].id < rows[n].id {
          assert before[i] in rows[..n];
        }
      }
    }
  }

  function Except(rows: seq<Row>, id: nat): seq<Row> {
    if rows == [] then []
    else
      var last := rows[|rows| - 1];
      Except(rows[..|rows| - 1], id) + if last.id == id then [] else [last]
  }

  lemma ExceptSnoc(rows: seq<Row>, row: Row, id: nat)
    ensures Except(rows + [row], id) == Except(rows, id) + if row.id == id then [] else [row]
  {
    assert (rows + [row])[..|rows|] == rows;
  }

  /** A row marked consumed is not loaded again, and every other pending row still is, in its place. */
  lemma {:induction false} ConsumedIsNotLoaded(rows: seq<Row>, id: nat)
    ensures PendingRows(Consume(rows, id)) == Except(PendingRows(rows), id)
  {
    if rows != [] {
      var n := |rows| - 1;
      var before := PendingRows(rows[..n]);
      ConsumedIsNotLoaded(rows[..n], id);
      assert Consume(rows, id)[..n] == Consume(rows[..n], id);
      if rows[n].status == Pending {
        ExceptSnoc(before, rows[n], id);
      } else {
        assert before + [] == before && Except(before, id) + [] == Except(before, id);
      }
    }
  }

  function SlotOf(row: Row): Slot { Slot(row.event, Some(row.id)) }

  // ---- Bus ----

  function Stamp(bus: Bus, d: Draft): Event { Event(bus.counter + 1, d.source, d.target, d.body) }

  /** The log refuses a second event with the same sequence number. */
  predicate Refused(bus: Bus, d: Draft) {
    exists e :: e in bus.log && e.num == bus.counter + 1
  }

  /** First third of publish: count, and append to the log. */
  function LogStep(bus: Bus, d: Draft): Bus {
    bus.(counter := bus.counter + 1, log := bus.log + [Stamp(bus, d)])
  }

  /** Second third of publish: the durable inbox row. */
  function EnqueueStep(bus: Bus, e: Event): Bus {
    bus.(inbox := bus.inbox + [Row(NextId(bus.inbox), e.target, e, Pending)])
  }

  /** Last third of publish: delivery to the mailbox. */
  function PushStep(bus: Bus, slot: Slot): Bus
    requires slot.event.target in bus.boxes
  {
    bus.(boxes := bus.boxes[slot.event.target := Offer(bus.boxes[slot.event.target], slot)])
  }

  /** The whole of publish: the new bus and the id it returns, or none when the log refuses. */
  function Publish(bus: Bus, d: Draft): (Bus, Option<nat>) {
    if Refused(bus, d) then (bus.(counter := bus.counter + 1), None)
    else
      var e := Stamp(bus, d);
      var logged := LogStep(bus, d);
      if d.target !in bus.boxes then (logged, Some(e.num))
      else
        var slot := Slot(e, Some(NextId(bus.inbox)));
        (PushStep(EnqueueStep(logged, e), slot), Some(e.num))
  }

  /** Every publish uses up a number, and the one it returns is that number. */
  lemma PublishAlwaysCounts(bus: Bus, d: Draft)
    ensures
      var (bus', id) := Publish(bus, d);
      && bus'.counter == bus.counter + 1
      && (id == None || id == Some(bus'.counter))
      && (id == None <==> exists e :: e in bus.log && e.num == bus'.counter)
  {
  }

  function TakeFrom(bus: Bus, t: Target): (Bus, Outcome)
    requires t in bus.boxes
  {
    var (box, outcome) := Take(bus.boxes[t]);
    (bus.(inbox := Ack(bus.inbox, bus.boxes[t].inFlight), boxes := bus.boxes[t := box]), outcome)
  }

  /** Delivery of pending rows, in order, to whichever of their targets have a mailbox. */
  function Replay(rows: seq<Row>, boxes: map<Target, Box>): map<Target, Box> {
    if rows == [] then boxes
    else
      var r := rows[0];
      Replay(rows[1..], if r.target in boxes then boxes[r.target := Offer(boxes[r.target], SlotOf(r))] else boxes)
  }

  /** How many of `rows` have a mailbox to go to. */
  function Deliverable(rows: seq<Row>, targets: set<Target>): nat {
    if rows == [] then 0 else (if rows[0].target in targets then 1 else 0) + Deliverable(rows[1..], targets)
  }

  lemma {:induction false} DeliverableSnoc(rows: seq<Row>, r: Row, targets: set<Target>)
    ensures Deliverable(rows + [r], targets) == Deliverable(rows, targets) + if r.target in targets then 1 else 0
  {
    if rows == [] {
      assert [] + [r] == [r];
    } else {
      DeliverableSnoc(rows[1..], r, targets);
      assert (rows + [r])[0] == rows[0] && (rows + [r])[1..] == rows[1..] + [r];
    }
  }

  function Positions(rows: seq<Row>, targets: set<Target>): set<nat> {
    set i: nat | i < |rows| && rows[i].target in targets
  }

  lemma PositionsSnoc(rows: seq<Row>, r: Row, targets: set<Target>)
    ensures |rows| !in Positions(rows, targets)
    ensures Positions(rows + [r], targets) == Positions(rows, targets) + if r.target in targets then {|rows|} else {}
  {
    assert forall i: nat :: i < |rows| ==> (rows + [r])[i] == rows[i];
  }

  /** That is the number of positions whose target is one of them. */
  lemma {:induction false} DeliverableIs(rows: seq<Row>, targets: set<Target>)
    ensures Deliverable(rows, targets) == |Positions(rows, targets)|
  {
    if rows == [] {
      assert Positions(rows, targets) == {};
    } else {
      var before, last := rows[..|rows| - 1], rows[|rows| - 1];
      assert rows == before + [last];
      DeliverableIs(before, targets);
      DeliverableSnoc(before, last, targets);
      PositionsSnoc(before, last, targets);
    }
  }

  /** The rows from the `i`-th on, one at a time. */
  lemma NextReplay(rows: seq<Row>, i: nat, boxes: map<Target, Box>, targets: set<Target>)
    requires i < |rows|
    ensures
      var r := rows[i];
      var next := if r.target in boxes then boxes[r.target := Offer(boxes[r.target], SlotOf(r))] else boxes;
      && Replay(rows[i..], boxes) == Replay(rows[i + 1..], next)
      && Deliverable(rows[i..], targets) == (if r.target in targets then 1 else 0) + Deliverable(rows[i + 1..], targets)
  {
    assert rows[i..][0] == rows[i] && rows[i..][1..] == rows[i + 1..];
  }

  function Recover(bus: Bus): Bus {
    bus.(boxes := Replay(PendingRows(bus.inbox), bus.boxes))
  }
}
