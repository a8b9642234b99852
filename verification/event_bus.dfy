/** The event bus, its mailboxes and its tables, as the objects they are. */
module EventBus {
  import opened Common
  import opened Delivery

  /** The two tables of the database the bus writes: the event log and the inbox. */
  class EventStore {
    var events: seq<Event>
    var inbox: seq<Row>

    constructor ()
      ensures events == [] && inbox == []
    {
      events, inbox := [], [];
    }

    /** Highest sequence number in the log, 0 for an empty log. */
    method HighestSeq() returns (m: nat)
      ensures m == MaxSeq(events)
    {
      m := MaxSeq(events);
    }

    /** The event number is the primary key: a second insert with the same number fails and changes nothing. */
    method Append(event: Event) returns (ok: bool)
      modifies this`events
      ensures ok <==> !(exists e :: e in old(events) && e.num == event.num)
      ensures events == if ok then old(events) + [event] else old(events)
    {
      ok := forall e :: e in events ==> e.num != event.num;
      if ok {
        events := events + [event];
      }
    }

    method Enqueue(target: Target, event: Event) returns (id: nat)
      modifies this`inbox
      ensures id == NextId(old(inbox))
      ensures inbox == old(inbox) + [Row(id, target, event, Pending)]
    {
      id := NextId(inbox);
      inbox := inbox + [Row(id, target, event, Pending)];
    }

    /** From now on that row is not loaded; all others are as they were. */
    method MarkConsumed(inboxId: nat)
      modifies this`inbox
      ensures inbox == Consume(old(inbox), inboxId)
      ensures PendingRows(inbox) == Except(PendingRows(old(inbox)), inboxId)
      ensures forall i :: 0 <= i < |inbox| && inbox[i].id != inboxId ==> inbox[i] == old(inbox)[i]
    {
      ConsumedIsNotLoaded(inbox, inboxId);
      inbox := Consume(inbox, inboxId);
    }

    /** Pending rows, oldest first. */
    method LoadPending() returns (rows: seq<Row>)
      ensures rows == PendingRows(inbox)
      ensures forall r :: r in rows <==> r in inbox && r.status == Pending
      ensures RisingIds(inbox) ==> RisingIds(rows)
    {
      rows := PendingRows(inbox);
      PendingRowsAre(inbox);
    }
  }

  class Mailbox {
    /** Where a delivered inbox row is marked consumed. */
    const store: EventStore
    var queue: seq<Slot>
    var waiting: bool
    var inFlight: Option<Slot>
    ghost var handed: seq<Slot>

    ghost function View(): Box
      reads this
    {
      Box(queue, waiting, inFlight, handed)
    }

    constructor (store: EventStore)
      ensures this.store == store && View() == EMPTY_BOX
    {
      this.store := store;
      queue, waiting, inFlight, handed := [], false, None, [];
    }

    /** `resolved` is the event a parked consumer wakes up with, if one was parked. */
    method Push(event: Event, inboxId: Option<nat>) returns (resolved: Option<Event>)
      modifies this
      ensures View() == Offer(old(View()), Slot(event, inboxId))
      ensures resolved == Wakes(old(View()), Slot(event, inboxId))
    {
      var slot := Slot(event, inboxId);
      if waiting {
        waiting := false;
        inFlight := Some(slot);
        handed := handed + [slot];
        return Some(event);
      }
      queue := queue + [slot];
      resolved := None;
    }

    method TakeNext() returns (outcome: Outcome)
      modifies this, store`inbox
      ensures View() == Take(old(View())).0 && outcome == Take(old(View())).1
      ensures store.inbox == Ack(old(store.inbox), old(inFlight))
    {
      AckInFlight();
      if |queue| > 0 {
        var slot := queue[0];
        queue := queue[1..];
        inFlight := Some(slot);
        handed := handed + [slot];
        return Delivered(slot.event);
      }
      if waiting {
        return Rejected;
      }
      waiting := true;
      outcome := Parked;
    }

    method AckInFlight()
      modifies this`inFlight, store`inbox
      ensures inFlight == None
      ensures store.inbox == Ack(old(store.inbox), old(inFlight))
    {
      if inFlight.Some? && inFlight.value.inboxId.Some? {
        store.MarkConsumed(inFlight.value.inboxId.value);
      }
      inFlight := None;
    }
  }

  class EventBus {
    const store: EventStore
    var counter: nat
    var mailboxes: map<Target, Mailbox>

    /** Every target has a mailbox of its own, acknowledging to the bus's own store. */
    ghost predicate Valid()
      reads this, mailboxes.Values
    {
      && (forall t :: t in mailboxes ==> mailboxes[t].store == store)
      && (forall t, u :: t in mailboxes && u in mailboxes && t != u ==> mailboxes[t] != mailboxes[u])
    }

    ghost function Boxes(): map<Target, Box>
      reads this`mailboxes, mailboxes.Values
    {
      map t | t in mailboxes :: mailboxes[t].View()
    }

    ghost function View(): Bus
      reads this, store, mailboxes.Values
    {
      Bus(store.events, store.inbox, counter, Boxes())
    }

    constructor (store: EventStore)
      ensures Valid() && this.store == store && mailboxes == map[]
      ensures View() == Bus(store.events, store.inbox, MaxSeq(store.events), map[])
    {
      this.store := store;
      mailboxes := map[];
      new;
      counter := store.HighestSeq();
    }

    method Subscribe(id: Target) returns (mailbox: Mailbox)
      requires Valid()
      modifies this`mailboxes
      ensures Valid() && fresh(mailbox) && mailboxes == old(mailboxes)[id := mailbox]
      ensures View() == old(View()).(boxes := old(View()).boxes[id := EMPTY_BOX])
    {
      mailbox := new Mailbox(store);
      mailboxes := mailboxes[id := mailbox];
      assert Boxes() == old(Boxes())[id := EMPTY_BOX];
    }

    method Unsubscribe(id: Target)
      requires Valid()
      modifies this`mailboxes
      ensures Valid()
      ensures View() == old(View()).(boxes := old(View()).boxes - {id})
    {
      mailboxes := mailboxes - {id};
      assert Boxes() == old(Boxes()) - {id};
    }

    /** The id returned is none when the log refuses the event, which makes the source throw. */
    method Publish(d: Draft) returns (id: Option<nat>)
      requires Valid()
      modifies this`counter, store, mailboxes.Values
      ensures Valid() && mailboxes == old(mailboxes)
      ensures View() == Delivery.Publish(old(View()), d).0 && id == Delivery.Publish(old(View()), d).1
    {
      ghost var before := View();
      counter := counter + 1;
      var envelope := Event(counter, d.source, d.target, d.body);
      var ok := store.Append(envelope);
      assert ok <==> !Refused(before, d);
      assert Boxes() == before.boxes;
      if !ok {
        return None;
      }
      assert View() == LogStep(before, d);
      if envelope.target in mailboxes {
        var inboxId := store.Enqueue(envelope.target, envelope);
        var _ := Deliver(envelope.target, envelope, inboxId);
      }
      id := Some(envelope.num);
    }

    /** A push into one target's mailbox leaves every other mailbox as it was. */
    method Deliver(id: Target, event: Event, inboxId: nat) returns (woken: Option<Event>)
      requires Valid() && id in mailboxes
      modifies mailboxes[id]
      ensures Valid()
      ensures Boxes() == old(Boxes())[id := Offer(old(Boxes())[id], Slot(event, Some(inboxId)))]
      ensures woken == Wakes(old(Boxes())[id], Slot(event, Some(inboxId)))
    {
      woken := mailboxes[id].Push(event, Some(inboxId));
    }

    /** A consumer's takeNext on its own mailbox, seen from the bus. */
    method TakeNext(id: Target) returns (outcome: Outcome)
      requires Valid() && id in mailboxes
      modifies store`inbox, mailboxes[id]
      ensures Valid()
      ensures View() == TakeFrom(old(View()), id).0 && outcome == TakeFrom(old(View()), id).1
    {
      ghost var box := mailboxes[id].View();
      outcome := mailboxes[id].TakeNext();
      assert Boxes() == old(Boxes())[id := Take(box).0];
    }

    method Recover() returns (replayed: nat)
      requires Valid()
      modifies mailboxes.Values
      ensures Valid()
      ensures View() == Delivery.Recover(old(View()))
      ensures replayed == Deliverable(PendingRows(store.inbox), mailboxes.Keys)
    {
      replayed := 0;
      var rows := store.LoadPending();
      for i := 0 to |rows|
        invariant Valid()
        invariant Replay(rows[i..], Boxes()) == Replay(rows, old(Boxes()))
        invariant replayed + Deliverable(rows[i..], mailboxes.Keys) == Deliverable(rows, mailboxes.Keys)
      {
        var row := rows[i];
        ghost var boxes := Boxes();
        NextReplay(rows, i, boxes, mailboxes.Keys);
        assert boxes.Keys == mailboxes.Keys;
        if row.target in mailboxes {
          var _ := Deliver(row.target, row.event, row.id);
          replayed := replayed + 1;
        }
        assert Boxes() ==
          if row.target in boxes then boxes[row.target := Offer(boxes[row.target], SlotOf(row))] else boxes;
      }
      assert rows[|rows|..] == [];
    }
  }
}
