/** What consumers are answered with: the events that takeNext returns or that wake a parked one. */
module Answers {
  import opened Common
  import opened Delivery
  import opened DeliveryRuns

  function Events(slots: seq<Slot>): seq<Event> {
    seq(|slots|, i requires 0 <= i < |slots| => slots[i].event)
  }

  function Said(woken: Option<Event>): seq<Event> {
    if woken.Some? then [woken.value] else []
  }

  function Answer(outcome: Outcome): seq<Event> {
    if outcome.Delivered? then [outcome.event] else []
  }

  lemma TakeAnswer(b: Box)
    ensures Events(Take(b).0.handed) == Events(b.handed) + Answer(Take(b).1)
  {
    if Take(b).1.Delivered? {
      TakeAnswersIff(b, Take(b).1.event);
    } else {
      assert Take(b).0.handed == b.handed;
    }
  }

  lemma PushAnswer(b: Box, slot: Slot)
    ensures Events(Offer(b, slot).handed) == Events(b.handed) + Said(Wakes(b, slot))
  {
    if Wakes(b, slot).Some? {
      PushWakesIff(b, slot, Wakes(b, slot).value);
    } else {
      assert Offer(b, slot).handed == b.handed;
    }
  }

  // ---- One mailbox ----

  /** The events a mailbox answers a list of calls with, in order. */
  function Answered(calls: seq<MailboxCall>): seq<Event> {
    if calls == [] then []
    else
      var before := calls[..|calls| - 1];
      Answered(before) +
      match calls[|calls| - 1] {
        case Offered(slot) => Said(Wakes(Played(before).0, slot))
        case Taken => Answer(Take(Played(before).0).1)
      }
  }

  lemma {:induction false} AnsweredIsHanded(calls: seq<MailboxCall>)
    ensures Answered(calls) == Events(Played(calls).0.handed)
  {
    if calls != [] {
      var before := calls[..|calls| - 1];
      AnsweredIsHanded(before);
      match calls[|calls| - 1]
      case Offered(slot) => PushAnswer(Played(before).0, slot);
      case Taken => TakeAnswer(Played(before).0);
    }
  }

  lemma EventsConcat(a: seq<Slot>, b: seq<Slot>)
    ensures Events(a + b) == Events(a) + Events(b)
  {
  }

  /** Under any calls, the events answered and then those still queued are the events pushed, in order. */
  lemma MailboxAnswersInOrder(calls: seq<MailboxCall>)
    ensures Answered(calls) + Events(Played(calls).0.queue) == Events(OfferedSlots(calls))
  {
    AnsweredIsHanded(calls);
    MailboxIsFifo(calls);
    EventsConcat(Played(calls).0.handed, Played(calls).0.queue);
  }

  // ---- Runs ----

  /** The events that a replay wakes the parked consumer of `t` with. */
  function ReplayWakes(rows: seq<Row>, boxes: map<Target, Box>, t: Target): seq<Event> {
    if rows == [] then []
    else
      var r := rows[0];
      var next := if r.target in boxes then boxes[r.target := Offer(boxes[r.target], SlotOf(r))] else boxes;
      (if r.target == t && t in boxes then Said(Wakes(boxes[t], SlotOf(r))) else []) + ReplayWakes(rows[1..], next, t)
  }

  /** What an action answers the consumers of `t` with. */
  function AnsweredBy(w: World, a: Action, t: Target): seq<Event>
    requires Possible(w, a)
  {
    match a
    case TakeNext(u) => if u == t then Answer(TakeFrom(w.bus, t).1) else []
    case Push =>
      var slot := w.publication.slot;
      if slot.event.target == t then Said(Wakes(w.bus.boxes[t], slot)) else []
    case RecoverPending => ReplayWakes(PendingRows(w.bus.inbox), w.bus.boxes, t)
    case _ => []
  }

  /** Everything a run has answered the consumers of `t` with, in order. */
  function Answers(run: seq<Action>, t: Target): seq<Event>
    requires Exec(run).Some?
  {
    if run == [] then []
    else
      var n := |run| - 1;
      Answers(run[..n], t) + AnsweredBy(Exec(run[..n]).value, run[n], t)
  }

  lemma {:induction false} ReplayAnswers(rows: seq<Row>, boxes: map<Target, Box>, t: Target)
    requires t in boxes
    ensures t in Replay(rows, boxes)
    ensures Events(Replay(rows, boxes)[t].handed) == Events(boxes[t].handed) + ReplayWakes(rows, boxes, t)
  {
    if rows != [] {
      var r := rows[0];
      var next := if r.target in boxes then boxes[r.target := Offer(boxes[r.target], SlotOf(r))] else boxes;
      ReplayAnswers(rows[1..], next, t);
      PushAnswer(boxes[t], SlotOf(r));
    }
  }

  lemma {:induction false} NobodyToWake(rows: seq<Row>, boxes: map<Target, Box>, t: Target)
    requires t !in boxes
    ensures ReplayWakes(rows, boxes, t) == []
  {
    if rows != [] {
      var r := rows[0];
      var offered := if r.target in boxes then boxes[r.target := Offer(boxes[r.target], SlotOf(r))] else boxes;
      NobodyToWake(rows[1..], offered, t);
    }
  }

  lemma RecoveryAnswers(w: World, t: Target)
    requires Possible(w, RecoverPending)
    ensures
      Events(HandedTo(Apply(w, RecoverPending), t)) == Events(HandedTo(w, t)) + AnsweredBy(w, RecoverPending, t)
  {
    var w' := Apply(w, RecoverPending);
    if t in w.bus.boxes {
      ReplayAnswers(PendingRows(w.bus.inbox), w.bus.boxes, t);
      EventsConcat(Earlier(w, t), w.bus.boxes[t].handed);
      EventsConcat(Earlier(w, t), w'.bus.boxes[t].handed);
    } else {
      NobodyToWake(PendingRows(w.bus.inbox), w.bus.boxes, t);
      ReplayAt(PendingRows(w.bus.inbox), w.bus.boxes, t);
    }
  }

  lemma TakingAnswers(w: World, u: Target, t: Target)
    requires Possible(w, TakeNext(u))
    ensures Events(HandedTo(Apply(w, TakeNext(u)), t)) == Events(HandedTo(w, t)) + AnsweredBy(w, TakeNext(u), t)
  {
    if u == t {
      TakeAnswer(w.bus.boxes[t]);
      EventsConcat(Earlier(w, t), w.bus.boxes[t].handed);
      EventsConcat(Earlier(w, t), Take(w.bus.boxes[t]).0.handed);
    } else {
      assert HandedTo(Apply(w, TakeNext(u)), t) == HandedTo(w, t);
    }
  }

  lemma PushingAnswers(w: World, t: Target)
    requires Possible(w, Push)
    ensures Events(HandedTo(Apply(w, Push), t)) == Events(HandedTo(w, t)) + AnsweredBy(w, Push, t)
  {
    var slot := w.publication.slot;
    if slot.event.target == t {
      PushAnswer(w.bus.boxes[t], slot);
      EventsConcat(Earlier(w, t), w.bus.boxes[t].handed);
      EventsConcat(Earlier(w, t), Offer(w.bus.boxes[t], slot).handed);
    } else {
      assert HandedTo(Apply(w, Push), t) == HandedTo(w, t);
    }
  }

  /** Every step adds to the hand-outs what it answers, and nothing else. */
  lemma StepAnswers(w: World, a: Action, t: Target)
    requires Inv(w) && Possible(w, a)
    ensures Events(HandedTo(Apply(w, a), t)) == Events(HandedTo(w, t)) + AnsweredBy(w, a, t)
  {
    match a
    case RecoverPending => RecoveryAnswers(w, t);
    case TakeNext(u) => TakingAnswers(w, u, t);
    case Push => PushingAnswers(w, t);
    case _ => assert HandedTo(Apply(w, a), t) == HandedTo(w, t);
  }

  /** The hand-outs recorded for a target are what its consumers were answered with. */
  lemma {:induction false} AnswersAreHanded(run: seq<Action>, t: Target)
    requires Exec(run).Some?
    ensures Answers(run, t) == Events(HandedTo(Exec(run).value, t))
  {
    if run != [] {
      var n := |run| - 1;
      AnswersAreHanded(run[..n], t);
      EveryRunKeeps(run[..n]);
      StepAnswers(Exec(run[..n]).value, run[n], t);
    }
  }

  // ---- Events in the inbox ----

  /** Inbox rows hold events with rising numbers, and a logged event still to be queued comes after them. */
  predicate Rises(w: World) {
    && (forall i, j :: 0 <= i < j < |w.bus.inbox| ==> w.bus.inbox[i].event.num < w.bus.inbox[j].event.num)
    && (w.publication.Logged? ==>
          forall i :: 0 <= i < |w.bus.inbox| ==> w.bus.inbox[i].event.num < w.publication.event.num)
  }

  lemma InboxNumbers(w: World, i: nat)
    requires Inv(w) && i < |w.bus.inbox|
    ensures w.bus.inbox[i].event.num <= |w.bus.log|
  {
    var e := w.bus.inbox[i].event;
    assert e in w.bus.log;
    var k :| 0 <= k < |w.bus.log| && w.bus.log[k] == e;
  }

  lemma StepRises(w: World, a: Action)
    requires Inv(w) && Possible(w, a) && Disciplined(w, a) && Rises(w)
    ensures Rises(Apply(w, a))
  {
    if a.Append? {
      forall i | 0 <= i < |w.bus.inbox| ensures w.bus.inbox[i].event.num <= |w.bus.log| {
        InboxNumbers(w, i);
      }
    }
  }

  lemma {:induction false} RunsRise(run: seq<Action>)
    requires Exec(run).Some?
    ensures Rises(Exec(run).value)
  {
    if run != [] {
      var n := |run| - 1;
      RunsRise(run[..n]);
      EveryRunKeeps(run[..n]);
      StepRises(Exec(run[..n]).value, run[n]);
    }
  }

  /** The slots differ in their events. */
  predicate Telling(s: seq<Slot>) {
    forall x, y :: x in s && y in s && x.event == y.event ==> x == y
  }

  lemma EventsMembers(s: seq<Slot>, x: Slot)
    requires Telling(s + [x])
    ensures x.event in Events(s) <==> x in s
  {
    if x.event in Events(s) {
      var i :| 0 <= i < |s| && Events(s)[i] == x.event;
      assert s[i] in s + [x] && x in s + [x];
    }
    if x in s {
      var i :| 0 <= i < |s| && s[i] == x;
      assert Events(s)[i] == x.event;
    }
  }

  lemma {:induction false} DistinctEvents(s: seq<Slot>)
    requires Telling(s)
    ensures Distinct(Events(s)) == Events(Distinct(s))
  {
    if s != [] {
      var before, x := s[..|s| - 1], s[|s| - 1];
      assert s == before + [x];
      DistinctEvents(before);
      EventsMembers(before, x);
      DistinctMembers(before);
      DistinctMembers(Events(before));
      EventsConcat(before, [x]);
      DistinctSnoc(Events(before), x.event);
      DistinctSnoc(before, x);
      EventsConcat(Distinct(before), [x]);
    }
  }

  lemma HandedTell(w: World, t: Target)
    requires Inv(w) && Rises(w)
    ensures Telling(HandedTo(w, t))
  {
    assert TargetOk(w, t);
    var rows, handed := RowsFor(w.bus.inbox, t), HandedTo(w, t);
    DistinctMembers(handed);
    RowsForMembers(w.bus.inbox, t);
    forall x, y | x in handed && y in handed && x.event == y.event ensures x == y {
      var i :| 0 <= i < |Distinct(handed)| && Distinct(handed)[i] == x;
      var j :| 0 <= j < |Distinct(handed)| && Distinct(handed)[j] == y;
      assert rows[i] in w.bus.inbox && rows[j] in w.bus.inbox;
      SameEventSameRow(w, rows[i], rows[j]);
    }
  }

  lemma SameEventSameRow(w: World, r: Row, s: Row)
    requires Rises(w) && r in w.bus.inbox && s in w.bus.inbox && r.event == s.event
    ensures r == s
  {
    var i :| 0 <= i < |w.bus.inbox| && w.bus.inbox[i] == r;
    var j :| 0 <= j < |w.bus.inbox| && w.bus.inbox[j] == s;
  }

  lemma EventsPrefix(a: seq<Slot>, b: seq<Slot>)
    requires a <= b
    ensures Events(a) <= Events(b)
  {
  }

  /**
   * At least once and in order, for what consumers really get: with repeats dropped,
   * the events answered to a target's consumers are a prefix of the events of its inbox
   * rows in id order, at most one ahead of the rows marked consumed.
   */
  lemma AnswersFollowTheInbox(run: seq<Action>, t: Target)
    requires Exec(run).Some?
    ensures
      var rows := RowsFor(Exec(run).value.bus.inbox, t);
      var answers := Distinct(Answers(run, t));
      && answers <= Events(Slots(rows))
      && AckedCount(rows) <= |answers| <= AckedCount(rows) + 1
  {
    var w := Exec(run).value;
    EveryRunKeeps(run);
    RunsRise(run);
    AnswersAreHanded(run, t);
    HandedTell(w, t);
    DistinctEvents(HandedTo(w, t));
    HandOutsFollowTheInbox(run, t);
    EventsPrefix(Distinct(HandedTo(w, t)), Slots(RowsFor(w.bus.inbox, t)));
  }

  // ---- A consumer that keeps coming back ----

  /** What `n` calls of takeNext come to. */
  function Outcomes(w: World, t: Target, n: nat): seq<Outcome>
    requires Possible(w, TakeNext(t))
    decreases n
  {
    if n == 0 then [] else [TakeFrom(w.bus, t).1] + Outcomes(Apply(w, TakeNext(t)), t, n - 1)
  }

  function Deliveries(queue: seq<Slot>): seq<Outcome> {
    seq(|queue|, i requires 0 <= i < |queue| => Delivered(queue[i].event))
  }

  /** It is answered with every queued event in order, and then parked. */
  lemma {:induction false} ReturningConsumerIsAnswered(w: World, t: Target)
    requires Inv(w) && w.phase == Running && Possible(w, TakeNext(t)) && !w.bus.boxes[t].waiting
    ensures
      var queue := w.bus.boxes[t].queue;
      Outcomes(w, t, |queue| + 1) == Deliveries(queue) + [Parked]
    decreases |w.bus.boxes[t].queue|
  {
    var queue := w.bus.boxes[t].queue;
    var next := Apply(w, TakeNext(t));
    TakeOne(w, t);
    if queue == [] {
      assert Outcomes(next, t, 0) == [];
    } else {
      TakeAnswersIff(w.bus.boxes[t], queue[0].event);
      ReturningConsumerIsAnswered(next, t);
      assert Deliveries(queue) == [Delivered(queue[0].event)] + Deliveries(queue[1..]);
    }
  }
}
