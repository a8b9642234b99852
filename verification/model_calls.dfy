/** The cap on open model calls: a counter of free slots and a list of waiters. */
module ModelSlots {
  import opened Common

  datatype Slots = Slots(available: nat, waiters: seq<nat>)

  function Acquired(s: Slots, call: nat): (Slots, bool) {
    if s.available > 0 then (s.(available := s.available - 1), true)
    else (s.(waiters := s.waiters + [call]), false)
  }

  /** A freed slot goes straight to the first waiter; only without one does it return to the pool. */
  function Released(s: Slots): (Slots, Option<nat>) {
    if s.waiters != [] then (s.(waiters := s.waiters[1..]), Some(s.waiters[0]))
    else (s.(available := s.available + 1), None)
  }

  function Cap(maxConcurrency: int): (cap: nat)
    ensures cap >= 1 && cap >= maxConcurrency
    ensures cap == 1 || cap == maxConcurrency
  {
    if maxConcurrency < 1 then 1 else maxConcurrency
  }

  class Semaphore {
    var available: nat
    var waiters: seq<nat>

    ghost function View(): Slots
      reads this
    {
      Slots(available, waiters)
    }

    constructor (maxConcurrency: int)
      ensures View() == Slots(Cap(maxConcurrency), [])
    {
      available := Cap(maxConcurrency);
      waiters := [];
    }

    /** A call that gets no slot at once is parked until `Release` names it. */
    method Acquire(call: nat) returns (granted: bool)
      modifies this
      ensures View() == Acquired(old(View()), call).0 && granted == Acquired(old(View()), call).1
    {
      if available > 0 {
        available := available - 1;
        return true;
      }
      waiters := waiters + [call];
      granted := false;
    }

    method Release() returns (next: Option<nat>)
      modifies this
      ensures View() == Released(old(View())).0 && next == Released(old(View())).1
    {
      if |waiters| > 0 {
        next := Some(waiters[0]);
        waiters := waiters[1..];
      } else {
        available := available + 1;
        next := None;
      }
    }
  }
}

/** Every interleaving of model calls, with the times at which they ask for and get a slot. */
module ModelCalls {
  import opened Common
  import opened Division
  import opened ModelSlots
  import opened KeyPool
  import opened RateLimit

  /**
   * `holders` have been given a slot and have not ended; those that have also
   * resumed after the handover are `running`.  `requested` and `granted` are in
   * order of time; `asked` and `fired` say when.
   */
  datatype World = World(slots: Slots, now: int, holders: set<nat>, running: set<nat>, ended: set<nat>,
                         requested: seq<nat>, granted: seq<nat>, asked: map<nat, int>, fired: map<nat, int>)

  /** A call ends whether it returns or throws. */
  datatype Action = Ask(call: nat, at: int) | Resume(call: nat) | End(call: nat, at: int)

  predicate Possible(w: World, a: Action) {
    match a
    case Ask(call, at) => call !in w.requested && w.now <= at
    case Resume(call) => call in w.holders && call !in w.running
    case End(call, at) => call in w.running && w.now <= at
  }

  function Apply(w: World, a: Action): World
    requires Possible(w, a)
  {
    match a
    case Ask(call, at) =>
      var (slots, granted) := Acquired(w.slots, call);
      var asking := w.(slots := slots, now := at, requested := w.requested + [call], asked := w.asked[call := at]);
      if granted then GiveSlot(asking, call, at) else asking
    case Resume(call) =>
      w.(running := w.running + {call})
    case End(call, at) =>
      var (slots, next) := Released(w.slots);
      var ending := w.(slots := slots, now := at, holders := w.holders - {call},
                       running := w.running - {call}, ended := w.ended + {call});
      if next.Some? then GiveSlot(ending, next.value, at) else ending
  }

  function GiveSlot(w: World, call: nat, at: int): World {
    w.(holders := w.holders + {call}, granted := w.granted + [call], fired := w.fired[call := at])
  }

  function Idle(cap: nat, start: int): World {
    World(Slots(cap, []), start, {}, {}, {}, [], [], map[], map[])
  }

  function Exec(cap: nat, start: int, run: seq<Action>): Option<World> {
    if run == [] then Some(Idle(cap, start))
    else
      var before := Exec(cap, start, run[..|run| - 1]);
      if before.Some? && Possible(before.value, run[|run| - 1])
      then Some(Apply(before.value, run[|run| - 1])) else None
  }

  lemma ExecSnoc(cap: nat, start: int, run: seq<Action>, a: Action)
    ensures
      Exec(cap, start, run + [a]) ==
        (var before := Exec(cap, start, run);
         if before.Some? && Possible(before.value, a) then Some(Apply(before.value, a)) else None)
  {
    assert (run + [a])[..|run|] == run;
  }

  /** Who holds slots, and in which order they got them. */
  ghost predicate SlotsOk(cap: nat, w: World) {
    && |w.holders| + w.slots.available == cap
    && (w.slots.waiters != [] ==> w.slots.available == 0)
    && w.requested == w.granted + w.slots.waiters
    && NoRepeats(w.requested)
    && (forall c :: c in w.granted <==> c in w.holders || c in w.ended)
    && w.holders !! w.ended
    && w.running <= w.holders
  }

  /** When they asked for them and got them. */
  ghost predicate TimesOk(w: World) {
    && (forall c :: c in w.asked <==> c in w.requested)
    && (forall c :: c in w.asked ==> w.asked[c] <= w.now)
    && (forall c :: c in w.fired <==> c in w.granted)
    && (forall c :: c in w.fired ==> c in w.asked && w.asked[c] <= w.fired[c] <= w.now)
  }

  ghost predicate Inv(cap: nat, w: World) { SlotsOk(cap, w) && TimesOk(w) }

  lemma AskKeepsSlots(cap: nat, w: World, call: nat, at: int)
    requires SlotsOk(cap, w) && Possible(w, Ask(call, at))
    ensures SlotsOk(cap, Apply(w, Ask(call, at)))
  {
    NoRepeatsSnoc(w.requested, call);
    assert call !in w.granted;
    if w.slots.available > 0 {
      assert w.granted + [] == w.granted;
      assert |w.holders + {call}| == |w.holders| + 1;
      assert w.requested + [call] == w.granted + [call] + [];
    } else {
      assert w.requested + [call] == w.granted + (w.slots.waiters + [call]);
    }
  }

  lemma AskKeepsTimes(cap: nat, w: World, call: nat, at: int)
    requires Inv(cap, w) && Possible(w, Ask(call, at))
    ensures TimesOk(Apply(w, Ask(call, at)))
  {
  }

  lemma NextWaiter(cap: nat, w: World)
    requires SlotsOk(cap, w) && w.slots.waiters != []
    ensures w.slots.waiters[0] !in w.granted && w.slots.waiters[0] in w.requested
  {
    var n := |w.granted|;
    assert w.requested[n] == w.slots.waiters[0];
    assert forall i :: 0 <= i < n ==> w.granted[i] == w.requested[i];
  }

  lemma EndKeepsSlots(cap: nat, w: World, call: nat, at: int)
    requires SlotsOk(cap, w) && Possible(w, End(call, at))
    ensures SlotsOk(cap, Apply(w, End(call, at)))
  {
    assert |w.holders - {call}| == |w.holders| - 1;
    if w.slots.waiters != [] {
      var next := w.slots.waiters[0];
      NextWaiter(cap, w);
      assert |w.holders - {call} + {next}| == |w.holders|;
      assert w.granted + [next] + w.slots.waiters[1..] == w.requested;
    }
  }

  lemma EndKeepsTimes(cap: nat, w: World, call: nat, at: int)
    requires Inv(cap, w) && Possible(w, End(call, at))
    ensures TimesOk(Apply(w, End(call, at)))
  {
    if w.slots.waiters != [] {
      NextWaiter(cap, w);
    }
  }

  lemma AskKeepsInv(cap: nat, w: World, call: nat, at: int)
    requires Inv(cap, w) && Possible(w, Ask(call, at))
    ensures Inv(cap, Apply(w, Ask(call, at)))
  {
    AskKeepsSlots(cap, w, call, at);
    AskKeepsTimes(cap, w, call, at);
  }

  lemma EndKeepsInv(cap: nat, w: World, call: nat, at: int)
    requires Inv(cap, w) && Possible(w, End(call, at))
    ensures Inv(cap, Apply(w, End(call, at)))
  {
    EndKeepsSlots(cap, w, call, at);
    EndKeepsTimes(cap, w, call, at);
  }

  lemma {:induction false} EveryRunKeeps(cap: nat, start: int, run: seq<Action>)
    requires Exec(cap, start, run).Some?
    ensures Inv(cap, Exec(cap, start, run).value)
  {
    if run != [] {
      EveryRunKeeps(cap, start, run[..|run| - 1]);
      var w := Exec(cap, start, run[..|run| - 1]).value;
      match run[|run| - 1]
      case Ask(call, at) =>
        AskKeepsInv(cap, w, call, at);
      case Resume(call) =>
      case End(call, at) =>
        EndKeepsInv(cap, w, call, at);
    }
  }

  /** Slots in use and slots free always make up the cap, and no slot is free while a call waits. */
  lemma SlotsAreConserved(maxConcurrency: int, start: int, run: seq<Action>)
    requires Exec(Cap(maxConcurrency), start, run).Some?
    ensures
      var w := Exec(Cap(maxConcurrency), start, run).value;
      && |w.holders| + w.slots.available == Cap(maxConcurrency)
      && (w.slots.waiters != [] ==> w.slots.available == 0 && w.holders != {})
  {
    EveryRunKeeps(Cap(maxConcurrency), start, run);
  }

  /** Slots are granted in the order in which they were asked for, and to every caller once. */
  lemma SlotsAreGrantedInOrder(cap: nat, start: int, run: seq<Action>)
    requires Exec(cap, start, run).Some?
    ensures
      var w := Exec(cap, start, run).value;
      && w.requested == w.granted + w.slots.waiters
      && NoRepeats(w.requested)
      && (forall c :: c in w.granted <==> c in w.holders || c in w.ended)
  {
    EveryRunKeeps(cap, start, run);
  }

  /** Once no call holds a slot, all calls have ended and the pool is full again. */
  lemma PoolFillsUpAgain(maxConcurrency: int, start: int, run: seq<Action>)
    requires Exec(Cap(maxConcurrency), start, run).Some?
    requires Exec(Cap(maxConcurrency), start, run).value.holders == {}
    ensures
      var w := Exec(Cap(maxConcurrency), start, run).value;
      w.slots == Slots(Cap(maxConcurrency), []) && forall c :: c in w.requested ==> c in w.ended
  {
    EveryRunKeeps(Cap(maxConcurrency), start, run);
  }

  // ---- When calls really fire ----

  /** No call of the run ever had to wait for a slot. */
  predicate NeverQueued(cap: nat, start: int, run: seq<Action>)
    requires Exec(cap, start, run).Some?
  {
    run == [] ||
    (var before := Exec(cap, start, run[..|run| - 1]).value;
     NeverQueued(cap, start, run[..|run| - 1])
     && (run[|run| - 1].Ask? ==> before.slots.available > 0))
  }

  lemma {:induction false} FiredWhenAsked(cap: nat, start: int, run: seq<Action>)
    requires Exec(cap, start, run).Some? && NeverQueued(cap, start, run)
    ensures Exec(cap, start, run).value.fired == Exec(cap, start, run).value.asked
    ensures Exec(cap, start, run).value.slots.waiters == []
  {
    if run != [] {
      FiredWhenAsked(cap, start, run[..|run| - 1]);
    }
  }

  /** How many of the calls on `key` fired in the minute that begins at `from`. */
  function FiredInMinute(grants: seq<Grant>, fired: map<nat, int>, key: nat, from: int): nat {
    if grants == [] then 0
    else
      var n := |grants| - 1;
      FiredInMinute(grants[..n], fired, key, from) +
      if grants[n].key == key && n in fired && from <= fired[n] < from + 60_000 then 1 else 0
  }

  /** The calls of a run ask for their slots at the starts reserved for them. */
  predicate AsksOnTime(w: World, grants: seq<Grant>) {
    forall c :: c in w.asked ==> c < |grants| && w.asked[c] == grants[c].start
  }

  predicate InWindow(time: int, from: int) { from <= time < from + 60_000 }

  /** Calls that only fire in a minute they were due in are no more than the starts reserved in it. */
  lemma {:induction false} FiredCount(grants: seq<Grant>, fired: map<nat, int>, key: nat, from: int)
    requires forall c :: c in fired && c < |grants| && grants[c].key == key && InWindow(fired[c], from) ==>
               InWindow(grants[c].start, from)
    ensures FiredInMinute(grants, fired, key, from) <= InMinute(StartsOn(key, grants), from)
  {
    if grants != [] {
      var n := |grants| - 1;
      FiredCount(grants[..n], fired, key, from);
      assert grants == grants[..n] + [grants[n]];
      StartsOnSnoc(key, grants[..n], grants[n]);
      InMinuteSnoc(StartsOn(key, grants[..n]), grants[n].start, from);
      assert StartsOn(key, grants[..n]) + [] == StartsOn(key, grants[..n]);
      assert n in fired && InWindow(fired[n], from) && grants[n].key == key ==> InWindow(grants[n].start, from);
    }
  }

  lemma InMinuteSnoc(starts: seq<int>, s: int, from: int)
    ensures InMinute(starts + [s], from) == InMinute(starts, from) + if from <= s < from + 60_000 then 1 else 0
  {
    assert (starts + [s])[..|starts|] == starts;
  }

  /** As long as no call has to wait for a slot, the calls themselves keep the rate of the reservations. */
  lemma CallsKeepTheRate(cap: nat, begin: int, run: seq<Action>, keys: nat, rpm: nat, clock: seq<int>, key: nat,
                         from: int)
    requires rpm >= 1 && key < keys && Exec(cap, begin, run).Some? && NeverQueued(cap, begin, run)
    requires AsksOnTime(Exec(cap, begin, run).value, Grants(seq(keys, _ => 0), MinInterval(rpm), clock))
    ensures
      var grants := Grants(seq(keys, _ => 0), MinInterval(rpm), clock);
      FiredInMinute(grants, Exec(cap, begin, run).value.fired, key, from) <= ThrottledRate(rpm)
  {
    var grants := Grants(seq(keys, _ => 0), MinInterval(rpm), clock);
    FiredWhenAsked(cap, begin, run);
    FiredCount(grants, Exec(cap, begin, run).value.fired, key, from);
    MinuteBound(keys, rpm, clock, key, from);
  }

  // ---- How much waiting for a slot can do to the rate ----

  /** The times of the listed calls, in list order, never decrease. */
  predicate Rising(times: map<nat, int>, calls: seq<nat>) {
    && (forall i :: 0 <= i < |calls| ==> calls[i] in times)
    && (forall i, j :: 0 <= i < j < |calls| ==> times[calls[i]] <= times[calls[j]])
  }

  lemma RisingSnoc(times: map<nat, int>, calls: seq<nat>, call: nat, at: int)
    requires Rising(times, calls) && call !in calls
    requires forall i :: 0 <= i < |calls| ==> times[calls[i]] <= at
    ensures Rising(times[call := at], calls + [call])
  {
  }

  /** The first `cap` calls got their slots when they asked. */
  predicate Prompt(cap: nat, w: World) {
    forall i :: 0 <= i < |w.granted| && i < cap ==>
      w.granted[i] in w.fired && w.granted[i] in w.asked && w.fired[w.granted[i]] == w.asked[w.granted[i]]
  }

  /** Slots are asked for and given in order of time, and the first `cap` calls never wait. */
  ghost predicate OrderOk(cap: nat, w: World) {
    Rising(w.asked, w.requested) && Rising(w.fired, w.granted) && Prompt(cap, w)
  }

  /** While a call waits, at least `cap` calls have had their slot. */
  lemma WaitersComeLate(cap: nat, w: World)
    requires SlotsOk(cap, w) && w.slots.waiters != []
    ensures |w.granted| >= cap
  {
    FewerThanListed(w.holders, w.granted);
  }

  lemma GrantedWasRequested(cap: nat, w: World, i: nat)
    requires SlotsOk(cap, w) && i < |w.granted|
    ensures i < |w.requested| && w.requested[i] == w.granted[i] && w.granted[i] in w.requested
  {
    assert w.requested[i] == w.granted[i];
  }

  lemma AskKeepsOrder(cap: nat, w: World, call: nat, at: int)
    requires Inv(cap, w) && OrderOk(cap, w) && Possible(w, Ask(call, at))
    ensures OrderOk(cap, Apply(w, Ask(call, at)))
  {
    forall i | 0 <= i < |w.granted| ensures w.granted[i] != call {
      GrantedWasRequested(cap, w, i);
    }
    forall i | 0 <= i < |w.requested| ensures w.asked[w.requested[i]] <= at {
      assert w.requested[i] in w.requested;
    }
    forall i | 0 <= i < |w.granted| ensures w.fired[w.granted[i]] <= at {
      assert w.granted[i] in w.granted;
    }
    RisingSnoc(w.asked, w.requested, call, at);
    if w.slots.available > 0 {
      RisingSnoc(w.fired, w.granted, call, at);
    }
  }

  lemma EndKeepsOrder(cap: nat, w: World, call: nat, at: int)
    requires Inv(cap, w) && OrderOk(cap, w) && Possible(w, End(call, at))
    ensures OrderOk(cap, Apply(w, End(call, at)))
  {
    if w.slots.waiters != [] {
      WaitersComeLate(cap, w);
      NextWaiter(cap, w);
      forall i | 0 <= i < |w.granted| ensures w.fired[w.granted[i]] <= at {
        assert w.granted[i] in w.granted;
      }
      RisingSnoc(w.fired, w.granted, w.slots.waiters[0], at);
    }
  }

  lemma {:induction false} RunsKeepOrder(cap: nat, start: int, run: seq<Action>)
    requires Exec(cap, start, run).Some?
    ensures OrderOk(cap, Exec(cap, start, run).value)
  {
    if run != [] {
      var before := run[..|run| - 1];
      RunsKeepOrder(cap, start, before);
      EveryRunKeeps(cap, start, before);
      var w := Exec(cap, start, before).value;
      match run[|run| - 1]
      case Ask(call, at) => AskKeepsOrder(cap, w, call, at);
      case Resume(call) =>
      case End(call, at) => EndKeepsOrder(cap, w, call, at);
    }
  }

  predicate Fires(g: Grant, c: nat, fired: map<nat, int>, key: nat, from: int) {
    g.key == key && c in fired && InWindow(fired[c], from)
  }

  /** The calls on `key` that fire in a minute. */
  function FiredThen(grants: seq<Grant>, fired: map<nat, int>, key: nat, from: int): set<nat> {
    set c: nat | c < |grants| && Fires(grants[c], c, fired, key, from)
  }

  lemma FiredThenSnoc(grants: seq<Grant>, fired: map<nat, int>, key: nat, from: int)
    requires grants != []
    ensures
      var n := |grants| - 1;
      && n !in FiredThen(grants[..n], fired, key, from)
      && FiredThen(grants, fired, key, from) ==
           FiredThen(grants[..n], fired, key, from) + if Fires(grants[n], n, fired, key, from) then {n} else {}
  {
    var n := |grants| - 1;
    assert forall c: nat :: c < n ==> grants[..n][c] == grants[c];
  }

  lemma {:induction false} FiredThenCount(grants: seq<Grant>, fired: map<nat, int>, key: nat, from: int)
    ensures FiredInMinute(grants, fired, key, from) == |FiredThen(grants, fired, key, from)|
  {
    if grants == [] {
      assert FiredThen(grants, fired, key, from) == {};
    } else {
      FiredThenCount(grants[..|grants| - 1], fired, key, from);
      FiredThenSnoc(grants, fired, key, from);
    }
  }

  /** The calls on `key` that got their slot after the first `cap` calls. */
  function Latecomers(w: World, grants: seq<Grant>, cap: nat, key: nat): set<nat> {
    set i: nat | cap <= i < |w.granted| && w.granted[i] < |grants| && grants[w.granted[i]].key == key :: w.granted[i]
  }

  /** If one of the first `cap` calls is the first to fire in the minute, all calls that do were due in it. */
  lemma DueInTheMinute(cap: nat, w: World, grants: seq<Grant>, key: nat, from: int, i: nat, c: nat)
    requires Inv(cap, w) && OrderOk(cap, w) && AsksOnTime(w, grants)
    requires i < cap && i < |w.granted| && w.granted[i] in FiredThen(grants, w.fired, key, from)
    requires forall j :: 0 <= j < i ==> w.granted[j] !in FiredThen(grants, w.fired, key, from)
    requires c in FiredThen(grants, w.fired, key, from)
    ensures InWindow(grants[c].start, from)
  {
    assert c in w.granted;
    var j :| 0 <= j < |w.granted| && w.granted[j] == c;
    GrantedWasRequested(cap, w, i);
    GrantedWasRequested(cap, w, j);
  }

  lemma AllLate(cap: nat, w: World, grants: seq<Grant>, key: nat, from: int)
    requires Inv(cap, w)
    requires forall i :: 0 <= i < cap && i < |w.granted| ==> w.granted[i] !in FiredThen(grants, w.fired, key, from)
    ensures FiredThen(grants, w.fired, key, from) <= Latecomers(w, grants, cap, key)
  {
    forall c | c in FiredThen(grants, w.fired, key, from) ensures c in Latecomers(w, grants, cap, key) {
      assert c in w.granted;
      var j :| 0 <= j < |w.granted| && w.granted[j] == c;
    }
  }

  lemma FirstFired(granted: seq<nat>, s: set<nat>, n: nat) returns (i: nat)
    requires n <= |granted| && exists k :: 0 <= k < n && granted[k] in s
    ensures i < n && granted[i] in s && forall j :: 0 <= j < i ==> granted[j] !in s
    decreases n
  {
    if exists k :: 0 <= k < n - 1 && granted[k] in s {
      i := FirstFired(granted, s, n - 1);
    } else {
      i := n - 1;
    }
  }

  /**
   * Calls that ask on time keep the rate of a key in every minute, or are no more
   * than those on that key that got their slot after the first `cap` calls.
   */
  lemma RateOfCalls(cap: nat, begin: int, run: seq<Action>, keys: nat, rpm: nat, clock: seq<int>, key: nat, from: int)
    requires rpm >= 1 && key < keys && Exec(cap, begin, run).Some?
    requires AsksOnTime(Exec(cap, begin, run).value, Grants(seq(keys, _ => 0), MinInterval(rpm), clock))
    ensures
      var grants := Grants(seq(keys, _ => 0), MinInterval(rpm), clock);
      var w := Exec(cap, begin, run).value;
      var count := FiredInMinute(grants, w.fired, key, from);
      count <= ThrottledRate(rpm) || count <= |Latecomers(w, grants, cap, key)|
  {
    var grants := Grants(seq(keys, _ => 0), MinInterval(rpm), clock);
    var w := Exec(cap, begin, run).value;
    var fired := FiredThen(grants, w.fired, key, from);
    FiredThenCount(grants, w.fired, key, from);
    EveryRunKeeps(cap, begin, run);
    RunsKeepOrder(cap, begin, run);
    var first := if cap < |w.granted| then cap else |w.granted|;
    if exists k :: 0 <= k < first && w.granted[k] in fired {
      var i := FirstFired(w.granted, fired, first);
      forall c | c in w.fired && c < |grants| && grants[c].key == key && InWindow(w.fired[c], from)
        ensures InWindow(grants[c].start, from)
      {
        assert c in fired;
        DueInTheMinute(cap, w, grants, key, from, i, c);
      }
      FiredCount(grants, w.fired, key, from);
      MinuteBound(keys, rpm, clock, key, from);
    } else {
      AllLate(cap, w, grants, key, from);
      SubsetCount(fired, Latecomers(w, grants, cap, key));
    }
  }

  // ---- Exactly when the calls of a key keep its rate ----

  /** The calls whose reserved starts are not after `time`. */
  function DueBy(grants: seq<Grant>, time: int): set<nat> {
    set c: nat | c < |grants| && grants[c].start <= time
  }

  /** The calls on `key` that can find all slots taken: more than `cap` calls are due by their starts. */
  function CanBeLate(grants: seq<Grant>, cap: nat, key: nat): set<nat> {
    set c: nat | c < |grants| && grants[c].key == key && |DueBy(grants, grants[c].start)| > cap
  }

  lemma AskedByThen(cap: nat, w: World, grants: seq<Grant>, i: nat)
    requires Inv(cap, w) && OrderOk(cap, w) && AsksOnTime(w, grants) && i < |w.granted|
    ensures w.granted[i] < |grants| && |DueBy(grants, grants[w.granted[i]].start)| > i
  {
    GrantedWasDue(cap, w, grants, i, i);
    var first := w.granted[..i + 1];
    var due := DueBy(grants, grants[w.granted[i]].start);
    forall j | 0 <= j < |first| ensures first[j] in due {
      GrantedWasDue(cap, w, grants, j, i);
    }
    GrantedOnce(cap, w);
    ElementsCount(first);
    SubsetCount(Elements(first), due);
  }

  lemma GrantedWasDue(cap: nat, w: World, grants: seq<Grant>, j: nat, i: nat)
    requires Inv(cap, w) && OrderOk(cap, w) && AsksOnTime(w, grants) && j <= i < |w.granted|
    ensures w.granted[j] < |grants| && w.granted[i] < |grants|
    ensures grants[w.granted[j]].start <= grants[w.granted[i]].start
  {
    GrantedWasRequested(cap, w, j);
    GrantedWasRequested(cap, w, i);
  }

  lemma GrantedOnce(cap: nat, w: World)
    requires SlotsOk(cap, w)
    ensures NoRepeats(w.granted)
  {
    forall i, j | 0 <= i < j < |w.granted| ensures w.granted[i] != w.granted[j] {
      GrantedWasRequested(cap, w, i);
      GrantedWasRequested(cap, w, j);
    }
  }

  lemma LatecomersCanBeLate(cap: nat, w: World, grants: seq<Grant>, key: nat)
    requires Inv(cap, w) && OrderOk(cap, w) && AsksOnTime(w, grants)
    ensures Latecomers(w, grants, cap, key) <= CanBeLate(grants, cap, key)
  {
    forall c | c in Latecomers(w, grants, cap, key) ensures c in CanBeLate(grants, cap, key) {
      var i :| cap <= i < |w.granted| && w.granted[i] == c;
      AskedByThen(cap, w, grants, i);
    }
  }

  // ---- A line of all calls, by their starts, with those on one key behind others that start with them ----

  predicate MayPrecede(grants: seq<Grant>, key: nat, a: nat, b: nat)
    requires a < |grants| && b < |grants|
  {
    grants[a].start < grants[b].start
    || (grants[a].start == grants[b].start && (grants[a].key == key ==> grants[b].key == key))
  }

  predicate InLine(grants: seq<Grant>, key: nat, calls: seq<nat>) {
    && NoRepeats(calls)
    && (forall i :: 0 <= i < |calls| ==> calls[i] < |grants|)
    && (forall i, j :: 0 <= i < j < |calls| ==> MayPrecede(grants, key, calls[i], calls[j]))
  }

  /** `calls` with `c` put in its place. */
  function PutIn(grants: seq<Grant>, key: nat, calls: seq<nat>, c: nat): seq<nat>
    requires c < |grants| && forall i :: 0 <= i < |calls| ==> calls[i] < |grants|
  {
    if calls == [] then [c]
    else
      var n := |calls| - 1;
      if MayPrecede(grants, key, calls[n], c) then calls + [c] else PutIn(grants, key, calls[..n], c) + [calls[n]]
  }

  lemma {:induction false} PutInMembers(grants: seq<Grant>, key: nat, calls: seq<nat>, c: nat)
    requires c < |grants| && forall i :: 0 <= i < |calls| ==> calls[i] < |grants|
    ensures forall x :: x in PutIn(grants, key, calls, c) <==> x in calls || x == c
  {
    if calls != [] {
      var n := |calls| - 1;
      assert calls == calls[..n] + [calls[n]];
      PutInMembers(grants, key, calls[..n], c);
    }
  }

  lemma LineSnoc(grants: seq<Grant>, key: nat, calls: seq<nat>, c: nat)
    requires InLine(grants, key, calls) && c < |grants| && c !in calls
    requires forall x :: x in calls ==> x < |grants| && MayPrecede(grants, key, x, c)
    ensures InLine(grants, key, calls + [c])
  {
    NoRepeatsSnoc(calls, c);
    forall i | 0 <= i < |calls| ensures MayPrecede(grants, key, calls[i], c) {
      assert calls[i] in calls;
    }
  }

  lemma {:induction false} PutInLine(grants: seq<Grant>, key: nat, calls: seq<nat>, c: nat)
    requires InLine(grants, key, calls) && c < |grants| && c !in calls
    ensures InLine(grants, key, PutIn(grants, key, calls, c))
  {
    if calls != [] {
      var n := |calls| - 1;
      if MayPrecede(grants, key, calls[n], c) {
        forall x | x in calls ensures x < |grants| && MayPrecede(grants, key, x, c) {
          var i :| 0 <= i < |calls| && calls[i] == x;
          assert i < n ==> MayPrecede(grants, key, calls[i], calls[n]);
        }
        LineSnoc(grants, key, calls, c);
      } else {
        PutInLine(grants, key, calls[..n], c);
        PutInMembers(grants, key, calls[..n], c);
        LineSnoc(grants, key, PutIn(grants, key, calls[..n], c), calls[n]);
      }
    }
  }

  /** A line of the first `n` calls. */
  lemma {:induction false} LineUp(grants: seq<Grant>, key: nat, n: nat) returns (calls: seq<nat>)
    requires n <= |grants|
    ensures InLine(grants, key, calls) && forall c: nat :: c in calls <==> c < n
  {
    if n == 0 {
      calls := [];
    } else {
      var before := LineUp(grants, key, n - 1);
      PutInLine(grants, key, before, n - 1);
      PutInMembers(grants, key, before, n - 1);
      calls := PutIn(grants, key, before, n - 1);
    }
  }

  // ---- A run that makes as many calls late as there can be ----

  /** The calls ask in line, each at its reserved start. */
  function Asking(grants: seq<Grant>, calls: seq<nat>): seq<Action>
    requires forall i :: 0 <= i < |calls| ==> calls[i] < |grants|
  {
    if calls == [] then []
    else
      var n := |calls| - 1;
      Asking(grants, calls[..n]) + [Ask(calls[n], LastStart(grants, calls))]
  }

  /** After `start`, the first `k` calls in line end, all at the time `stall`. */
  function Ending(start: seq<Action>, calls: seq<nat>, k: nat, stall: int): seq<Action>
    requires k <= |calls|
  {
    if k == 0 then start
    else Ending(start, calls, k - 1, stall) + [Resume(calls[k - 1])] + [End(calls[k - 1], stall)]
  }

  function FirstStart(grants: seq<Grant>, calls: seq<nat>): int
    requires forall i :: 0 <= i < |calls| ==> calls[i] < |grants|
  {
    if calls == [] then 0 else grants[calls[0]].start
  }

  function LastStart(grants: seq<Grant>, calls: seq<nat>): int
    requires forall i :: 0 <= i < |calls| ==> calls[i] < |grants|
  {
    if calls == [] then 0 else grants[calls[|calls| - 1]].start
  }

  /** The whole line has asked, and its first `k` calls have ended; from the `cap`-th on slots were given at `stall`. */
  ghost predicate Drained(cap: nat, w: World, grants: seq<Grant>, calls: seq<nat>, k: nat, stall: int) {
    && Inv(cap, w) && AsksOnTime(w, grants)
    && w.requested == calls && w.running == {} && EndsOnlyFirst(calls, w.ended, k) && LateAt(cap, w, stall)
  }

  lemma GrantedCount(cap: nat, w: World)
    requires Inv(cap, w)
    ensures |w.granted| == |w.holders| + |w.ended|
  {
    GrantedOnce(cap, w);
    ElementsCount(w.granted);
    forall c ensures c in Elements(w.granted) <==> c in w.holders + w.ended {
      assert c in w.granted <==> c in w.holders || c in w.ended;
    }
    DisjointCount(Elements(w.granted), w.holders, w.ended);
  }

  lemma DisjointCount(whole: set<nat>, a: set<nat>, b: set<nat>)
    requires a !! b && forall c :: c in whole <==> c in a + b
    ensures |whole| == |a| + |b|
  {
    assert whole == a + b;
  }

  /** The whole line has asked on time, and nobody has ended. */
  ghost predicate AllAsked(cap: nat, w: World, grants: seq<Grant>, calls: seq<nat>) {
    Inv(cap, w) && AsksOnTime(w, grants) && w.requested == calls && w.running == {} && w.ended == {}
  }

  lemma AskAppends(w: World, c: nat, at: int)
    requires Possible(w, Ask(c, at))
    ensures
      var w' := Apply(w, Ask(c, at));
      && w'.requested == w.requested + [c] && w'.asked == w.asked[c := at] && w'.now == at
      && w'.running == w.running && w'.ended == w.ended
  {
  }

  lemma StillOnTime(w: World, w': World, grants: seq<Grant>, c: nat)
    requires AsksOnTime(w, grants) && c < |grants| && w'.asked == w.asked[c := grants[c].start]
    ensures AsksOnTime(w', grants)
  {
  }

  lemma LastBack(calls: seq<nat>)
    requires calls != []
    ensures calls[..|calls| - 1] + [calls[|calls| - 1]] == calls
  {
  }

  /** The last of `calls` asks after the others. */
  lemma OneMoreAsks(cap: nat, w: World, grants: seq<Grant>, calls: seq<nat>, c: nat, at: int)
    requires calls != [] && c == calls[|calls| - 1] && c !in calls[..|calls| - 1]
    requires AllAsked(cap, w, grants, calls[..|calls| - 1])
    requires c < |grants| && at == grants[c].start && w.now <= at
    ensures Possible(w, Ask(c, at)) && AllAsked(cap, Apply(w, Ask(c, at)), grants, calls)
    ensures Apply(w, Ask(c, at)).now == at
  {
    AskAppends(w, c, at);
    AskKeepsInv(cap, w, c, at);
    StillOnTime(w, Apply(w, Ask(c, at)), grants, c);
    LastBack(calls);
  }

  /** A run from `begin` in which the line has asked. */
  ghost predicate Asks(cap: nat, begin: int, run: seq<Action>, grants: seq<Grant>, calls: seq<nat>)
    requires forall i :: 0 <= i < |calls| ==> calls[i] < |grants|
  {
    && Exec(cap, begin, run).Some? && AllAsked(cap, Exec(cap, begin, run).value, grants, calls)
    && Exec(cap, begin, run).value.now == if calls == [] then begin else LastStart(grants, calls)
  }

  lemma LastInLine(grants: seq<Grant>, key: nat, calls: seq<nat>)
    requires InLine(grants, key, calls) && calls != []
    ensures
      var n := |calls| - 1;
      && InLine(grants, key, calls[..n]) && calls[n] !in calls[..n]
      && (n > 0 ==> LastStart(grants, calls[..n]) <= grants[calls[n]].start)
  {
    var n := |calls| - 1;
    assert n > 0 ==> MayPrecede(grants, key, calls[n - 1], calls[n]);
  }

  /** The last in line asks when the others have. */
  lemma LastAsks(cap: nat, begin: int, run: seq<Action>, grants: seq<Grant>, calls: seq<nat>)
    requires calls != [] && forall i :: 0 <= i < |calls| ==> calls[i] < |grants|
    requires calls[|calls| - 1] !in calls[..|calls| - 1]
    requires Asks(cap, begin, run, grants, calls[..|calls| - 1])
    requires Exec(cap, begin, run).value.now <= LastStart(grants, calls)
    ensures Asks(cap, begin, run + [Ask(calls[|calls| - 1], LastStart(grants, calls))], grants, calls)
  {
    var c, at := calls[|calls| - 1], LastStart(grants, calls);
    OneMoreAsks(cap, Exec(cap, begin, run).value, grants, calls, c, at);
    ExecSnoc(cap, begin, run, Ask(c, at));
  }

  lemma {:induction false} AskingRuns(cap: nat, grants: seq<Grant>, key: nat, calls: seq<nat>, begin: int)
    requires InLine(grants, key, calls) && (calls != [] ==> begin <= FirstStart(grants, calls))
    ensures Asks(cap, begin, Asking(grants, calls), grants, calls)
  {
    if calls != [] {
      LastInLine(grants, key, calls);
      AskingRuns(cap, grants, key, calls[..|calls| - 1], begin);
      LastAsks(cap, begin, Asking(grants, calls[..|calls| - 1]), grants, calls);
    }
  }

  /** Once the whole line has asked nobody has ended, and no more than `cap` calls have slots. */
  lemma AskedIsDrained(cap: nat, w: World, grants: seq<Grant>, calls: seq<nat>, stall: int)
    requires AllAsked(cap, w, grants, calls)
    ensures Drained(cap, w, grants, calls, 0, stall)
  {
    GrantedCount(cap, w);
  }

  /** Next to end is the first in line that has not: it holds a slot. */
  lemma NextHolds(cap: nat, w: World, grants: seq<Grant>, calls: seq<nat>, k: nat, stall: int)
    requires cap >= 1 && Drained(cap, w, grants, calls, k, stall) && k < |calls|
    ensures calls[k] in w.holders
  {
    GrantedCount(cap, w);
    if w.slots.waiters == [] {
      assert w.granted + [] == w.granted;
    }
    assert k < |w.granted|;
    GrantedWasRequested(cap, w, k);
    assert w.granted[k] in w.granted;
  }

  /** No slot is given, or one is, at the time `at`. */
  predicate GivesAtMostOne(w: World, w': World, at: int) {
    || (w'.granted == w.granted && w'.fired == w.fired)
    || (|w'.granted| == |w.granted| + 1 && w'.granted[|w.granted|] !in w.granted
        && w'.granted == w.granted + [w'.granted[|w.granted|]] && w'.fired == w.fired[w'.granted[|w.granted|] := at])
  }

  /** What the end of a call changes: it has ended, and the first waiter, if any, has its slot. */
  lemma EndGives(cap: nat, w: World, call: nat, stall: int)
    requires Inv(cap, w) && call in w.holders && w.running == {} && w.now <= stall
    ensures Possible(w, Resume(call)) && Possible(Apply(w, Resume(call)), End(call, stall))
    ensures
      var w' := Apply(Apply(w, Resume(call)), End(call, stall));
      && Inv(cap, w') && w'.requested == w.requested && w'.asked == w.asked && w'.running == {} && w'.now == stall
      && call !in w.ended && w'.ended == w.ended + {call}
      && GivesAtMostOne(w, w', stall)
  {
    var resumed := Apply(w, Resume(call));
    EndKeepsInv(cap, resumed, call, stall);
    NextGets(cap, resumed, call, stall);
  }

  lemma NextGets(cap: nat, w: World, call: nat, at: int)
    requires Inv(cap, w) && Possible(w, End(call, at))
    ensures GivesAtMostOne(w, Apply(w, End(call, at)), at)
  {
    if w.slots.waiters != [] {
      NextWaiter(cap, w);
      assert Apply(w, End(call, at)).granted == w.granted + [w.slots.waiters[0]];
    }
  }

  lemma OneMoreEnds(cap: nat, w: World, grants: seq<Grant>, calls: seq<nat>, k: nat, stall: int)
    requires cap >= 1 && Drained(cap, w, grants, calls, k, stall) && k < |calls| && w.now <= stall
    ensures Possible(w, Resume(calls[k])) && Possible(Apply(w, Resume(calls[k])), End(calls[k], stall))
    ensures
      var w' := Apply(Apply(w, Resume(calls[k])), End(calls[k], stall));
      Drained(cap, w', grants, calls, k + 1, stall) && w'.now == stall
  {
    NextHolds(cap, w, grants, calls, k, stall);
    EndGives(cap, w, calls[k], stall);
    var w' := Apply(Apply(w, Resume(calls[k])), End(calls[k], stall));
    FiredAtStall(cap, w, w', stall);
    EndedSoFar(calls, w.ended, k);
  }

  predicate EndsOnlyFirst(calls: seq<nat>, ended: set<nat>, k: nat) {
    |ended| == k && forall i :: 0 <= i < |calls| ==> (calls[i] in ended <==> i < k)
  }

  lemma EndedSoFar(calls: seq<nat>, ended: set<nat>, k: nat)
    requires NoRepeats(calls) && k < |calls| && EndsOnlyFirst(calls, ended, k)
    ensures EndsOnlyFirst(calls, ended + {calls[k]}, k + 1)
  {
  }

  /** From the `cap`-th on, slots were given at `stall`. */
  predicate LateAt(cap: nat, w: World, stall: int) {
    forall i :: cap <= i < |w.granted| ==> w.granted[i] in w.fired && w.fired[w.granted[i]] == stall
  }

  lemma FiredAtStall(cap: nat, w: World, w': World, stall: int)
    requires LateAt(cap, w, stall)
    requires GivesAtMostOne(w, w', stall)
    ensures LateAt(cap, w', stall)
  {
  }

  /** A run whose world has come so far. */
  ghost predicate Drains(cap: nat, begin: int, run: seq<Action>, grants: seq<Grant>, calls: seq<nat>, k: nat,
                         stall: int)
  {
    && Exec(cap, begin, run).Some?
    && Drained(cap, Exec(cap, begin, run).value, grants, calls, k, stall)
    && Exec(cap, begin, run).value.now <= stall
  }

  lemma OneMoreEnding(cap: nat, begin: int, run: seq<Action>, grants: seq<Grant>, calls: seq<nat>, k: nat, stall: int)
    requires cap >= 1 && 1 <= k <= |calls| && Drains(cap, begin, run, grants, calls, k - 1, stall)
    ensures Drains(cap, begin, run + [Resume(calls[k - 1])] + [End(calls[k - 1], stall)], grants, calls, k, stall)
  {
    OneMoreEnds(cap, Exec(cap, begin, run).value, grants, calls, k - 1, stall);
    ExecSnoc(cap, begin, run, Resume(calls[k - 1]));
    ExecSnoc(cap, begin, run + [Resume(calls[k - 1])], End(calls[k - 1], stall));
  }

  lemma {:induction false} EndingRuns(cap: nat, begin: int, start: seq<Action>, grants: seq<Grant>, calls: seq<nat>,
                                      k: nat, stall: int)
    requires cap >= 1 && k <= |calls| && Drains(cap, begin, start, grants, calls, 0, stall)
    ensures Drains(cap, begin, Ending(start, calls, k, stall), grants, calls, k, stall)
  {
    if k > 0 {
      EndingRuns(cap, begin, start, grants, calls, k - 1, stall);
      OneMoreEnding(cap, begin, Ending(start, calls, k - 1, stall), grants, calls, k, stall);
    }
  }

  /** Grants that start apart on each key. */
  predicate ApartOnKeys(grants: seq<Grant>) {
    forall i, j :: 0 <= i < j < |grants| && grants[i].key == grants[j].key ==> grants[i].start < grants[j].start
  }

  /** In line behind everyone due by its start, a call that can be late comes after the first `cap`. */
  lemma LateInLine(cap: nat, grants: seq<Grant>, key: nat, calls: seq<nat>, p: nat)
    requires InLine(grants, key, calls) && ApartOnKeys(grants) && p < |calls|
    requires forall c: nat :: c in calls <==> c < |grants|
    requires calls[p] in CanBeLate(grants, cap, key)
    ensures p >= cap
  {
    var due := DueBy(grants, grants[calls[p]].start);
    forall c | c in due ensures c in calls[..p + 1] {
      assert c in calls;
      var q :| 0 <= q < |calls| && calls[q] == c;
      if q > p {
        assert false;
      }
      assert calls[..p + 1][q] == c;
    }
    FewerThanListed(due, calls[..p + 1]);
  }

  /** An on-time run in which all calls on `key` that can be late fire in one moment. */
  ghost predicate Stampede(cap: nat, grants: seq<Grant>, key: nat, begin: int, run: seq<Action>, stall: int) {
    && Exec(cap, begin, run).Some? && AsksOnTime(Exec(cap, begin, run).value, grants)
    && (forall c :: c in CanBeLate(grants, cap, key) ==>
          c in Exec(cap, begin, run).value.fired && Exec(cap, begin, run).value.fired[c] == stall)
  }

  lemma DrainedIsStampede(cap: nat, w: World, grants: seq<Grant>, key: nat, calls: seq<nat>, stall: int)
    requires cap >= 1 && InLine(grants, key, calls) && ApartOnKeys(grants)
    requires forall c: nat :: c in calls <==> c < |grants|
    requires Drained(cap, w, grants, calls, |calls|, stall)
    ensures forall c :: c in CanBeLate(grants, cap, key) ==> c in w.fired && w.fired[c] == stall
  {
    GrantedCount(cap, w);
    assert w.slots.waiters == [];
    assert w.granted == calls;
    forall c | c in CanBeLate(grants, cap, key) ensures c in w.fired && w.fired[c] == stall {
      assert c in calls;
      var p :| 0 <= p < |calls| && calls[p] == c;
      LateInLine(cap, grants, key, calls, p);
    }
  }

  /**
   * Waiting for a slot undoes the spacing: while the first calls stall in all the
   * slots, every call on a key that can be late waits, and then all of them fire at once.
   */
  lemma QueueingUndoesTheSpacing(cap: nat, grants: seq<Grant>, key: nat)
    requires cap >= 1 && ApartOnKeys(grants)
    ensures exists begin, run, stall :: Stampede(cap, grants, key, begin, run, stall)
  {
    var calls := LineUp(grants, key, |grants|);
    var begin, stall := FirstStart(grants, calls), LastStart(grants, calls);
    AskingRuns(cap, grants, key, calls, begin);
    AskedIsDrained(cap, Exec(cap, begin, Asking(grants, calls)).value, grants, calls, stall);
    EndingRuns(cap, begin, Asking(grants, calls), grants, calls, |calls|, stall);
    var run := Ending(Asking(grants, calls), calls, |calls|, stall);
    DrainedIsStampede(cap, Exec(cap, begin, run).value, grants, key, calls, stall);
    assert Stampede(cap, grants, key, begin, run, stall);
  }

  lemma StampedeCount(cap: nat, grants: seq<Grant>, key: nat, begin: int, run: seq<Action>, stall: int)
    requires Stampede(cap, grants, key, begin, run, stall)
    ensures FiredInMinute(grants, Exec(cap, begin, run).value.fired, key, stall) >= |CanBeLate(grants, cap, key)|
  {
    var fired := Exec(cap, begin, run).value.fired;
    FiredThenCount(grants, fired, key, stall);
    SubsetCount(CanBeLate(grants, cap, key), FiredThen(grants, fired, key, stall));
  }

  /** No minute of any on-time run has more calls on `key` than its rate. */
  ghost predicate KeepsTheRate(cap: nat, rpm: nat, grants: seq<Grant>, key: nat)
    requires rpm >= 1
  {
    forall begin, run, from :: Exec(cap, begin, run).Some? && AsksOnTime(Exec(cap, begin, run).value, grants) ==>
      FiredInMinute(grants, Exec(cap, begin, run).value.fired, key, from) <= ThrottledRate(rpm)
  }

  lemma PoolIsApart(keys: nat, rpm: nat, clock: seq<int>)
    requires rpm >= 1 && keys >= 1
    ensures ApartOnKeys(Grants(seq(keys, _ => 0), MinInterval(rpm), clock))
  {
    SameKeyApart(seq(keys, _ => 0), MinInterval(rpm), clock);
  }

  lemma FewLateKeepTheRate(cap: nat, begin: int, run: seq<Action>, keys: nat, rpm: nat, clock: seq<int>, key: nat,
                           from: int)
    requires rpm >= 1 && key < keys && Exec(cap, begin, run).Some?
    requires AsksOnTime(Exec(cap, begin, run).value, Grants(seq(keys, _ => 0), MinInterval(rpm), clock))
    requires |CanBeLate(Grants(seq(keys, _ => 0), MinInterval(rpm), clock), cap, key)| <= ThrottledRate(rpm)
    ensures
      var grants := Grants(seq(keys, _ => 0), MinInterval(rpm), clock);
      FiredInMinute(grants, Exec(cap, begin, run).value.fired, key, from) <= ThrottledRate(rpm)
  {
    var grants := Grants(seq(keys, _ => 0), MinInterval(rpm), clock);
    var w := Exec(cap, begin, run).value;
    EveryRunKeeps(cap, begin, run);
    RunsKeepOrder(cap, begin, run);
    RateOfCalls(cap, begin, run, keys, rpm, clock, key, from);
    LatecomersCanBeLate(cap, w, grants, key);
    SubsetCount(Latecomers(w, grants, cap, key), CanBeLate(grants, cap, key));
  }

  /**
   * For any number of keys, any cap and any clock readings: the calls on a key keep its
   * rate, in every minute of every run that asks on time, exactly if no more of them than
   * the rate are due when more calls are due than there are slots.
   */
  lemma CallsKeepTheRateIff(cap: nat, keys: nat, rpm: nat, clock: seq<int>, key: nat)
    requires rpm >= 1 && cap >= 1 && key < keys
    ensures
      var grants := Grants(seq(keys, _ => 0), MinInterval(rpm), clock);
      KeepsTheRate(cap, rpm, grants, key) <==> |CanBeLate(grants, cap, key)| <= ThrottledRate(rpm)
  {
    var grants := Grants(seq(keys, _ => 0), MinInterval(rpm), clock);
    if |CanBeLate(grants, cap, key)| <= ThrottledRate(rpm) {
      forall begin, run, from | Exec(cap, begin, run).Some? && AsksOnTime(Exec(cap, begin, run).value, grants)
        ensures FiredInMinute(grants, Exec(cap, begin, run).value.fired, key, from) <= ThrottledRate(rpm)
      {
        FewLateKeepTheRate(cap, begin, run, keys, rpm, clock, key, from);
      }
    } else {
      PoolIsApart(keys, rpm, clock);
      QueueingUndoesTheSpacing(cap, grants, key);
      var begin, run, stall :| Stampede(cap, grants, key, begin, run, stall);
      StampedeCount(cap, grants, key, begin, run, stall);
      assert !KeepsTheRate(cap, rpm, grants, key);
    }
  }

  // ---- One key ----

  lemma OnlyKey(rpm: nat, clock: seq<int>, c: nat)
    requires rpm >= 1 && c < |clock|
    ensures Grants([0], MinInterval(rpm), clock)[c].key == 0
  {
    GrantsPrefix([0], MinInterval(rpm), clock, c);
  }

  /** On one key, a call is due by its start together with exactly those reserved before it. */
  lemma DueOnOneKey(rpm: nat, clock: seq<int>, c: nat)
    requires rpm >= 1 && c < |clock|
    ensures
      var grants := Grants([0], MinInterval(rpm), clock);
      |DueBy(grants, grants[c].start)| == c + 1
  {
    var grants := Grants([0], MinInterval(rpm), clock);
    SameKeyApart([0], MinInterval(rpm), clock);
    forall i | 0 <= i < |grants| ensures grants[i].key == 0 {
      OnlyKey(rpm, clock, i);
    }
    forall i: nat | i < |grants| ensures grants[i].start <= grants[c].start <==> i < c + 1 {
      assert i < c ==> grants[i].start <= grants[c].start;
      assert i > c ==> grants[c].start + MinInterval(rpm) <= grants[i].start;
    }
    assert DueBy(grants, grants[c].start) == Below(c + 1);
  }

  lemma LateAfterTheFirst(cap: nat, rpm: nat, clock: seq<int>, c: nat)
    requires rpm >= 1
    ensures c in CanBeLate(Grants([0], MinInterval(rpm), clock), cap, 0) <==> cap <= c < |clock|
  {
    if c < |clock| {
      DueOnOneKey(rpm, clock, c);
      OnlyKey(rpm, clock, c);
    }
  }

  lemma LateOnOneKey(cap: nat, rpm: nat, clock: seq<int>)
    requires rpm >= 1
    ensures |CanBeLate(Grants([0], MinInterval(rpm), clock), cap, 0)| == if |clock| <= cap then 0 else |clock| - cap
  {
    var grants := Grants([0], MinInterval(rpm), clock);
    forall c: nat ensures c in CanBeLate(grants, cap, 0) <==> cap <= c < |clock| {
      LateAfterTheFirst(cap, rpm, clock, c);
    }
    RangeCount(CanBeLate(grants, cap, 0), cap, |clock|);
  }

  lemma RangeCount(s: set<nat>, from: nat, to: nat)
    requires forall c: nat :: c in s <==> from <= c < to
    ensures |s| == if to <= from then 0 else to - from
  {
    if to <= from {
      assert s == {};
    } else {
      assert Below(to) == s + Below(from);
    }
  }

  /** One key's calls keep its rate exactly as long as they are no more than the slots and the rate together. */
  lemma OneKeyKeepsTheRateIff(cap: nat, rpm: nat, clock: seq<int>)
    requires rpm >= 1 && cap >= 1
    ensures KeepsTheRate(cap, rpm, Grants([0], MinInterval(rpm), clock), 0) <==> |clock| <= cap + ThrottledRate(rpm)
  {
    assert seq(1, _ => 0) == [0];
    CallsKeepTheRateIff(cap, 1, rpm, clock, 0);
    LateOnOneKey(cap, rpm, clock);
  }
}
