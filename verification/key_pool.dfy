/** The pool of API keys: reservation of the key that frees up soonest. */
module KeyPool {

  function Max(a: int, b: int): int { if a < b then b else a }

  /** Division rounded up. */
  function CeilDiv(a: nat, b: nat): (q: nat)
    requires b > 0
    ensures a <= q * b < a + b
  {
    var q := (a + b - 1) / b;
    q
  }

  /**
   * Milliseconds between two requests on one key: 60 000 over the larger of 1 and
   * nine tenths of the requests per minute, rounded up.
   */
  function MinInterval(rpm: nat): (interval: nat)
    requires rpm >= 1
    ensures interval >= 1
  {
    if 9 * rpm <= 10 then 60_000 else CeilDiv(600_000, 9 * rpm)
  }

  /** A reserved key and the time its request may start. */
  datatype Grant = Grant(key: nat, start: int)

  predicate IsFirstMin(free: seq<int>, i: nat) {
    && i < |free|
    && (forall k :: 0 <= k < |free| ==> free[i] <= free[k])
    && (forall k :: 0 <= k < i ==> free[i] < free[k])
  }

  function FirstMin(free: seq<int>): (i: nat)
    requires free != []
    ensures IsFirstMin(free, i)
  {
    var n := |free| - 1;
    if n == 0 then 0
    else
      var i := FirstMin(free[..n]);
      if free[n] < free[i] then n else i
  }

  function GrantAt(free: seq<int>, now: int): Grant
    requires free != []
  {
    Grant(FirstMin(free), Max(now, free[FirstMin(free)]))
  }

  function Reserve(free: seq<int>, interval: nat, now: int): seq<int>
    requires free != []
  {
    var g := GrantAt(free, now);
    free[g.key := g.start + interval]
  }

  class Keys {
    const interval: nat
    const nextFreeAt: array<int>

    ghost predicate Valid() reads this { nextFreeAt.Length > 0 }

    /** There is always at least one provider, the default one. */
    constructor (keys: nat, rpm: nat)
      requires keys >= 1 && rpm >= 1
      ensures Valid() && fresh(nextFreeAt) && interval == MinInterval(rpm)
      ensures nextFreeAt[..] == seq(keys, _ => 0)
    {
      interval := MinInterval(rpm);
      nextFreeAt := new int[keys](_ => 0);
    }

    /** `wait` is how long the caller must sleep before it goes on with `key`. */
    method ReserveKey(now: int) returns (key: nat, wait: nat)
      requires Valid()
      modifies nextFreeAt
      ensures Grant(key, now + wait) == GrantAt(old(nextFreeAt[..]), now)
      ensures nextFreeAt[..] == Reserve(old(nextFreeAt[..]), interval, now)
    {
      key := 0;
      for j := 1 to nextFreeAt.Length
        invariant key == FirstMin(nextFreeAt[..j])
      {
        assert nextFreeAt[..j + 1][..j] == nextFreeAt[..j];
        if nextFreeAt[j] < nextFreeAt[key] {
          key := j;
        }
      }
      assert nextFreeAt[..nextFreeAt.Length] == nextFreeAt[..];
      var earliest := Max(now, nextFreeAt[key]);
      nextFreeAt[key] := earliest + interval;
      wait := earliest - now;
    }
  }
}

/** What a run of reservations adds up to. */
module RateLimit {
  import opened Common
  import opened Division
  import opened KeyPool

  /** The next-free times after reservations at the given clock readings. */
  function FreeAfter(free: seq<int>, interval: nat, clock: seq<int>): (r: seq<int>)
    requires free != []
    ensures |r| == |free|
  {
    if clock == [] then free
    else Reserve(FreeAfter(free, interval, clock[..|clock| - 1]), interval, clock[|clock| - 1])
  }

  /** The grants of reservations at the given clock readings, in order. */
  function Grants(free: seq<int>, interval: nat, clock: seq<int>): (r: seq<Grant>)
    requires free != []
    ensures |r| == |clock|
  {
    if clock == [] then []
    else
      Grants(free, interval, clock[..|clock| - 1]) +
      [GrantAt(FreeAfter(free, interval, clock[..|clock| - 1]), clock[|clock| - 1])]
  }

  /** The starts reserved on one key. */
  function StartsOn(key: nat, grants: seq<Grant>): seq<int> {
    if grants == [] then []
    else
      var g := grants[|grants| - 1];
      StartsOn(key, grants[..|grants| - 1]) + if g.key == key then [g.start] else []
  }

  predicate Spaced(starts: seq<int>, interval: nat) {
    forall i :: 0 < i < |starts| ==> starts[i - 1] + interval <= starts[i]
  }

  /** How many of the starts fall in the minute that begins at `from`. */
  function InMinute(starts: seq<int>, from: int): nat {
    if starts == [] then 0
    else
      var s := starts[|starts| - 1];
      InMinute(starts[..|starts| - 1], from) + if from <= s < from + 60_000 then 1 else 0
  }

  /** Nine tenths of the cap, rounded up: the rate one key really gets. */
  function ThrottledRate(rpm: nat): (r: nat)
    requires rpm >= 1
    ensures 1 <= r <= rpm
    ensures 10 * (r - 1) < 9 * rpm <= 10 * r
  {
    CeilDiv(9 * rpm, 10)
  }

  // ---- Spacing on one key ----

  /** One key's starts are spaced, and the key stays busy for an interval after the last. */
  predicate KeySpaced(starts: seq<int>, free: seq<int>, key: nat, interval: nat)
    requires key < |free|
  {
    Spaced(starts, interval) && (starts != [] ==> free[key] == starts[|starts| - 1] + interval)
  }

  lemma ReserveKeepsSpacing(starts: seq<int>, free: seq<int>, key: nat, interval: nat, now: int)
    requires key < |free| && KeySpaced(starts, free, key, interval)
    ensures
      var g := GrantAt(free, now);
      KeySpaced(starts + (if g.key == key then [g.start] else []), Reserve(free, interval, now), key, interval)
  {
  }

  lemma {:induction false} StartsAreSpaced(free: seq<int>, interval: nat, clock: seq<int>, key: nat)
    requires key < |free|
    ensures KeySpaced(StartsOn(key, Grants(free, interval, clock)), FreeAfter(free, interval, clock), key, interval)
  {
    if clock != [] {
      var before, now := clock[..|clock| - 1], clock[|clock| - 1];
      var ready := FreeAfter(free, interval, before);
      StartsAreSpaced(free, interval, before, key);
      StartsOnSnoc(key, Grants(free, interval, before), GrantAt(ready, now));
      ReserveKeepsSpacing(StartsOn(key, Grants(free, interval, before)), ready, key, interval, now);
    }
  }

  lemma StartsOnSnoc(key: nat, grants: seq<Grant>, g: Grant)
    ensures StartsOn(key, grants + [g]) == StartsOn(key, grants) + if g.key == key then [g.start] else []
  {
    assert (grants + [g])[..|grants|] == grants;
  }

  lemma {:induction false} LastStartIsLate(starts: seq<int>, interval: nat, from: int)
    requires Spaced(starts, interval) && InMinute(starts, from) >= 1
    ensures starts[|starts| - 1] >= from + (InMinute(starts, from) - 1) * interval
  {
    var n := |starts| - 1;
    var count := InMinute(starts[..n], from);
    if count >= 1 {
      LastStartIsLate(starts[..n], interval, from);
      if InMinute(starts, from) == count + 1 {
        assert (count - 1) * interval + interval == count * interval;
      }
    }
  }

  lemma {:induction false} MinuteSpan(starts: seq<int>, interval: nat, from: int)
    requires Spaced(starts, interval) && InMinute(starts, from) >= 1
    ensures (InMinute(starts, from) - 1) * interval < 60_000
  {
    var n := |starts| - 1;
    if from <= starts[n] < from + 60_000 {
      LastStartIsLate(starts, interval, from);
    } else {
      MinuteSpan(starts[..n], interval, from);
    }
  }

  lemma FewFitInAMinute(count: nat, rpm: nat)
    requires rpm >= 1 && count >= 1 && (count - 1) * MinInterval(rpm) < 60_000
    ensures count <= ThrottledRate(rpm)
  {
    var gap := MinInterval(rpm);
    if rpm == 1 {
      MulLess(count - 1, 1, gap);
    } else {
      assert (10 * (count - 1)) * gap == 10 * ((count - 1) * gap);
      MulLess(10 * (count - 1), 9 * rpm, gap);
    }
  }

  /**
   * Whatever the clock reads, no key is given more starts in any minute than nine
   * tenths of its cap, rounded up.
   */
  lemma MinuteBound(keys: nat, rpm: nat, clock: seq<int>, key: nat, from: int)
    requires rpm >= 1 && key < keys
    ensures
      InMinute(StartsOn(key, Grants(seq(keys, _ => 0), MinInterval(rpm), clock)), from) <= ThrottledRate(rpm)
  {
    var free := seq(keys, _ => 0);
    var starts := StartsOn(key, Grants(free, MinInterval(rpm), clock));
    if InMinute(starts, from) >= 1 {
      StartsAreSpaced(free, MinInterval(rpm), clock, key);
      MinuteSpan(starts, MinInterval(rpm), from);
      FewFitInAMinute(InMinute(starts, from), rpm);
    }
  }

  // ---- The order of starts ----

  predicate NonDecreasing(s: seq<int>) {
    forall i, j :: 0 <= i < j < |s| ==> s[i] <= s[j]
  }

  /** The start of a reservation is the earliest any key could have offered. */
  lemma GrantIsEarliest(free: seq<int>, now: int)
    requires free != []
    ensures
      var g := GrantAt(free, now);
      && g.key < |free| && g.start == Max(now, free[g.key])
      && (forall k :: 0 <= k < |free| ==> g.start <= Max(now, free[k]))
  {
  }

  /** Under a clock that never steps back, starts never decrease. */
  lemma {:induction false} StartsNeverDecrease(free: seq<int>, interval: nat, clock: seq<int>)
    requires free != [] && NonDecreasing(clock)
    ensures
      var grants := Grants(free, interval, clock);
      && (forall i, j :: 0 <= i < j < |grants| ==> grants[i].start <= grants[j].start)
      && (grants != [] ==>
            var last := grants[|grants| - 1].start;
            last >= clock[|clock| - 1] &&
            forall k :: 0 <= k < |free| ==>
              last <= Max(clock[|clock| - 1], FreeAfter(free, interval, clock)[k]))
  {
    if clock != [] {
      StartsNeverDecrease(free, interval, clock[..|clock| - 1]);
    }
  }

  predicate StartsRise(free: seq<int>, interval: nat, clock: seq<int>)
    requires free != []
  {
    var grants := Grants(free, interval, clock);
    forall i, j :: 0 <= i < j < |grants| ==> grants[i].start <= grants[j].start
  }

  /** The first `used` keys are busy past `base`, and all others are free from then on. */
  predicate UsedUpTo(free: seq<int>, base: int, used: nat) {
    forall k :: 0 <= k < |free| ==> if k < used then free[k] > base else free[k] == base
  }

  /** A pool with a free key for every reservation starts each of them when it is asked for. */
  lemma {:induction false} WidePool(free: seq<int>, base: int, interval: nat, clock: seq<int>)
    requires |clock| < |free| && UsedUpTo(free, base, 0)
    requires forall i :: 0 <= i < |clock| ==> base < clock[i]
    ensures UsedUpTo(FreeAfter(free, interval, clock), base, |clock|)
    ensures forall i :: 0 <= i < |clock| ==> Grants(free, interval, clock)[i].start == clock[i]
  {
    if clock != [] {
      var n := |clock| - 1;
      WidePool(free, base, interval, clock[..n]);
      var ready := FreeAfter(free, interval, clock[..n]);
      var first := FirstMin(ready);
      assert ready[n] == base;
      assert first == n;
    }
  }

  function Least(clock: seq<int>): (least: int)
    ensures forall i :: 0 <= i < |clock| ==> least <= clock[i]
  {
    if clock == [] then 0
    else
      var rest := Least(clock[..|clock| - 1]);
      if clock[|clock| - 1] < rest then clock[|clock| - 1] else rest
  }

  /** A clock that steps back once makes the starts of some pool step back. */
  lemma ClockSetBack(interval: nat, clock: seq<int>)
    requires !NonDecreasing(clock)
    ensures exists free :: free != [] && !StartsRise(free, interval, clock)
  {
    var base := Least(clock) - 1;
    var free := seq(|clock| + 1, _ => base);
    WidePool(free, base, interval, clock);
    var i, j :| 0 <= i < j < |clock| && clock[i] > clock[j];
    assert Grants(free, interval, clock)[i].start > Grants(free, interval, clock)[j].start;
    assert !StartsRise(free, interval, clock);
  }

  /** The clocks under which starts never decrease, whatever the pool, are exactly those that never step back. */
  lemma StartsRiseIff(interval: nat, clock: seq<int>)
    ensures (forall free :: free != [] ==> StartsRise(free, interval, clock)) <==> NonDecreasing(clock)
  {
    if NonDecreasing(clock) {
      forall free | free != [] ensures StartsRise(free, interval, clock) {
        StartsNeverDecrease(free, interval, clock);
      }
    } else {
      ClockSetBack(interval, clock);
    }
  }

  // ---- Bursts ----

  /** How many keys would offer the time `v` to a caller at `now`. */
  function OffersAt(free: seq<int>, now: int, v: int): nat {
    if free == [] then 0
    else
      OffersAt(free[..|free| - 1], now, v) + if Max(now, free[|free| - 1]) == v then 1 else 0
  }

  lemma {:induction false} OffersBound(free: seq<int>, now: int, v: int)
    ensures OffersAt(free, now, v) <= |free|
    ensures OffersAt(free, now, v) == |free| <==> forall k :: 0 <= k < |free| ==> Max(now, free[k]) == v
    ensures OffersAt(free, now, v) == 0 <==> forall k :: 0 <= k < |free| ==> Max(now, free[k]) != v
  {
    if free != [] {
      OffersBound(free[..|free| - 1], now, v);
    }
  }

  lemma {:induction false} OffersUpdate(free: seq<int>, now: int, v: int, i: nat, x: int)
    requires i < |free| && Max(now, free[i]) != v && Max(now, x) == v
    ensures OffersAt(free[i := x], now, v) == OffersAt(free, now, v) + 1
  {
    var n := |free| - 1;
    if i == n {
      assert free[i := x][..n] == free[..n];
    } else {
      assert free[i := x][..n] == free[..n][i := x];
      OffersUpdate(free[..n], now, v, i, x);
    }
  }

  /** When request `j` of a burst starts: one interval later for every full round of keys before it. */
  function RoundStart(now: int, interval: nat, keys: nat, j: nat): int
    requires keys > 0
  {
    now + (j / keys) * interval
  }

  /** After `j` reservations in a burst: `j % N` keys are one round ahead of the others. */
  predicate InRounds(free: seq<int>, interval: nat, now: int, j: nat)
    requires free != []
  {
    var round := RoundStart(now, interval, |free|, j);
    && (forall k :: 0 <= k < |free| ==> Max(now, free[k]) == round || Max(now, free[k]) == round + interval)
    && OffersAt(free, now, round + interval) == j % |free|
  }

  /** While a round is not complete, the next grant belongs to it. */
  lemma NextGrantInRound(free: seq<int>, interval: nat, now: int, j: nat)
    requires free != [] && interval >= 1 && InRounds(free, interval, now, j)
    ensures GrantAt(free, now).start == RoundStart(now, interval, |free|, j)
  {
    OffersBound(free, now, RoundStart(now, interval, |free|, j) + interval);
  }

  lemma NextRoundStart(now: int, interval: nat, keys: nat, j: nat)
    requires keys > 0
    ensures j % keys + 1 < keys ==>
              RoundStart(now, interval, keys, j + 1) == RoundStart(now, interval, keys, j)
              && (j + 1) % keys == j % keys + 1
    ensures j % keys + 1 == keys ==>
              RoundStart(now, interval, keys, j + 1) == RoundStart(now, interval, keys, j) + interval
              && (j + 1) % keys == 0
  {
    NextInRound(j, keys);
    Distribute(j / keys, interval);
  }

  lemma RoundStep(free: seq<int>, interval: nat, now: int, j: nat)
    requires free != [] && interval >= 1 && InRounds(free, interval, now, j)
    ensures InRounds(Reserve(free, interval, now), interval, now, j + 1)
  {
    var n := |free|;
    var round := RoundStart(now, interval, n, j);
    var g := GrantAt(free, now);
    NextGrantInRound(free, interval, now, j);
    OffersUpdate(free, now, round + interval, g.key, round + interval);
    var free' := Reserve(free, interval, now);
    assert OffersAt(free', now, round + interval) == j % n + 1;
    assert forall k :: 0 <= k < n ==> Max(now, free'[k]) == round || Max(now, free'[k]) == round + interval;
    NextRoundStart(now, interval, n, j);
    if j % n + 1 == n {
      RoundComplete(free', interval, now, round);
    }
  }

  lemma RoundComplete(free: seq<int>, interval: nat, now: int, round: int)
    requires interval >= 1 && OffersAt(free, now, round + interval) == |free|
    ensures forall k :: 0 <= k < |free| ==> Max(now, free[k]) == round + interval
    ensures OffersAt(free, now, round + interval + interval) == 0
  {
    OffersBound(free, now, round + interval);
    OffersBound(free, now, round + interval + interval);
  }

  lemma NextInRound(j: nat, n: nat)
    requires n > 0
    ensures j % n + 1 < n ==> (j + 1) / n == j / n && (j + 1) % n == j % n + 1
    ensures j % n + 1 == n ==> (j + 1) / n == j / n + 1 && (j + 1) % n == 0
  {
    var q, r := j / n, j % n;
    if r + 1 < n {
      DivModIs(j + 1, n, q, r + 1);
    } else {
      Distribute(q, n);
      DivModIs(j + 1, n, q + 1, 0);
    }
  }

  /** `m` equal clock readings. */
  function Burst(m: nat, now: int): seq<int> { seq(m, _ => now) }

  /** The `j`-th grant, from the pool as the earlier reservations left it. */
  lemma {:induction false} GrantsPrefix(free: seq<int>, interval: nat, clock: seq<int>, j: nat)
    requires free != [] && j < |clock|
    ensures Grants(free, interval, clock)[j] == GrantAt(FreeAfter(free, interval, clock[..j]), clock[j])
  {
    var n := |clock| - 1;
    var before := clock[..n];
    if j < n {
      GrantsPrefix(free, interval, before, j);
      assert before[..j] == clock[..j] && before[j] == clock[j];
      assert Grants(free, interval, clock)[j] == Grants(free, interval, before)[j];
    } else {
      assert clock[..j] == before;
    }
  }

  predicate AllFree(free: seq<int>, now: int) {
    free != [] && forall k :: 0 <= k < |free| ==> free[k] <= now
  }

  lemma {:induction false} BurstRounds(free: seq<int>, interval: nat, now: int, m: nat)
    requires AllFree(free, now) && interval >= 1
    ensures InRounds(FreeAfter(free, interval, Burst(m, now)), interval, now, m)
  {
    if m == 0 {
      OffersBound(free, now, now + interval);
      assert 0 / |free| == 0 && 0 % |free| == 0;
    } else {
      BurstRounds(free, interval, now, m - 1);
      assert Burst(m, now)[..m - 1] == Burst(m - 1, now);
      RoundStep(FreeAfter(free, interval, Burst(m - 1, now)), interval, now, m - 1);
    }
  }

  /** Round `j / N` of the burst starts `j / N` intervals after it. */
  lemma BurstStarts(free: seq<int>, interval: nat, now: int, m: nat, j: nat)
    requires AllFree(free, now) && interval >= 1 && j < m
    ensures Grants(free, interval, Burst(m, now))[j].start == RoundStart(now, interval, |free|, j)
  {
    GrantsPrefix(free, interval, Burst(m, now), j);
    assert Burst(m, now)[..j] == Burst(j, now);
    BurstRounds(free, interval, now, j);
    NextGrantInRound(FreeAfter(free, interval, Burst(j, now)), interval, now, j);
  }

  /** Any way to serve requests that arrive at `now` and respects the spacing on each key. */
  predicate Schedule(grants: seq<Grant>, keys: nat, interval: nat, now: int) {
    && (forall i :: 0 <= i < |grants| ==> grants[i].key < keys && now <= grants[i].start)
    && (forall i, j :: 0 <= i < j < |grants| && grants[i].key == grants[j].key ==>
          grants[i].start + interval <= grants[j].start || grants[j].start + interval <= grants[i].start)
  }

  function Elements(s: seq<nat>): (r: set<nat>)
    ensures forall x :: x in r <==> x in s
  {
    if s == [] then {}
    else
      assert s == s[..|s| - 1] + [s[|s| - 1]];
      Elements(s[..|s| - 1]) + {s[|s| - 1]}
  }

  function Below(n: nat): (r: set<nat>)
    ensures |r| == n && forall x: nat :: x in r <==> x < n
  {
    if n == 0 then {} else Below(n - 1) + {n - 1}
  }

  lemma {:induction false} ElementsCount(s: seq<nat>)
    requires NoRepeats(s)
    ensures |Elements(s)| == |s|
  {
    if s != [] {
      ElementsCount(s[..|s| - 1]);
    }
  }

  /** Pigeonhole: numbers below `n` without repeats are at most `n` many. */
  lemma PigeonHole(s: seq<nat>, n: nat)
    requires NoRepeats(s) && forall i :: 0 <= i < |s| ==> s[i] < n
    ensures |s| <= n
  {
    ElementsCount(s);
    SubsetCount(Elements(s), Below(n));
  }

  /** A key and the round in which it starts a request, as one number. */
  function Cell(g: Grant, keys: nat, interval: nat, now: int): nat
    requires interval >= 1 && g.start >= now
  {
    ((g.start - now) / interval) * keys + g.key
  }

  lemma CellBound(g: Grant, keys: nat, interval: nat, now: int, rounds: nat)
    requires interval >= 1 && g.key < keys && now <= g.start < now + rounds * interval
    ensures Cell(g, keys, interval, now) < rounds * keys
  {
    var late := (g.start - now) / interval;
    QuotientFits(g.start - now, interval);
    MulLess(late, rounds, interval);
    Distribute(late, keys);
    MulMonotone(late + 1, rounds, keys);
  }

  /** Two requests in the same cell would be closer than the spacing. */
  lemma CellsDiffer(a: Grant, b: Grant, keys: nat, interval: nat, now: int)
    requires interval >= 1 && a.key < keys && b.key < keys && now <= a.start && now <= b.start
    requires a.key == b.key ==> a.start + interval <= b.start || b.start + interval <= a.start
    ensures Cell(a, keys, interval, now) != Cell(b, keys, interval, now)
  {
    var p, q := (a.start - now) / interval, (b.start - now) / interval;
    DivModIs(Cell(a, keys, interval, now), keys, p, a.key);
    DivModIs(Cell(b, keys, interval, now), keys, q, b.key);
  }

  /** A schedule that starts every request within `rounds` intervals holds at most that many per key. */
  lemma ScheduleCapacity(grants: seq<Grant>, keys: nat, interval: nat, now: int, rounds: nat)
    requires interval >= 1 && Schedule(grants, keys, interval, now)
    requires forall i :: 0 <= i < |grants| ==> grants[i].start < now + rounds * interval
    ensures |grants| <= rounds * keys
  {
    var cells: seq<nat> := seq(|grants|, i requires 0 <= i < |grants| => Cell(grants[i], keys, interval, now));
    forall i | 0 <= i < |cells| ensures cells[i] < rounds * keys {
      CellBound(grants[i], keys, interval, now, rounds);
    }
    forall i, j | 0 <= i < j < |cells| ensures cells[i] != cells[j] {
      CellsDiffer(grants[i], grants[j], keys, interval, now);
    }
    PigeonHole(cells, rounds * keys);
  }

  /** In any schedule of `m` requests some start is at least `(m - 1) / N` intervals late. */
  lemma SomeStartIsLate(grants: seq<Grant>, keys: nat, interval: nat, now: int)
    requires keys >= 1 && interval >= 1 && grants != [] && Schedule(grants, keys, interval, now)
    ensures exists i :: 0 <= i < |grants| && grants[i].start >= RoundStart(now, interval, keys, |grants| - 1)
  {
    var rounds := (|grants| - 1) / keys;
    assert rounds * keys <= |grants| - 1;
    if forall i :: 0 <= i < |grants| ==> grants[i].start < now + rounds * interval {
      ScheduleCapacity(grants, keys, interval, now, rounds);
      assert false;
    }
  }

  predicate BusyUntilSpaced(grants: seq<Grant>, free: seq<int>, interval: nat) {
    forall i :: 0 <= i < |grants| ==> grants[i].key < |free| && grants[i].start + interval <= free[grants[i].key]
  }

  lemma ScheduleSnoc(grants: seq<Grant>, free: seq<int>, interval: nat, now: int)
    requires free != [] && Schedule(grants, |free|, interval, now) && BusyUntilSpaced(grants, free, interval)
    ensures Schedule(grants + [GrantAt(free, now)], |free|, interval, now)
    ensures BusyUntilSpaced(grants + [GrantAt(free, now)], Reserve(free, interval, now), interval)
  {
  }

  /** A key's later grants start at least an interval after its earlier ones. */
  predicate KeysApart(grants: seq<Grant>, interval: nat) {
    forall i, j :: 0 <= i < j < |grants| && grants[i].key == grants[j].key ==>
      grants[i].start + interval <= grants[j].start
  }

  /** Whatever the clock reads, a pool's grants are so. */
  lemma {:induction false} SameKeyApart(free: seq<int>, interval: nat, clock: seq<int>)
    requires free != []
    ensures
      var grants := Grants(free, interval, clock);
      BusyUntilSpaced(grants, FreeAfter(free, interval, clock), interval) && KeysApart(grants, interval)
  {
    if clock != [] {
      var before := clock[..|clock| - 1];
      SameKeyApart(free, interval, before);
      ApartSnoc(Grants(free, interval, before), FreeAfter(free, interval, before), interval, clock[|clock| - 1]);
    }
  }

  lemma ApartSnoc(grants: seq<Grant>, free: seq<int>, interval: nat, now: int)
    requires free != [] && BusyUntilSpaced(grants, free, interval) && KeysApart(grants, interval)
    ensures BusyUntilSpaced(grants + [GrantAt(free, now)], Reserve(free, interval, now), interval)
    ensures KeysApart(grants + [GrantAt(free, now)], interval)
  {
  }

  /** The pool's own grants are a schedule. */
  lemma {:induction false} GrantsAreSchedule(free: seq<int>, interval: nat, now: int, m: nat)
    requires free != []
    ensures Schedule(Grants(free, interval, Burst(m, now)), |free|, interval, now)
    ensures BusyUntilSpaced(Grants(free, interval, Burst(m, now)), FreeAfter(free, interval, Burst(m, now)), interval)
  {
    if m > 0 {
      GrantsAreSchedule(free, interval, now, m - 1);
      assert Burst(m, now)[..m - 1] == Burst(m - 1, now);
      var before := Burst(m - 1, now);
      ScheduleSnoc(Grants(free, interval, before), FreeAfter(free, interval, before), interval, now);
    }
  }

  lemma DivMonotone(j: nat, k: nat, keys: nat)
    requires j <= k && keys >= 1
    ensures j / keys <= k / keys
  {
    assert j == (j / keys) * keys + j % keys && k == (k / keys) * keys + k % keys;
    Distribute(k / keys, keys);
    MulLess(j / keys, k / keys + 1, keys);
  }

  lemma LaterRound(now: int, interval: nat, keys: nat, j: nat, k: nat)
    requires keys >= 1 && j <= k
    ensures RoundStart(now, interval, keys, j) <= RoundStart(now, interval, keys, k)
  {
    DivMonotone(j, k, keys);
    MulMonotone(j / keys, k / keys, interval);
  }

  lemma NoneAfterTheLast(free: seq<int>, interval: nat, now: int, m: nat, j: nat)
    requires AllFree(free, now) && interval >= 1 && j < m
    ensures Grants(free, interval, Burst(m, now))[j].start <= RoundStart(now, interval, |free|, m - 1)
  {
    BurstStarts(free, interval, now, m, j);
    LaterRound(now, interval, |free|, j, m - 1);
  }

  predicate AllBy(grants: seq<Grant>, time: int) {
    forall j :: 0 <= j < |grants| ==> grants[j].start <= time
  }

  lemma BurstIsOver(free: seq<int>, interval: nat, now: int, m: nat, time: int)
    requires AllFree(free, now) && interval >= 1 && m > 0 && time >= RoundStart(now, interval, |free|, m - 1)
    ensures AllBy(Grants(free, interval, Burst(m, now)), time)
  {
    var pool := Grants(free, interval, Burst(m, now));
    forall j | 0 <= j < |pool| ensures pool[j].start <= time {
      NoneAfterTheLast(free, interval, now, m, j);
    }
  }

  /**
   * A burst on free keys is served optimally: no schedule of as many requests has
   * all its starts before the pool's latest.
   */
  lemma BurstIsOptimal(free: seq<int>, interval: nat, now: int, other: seq<Grant>)
    requires AllFree(free, now) && interval >= 1
    requires other != [] && Schedule(other, |free|, interval, now)
    ensures
      var pool := Grants(free, interval, Burst(|other|, now));
      && Schedule(pool, |free|, interval, now)
      && exists i :: 0 <= i < |other| && AllBy(pool, other[i].start)
  {
    var m := |other|;
    GrantsAreSchedule(free, interval, now, m);
    SomeStartIsLate(other, |free|, interval, now);
    var i :| 0 <= i < |other| && other[i].start >= RoundStart(now, interval, |free|, m - 1);
    BurstIsOver(free, interval, now, m, other[i].start);
  }

  // ---- How much a pool gives ----

  /** The interval is the least that keeps a key at nine tenths of its cap, or at one request a minute. */
  lemma IntervalIsLeast(rpm: nat, gap: nat)
    requires rpm >= 1
    ensures MinInterval(rpm) <= gap <==> 600_000 <= gap * Max(10, 9 * rpm)
  {
    var pace, interval := Max(10, 9 * rpm), MinInterval(rpm);
    if rpm > 1 {
      if interval <= gap {
        MulMonotone(interval, gap, pace);
      } else {
        MulMonotone(gap, interval - 1, pace);
        Distribute(interval - 1, pace);
      }
    }
  }

  /** The starts that fit in a minute on one key, the first of them at its beginning. */
  function MinuteCapacity(rpm: nat): nat
    requires rpm >= 1
  {
    CeilDiv(60_000, MinInterval(rpm))
  }

  lemma RoundsInAMinute(rpm: nat, round: nat)
    requires rpm >= 1
    ensures round * MinInterval(rpm) < 60_000 <==> round < MinuteCapacity(rpm)
  {
    var interval, capacity := MinInterval(rpm), MinuteCapacity(rpm);
    if round < capacity {
      MulMonotone(round, capacity - 1, interval);
      Distribute(capacity - 1, interval);
    } else {
      MulMonotone(capacity, round, interval);
    }
  }

  lemma RoundOf(j: nat, keys: nat, rounds: nat)
    requires keys >= 1
    ensures j / keys < rounds <==> j < keys * rounds
  {
    var q := j / keys;
    assert j == q * keys + j % keys;
    assert keys * rounds == rounds * keys;
    Distribute(q, keys);
    if q < rounds {
      MulMonotone(q + 1, rounds, keys);
    } else {
      MulMonotone(rounds, q, keys);
    }
  }

  lemma RoundStartsInTheMinute(now: int, rpm: nat, keys: nat, j: nat)
    requires rpm >= 1 && keys >= 1
    ensures RoundStart(now, MinInterval(rpm), keys, j) < now + 60_000 <==> j < keys * MinuteCapacity(rpm)
  {
    RoundsInAMinute(rpm, j / keys);
    RoundOf(j, keys, MinuteCapacity(rpm));
  }

  /** Of a burst on a fresh pool, exactly the first `keys` times that many start within a minute. */
  lemma BurstFillsTheMinute(keys: nat, rpm: nat, now: int, m: nat, j: nat)
    requires rpm >= 1 && keys >= 1 && now >= 0 && j < m
    ensures
      Grants(seq(keys, _ => 0), MinInterval(rpm), Burst(m, now))[j].start < now + 60_000
      <==> j < keys * MinuteCapacity(rpm)
  {
    var free := seq(keys, _ => 0);
    BurstStarts(free, MinInterval(rpm), now, m, j);
    RoundStartsInTheMinute(now, rpm, |free|, j);
  }

  lemma StrictlyMonotone(a: nat, b: nat, factor: nat)
    requires a < b && factor >= 1
    ensures a * factor < b * factor
  {
  }

  lemma PaceIsNear(capacity: nat, interval: nat, pace: nat)
    requires capacity >= 1 && 60_000 <= capacity * interval && interval * pace < 600_000 + pace
    ensures 60_000 * pace < capacity * (600_000 + pace)
  {
    StrictlyMonotone(interval * pace, 600_000 + pace, capacity);
    assert (interval * pace) * capacity == (capacity * interval) * pace;
    MulMonotone(60_000, capacity * interval, pace);
  }

  /** What rounding the interval up costs. */
  lemma CapacityIsNear(rpm: nat)
    requires rpm >= 1
    ensures 1 <= MinuteCapacity(rpm) <= ThrottledRate(rpm)
    ensures MinuteCapacity(rpm) * (600_000 + 9 * rpm) > 540_000 * rpm
  {
    var capacity := MinuteCapacity(rpm);
    RoundsInAMinute(rpm, 0);
    RoundsInAMinute(rpm, capacity - 1);
    FewFitInAMinute(capacity, rpm);
    if rpm > 1 {
      PaceIsNear(capacity, MinInterval(rpm), 9 * rpm);
    }
  }

  lemma FewerAreFarOff(rpm: nat, count: nat)
    requires 1 <= rpm <= 86 && 10 * count < 9 * rpm
    ensures count * (600_000 + 9 * rpm) <= 540_000 * rpm
  {
    MulMonotone(10 * count, 9 * rpm - 1, 600_000 + 9 * rpm);
    assert (9 * rpm - 1) * (600_000 + 9 * rpm) == 5_400_000 * rpm + 81 * (rpm * rpm) - 600_000 - 9 * rpm;
    MulMonotone(rpm, 86, rpm);
    assert (10 * count) * (600_000 + 9 * rpm) == 10 * (count * (600_000 + 9 * rpm));
  }

  lemma QuotientIsUnique(a: nat, b: nat, q: nat, r: nat)
    requires b >= 1 && a <= q * b < a + b && a <= r * b < a + b
    ensures q == r
  {
    if q < r {
      MulMonotone(q + 1, r, b);
      Distribute(q, b);
    } else if r < q {
      MulMonotone(r + 1, q, b);
      Distribute(r, b);
    }
  }

  /** An interval and a capacity, recognized by what they are rounded up from. */
  lemma CapacityIs(rpm: nat, interval: nat, capacity: nat)
    requires rpm >= 2 && 600_000 <= interval * (9 * rpm) < 600_000 + 9 * rpm
    requires 60_000 <= capacity * interval < 60_000 + interval
    ensures MinuteCapacity(rpm) == capacity
  {
    QuotientIsUnique(600_000, 9 * rpm, MinInterval(rpm), interval);
    QuotientIsUnique(60_000, interval, MinuteCapacity(rpm), capacity);
  }

  /**
   * Up to 88 requests a minute it costs nothing: a busy key gets exactly nine tenths of
   * its cap, rounded up. At 89 it costs one request.
   */
  lemma SmallCapsAreFilled(rpm: nat)
    requires rpm >= 1
    ensures rpm <= 88 ==> MinuteCapacity(rpm) == ThrottledRate(rpm)
    ensures rpm == 89 ==> MinuteCapacity(rpm) == 80 && ThrottledRate(rpm) == 81
  {
    if rpm == 87 {
      CapacityIs(87, 767, 79);
    } else if rpm == 88 {
      CapacityIs(88, 758, 80);
    } else if rpm == 89 {
      CapacityIs(89, 750, 80);
    } else if rpm < 87 {
      CapacityIsNear(rpm);
      if MinuteCapacity(rpm) < ThrottledRate(rpm) {
        FewerAreFarOff(rpm, MinuteCapacity(rpm));
        assert false;
      }
    }
  }
}
