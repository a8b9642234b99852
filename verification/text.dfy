/** JavaScript's split, join and replace on strings of UTF-16 code units. */
module Text {
  import opened Common

  predicate OccursAt(s: string, d: string, i: nat) {
    i + |d| <= |s| && s[i..i + |d|] == d
  }

  /** The first occurrence of `d` in `s` from position `from` on. */
  function IndexFrom(s: string, d: string, from: nat): (r: Option<nat>)
    ensures r == None ==> forall k :: from <= k ==> !OccursAt(s, d, k)
    ensures r.Some? ==>
      from <= r.value && OccursAt(s, d, r.value) && forall k :: from <= k < r.value ==> !OccursAt(s, d, k)
    decreases |s| - from
  {
    if from + |d| > |s| then None
    else if OccursAt(s, d, from) then Some(from)
    else IndexFrom(s, d, from + 1)
  }

  function IndexOf(s: string, d: string): Option<nat> { IndexFrom(s, d, 0) }

  lemma FirstIs(s: string, d: string, from: nat, i: nat)
    requires from <= i && OccursAt(s, d, i) && forall k :: from <= k < i ==> !OccursAt(s, d, k)
    ensures IndexFrom(s, d, from) == Some(i)
  {
    var r := IndexFrom(s, d, from);
    assert r.Some?;
    assert r.value <= i;
  }

  function Characters(s: string): seq<string> {
    seq(|s|, i requires 0 <= i < |s| => [s[i]])
  }

  /** split: the pieces between leftmost occurrences that do not overlap; single characters for an empty separator. */
  function Split(s: string, d: string): (parts: seq<string>)
    ensures d != [] ==> parts != []
    decreases |s|
  {
    if d == [] then Characters(s)
    else
      match IndexOf(s, d)
      case None => [s]
      case Some(i) => [s[..i]] + Split(s[i + |d|..], d)
  }

  function Join(parts: seq<string>, d: string): string {
    if parts == [] then []
    else if |parts| == 1 then parts[0]
    else parts[0] + d + Join(parts[1..], d)
  }

  /** How the tools count occurrences: one less than the number of pieces. */
  function Matches(s: string, d: string): int { |Split(s, d)| - 1 }

  lemma {:induction false} JoinCharacters(s: string)
    ensures Join(Characters(s), []) == s
  {
    if |s| == 1 {
      assert Characters(s)[0] == s;
    } else if s != [] {
      JoinCharacters(s[1..]);
      assert Characters(s)[1..] == Characters(s[1..]);
      assert s == [s[0]] + [] + s[1..];
    }
  }

  lemma JoinCons(part: string, rest: seq<string>, d: string)
    requires rest != []
    ensures Join([part] + rest, d) == part + d + Join(rest, d)
  {
    assert ([part] + rest)[1..] == rest;
  }

  lemma AroundFirst(s: string, d: string)
    requires IndexOf(s, d).Some?
    ensures
      var i := IndexOf(s, d).value;
      s == s[..i] + d + s[i + |d|..]
  {
    var i := IndexOf(s, d).value;
    assert s == s[..i] + s[i..i + |d|] + s[i + |d|..];
  }

  /** Joining the pieces with the separator gives the text back. */
  lemma {:induction false} JoinSplit(s: string, d: string)
    ensures Join(Split(s, d), d) == s
    decreases |s|
  {
    if d == [] {
      JoinCharacters(s);
    } else if IndexOf(s, d).Some? {
      var i := IndexOf(s, d).value;
      var rest := s[i + |d|..];
      JoinSplit(rest, d);
      JoinCons(s[..i], Split(rest, d), d);
      AroundFirst(s, d);
    }
  }

  // ---- What the match count counts ----

  /** Positions of occurrences, left to right, none overlapping the next. */
  predicate Apart(s: string, d: string, positions: seq<nat>) {
    && (forall i :: 0 <= i < |positions| ==> OccursAt(s, d, positions[i]))
    && (forall i :: 0 < i < |positions| ==> positions[i - 1] + |d| <= positions[i])
  }

  function Shifted(positions: seq<nat>, offset: nat): seq<nat> {
    seq(|positions|, i requires 0 <= i < |positions| => positions[i] + offset)
  }

  /** Where the separators were that split removed. */
  function Cuts(s: string, d: string): (r: seq<nat>)
    requires d != []
    decreases |s|
  {
    match IndexOf(s, d)
    case None => []
    case Some(i) => [i] + Shifted(Cuts(s[i + |d|..], d), i + |d|)
  }

  lemma OccursInRest(s: string, d: string, from: nat, i: nat)
    requires from <= |s|
    ensures OccursAt(s[from..], d, i) <==> OccursAt(s, d, from + i)
  {
    if from + i + |d| <= |s| {
      assert s[from..][i..i + |d|] == s[from + i..from + i + |d|];
    }
  }

  lemma ShiftedApart(s: string, d: string, i: nat, rest: seq<nat>)
    requires OccursAt(s, d, i) && Apart(s[i + |d|..], d, rest)
    ensures Apart(s, d, [i] + Shifted(rest, i + |d|))
  {
    var shifted := Shifted(rest, i + |d|);
    forall k | 0 <= k < |rest| ensures OccursAt(s, d, shifted[k]) {
      OccursInRest(s, d, i + |d|, rest[k]);
    }
  }

  /** One match at `i`, and the matches of the rest. */
  lemma MatchesRest(s: string, d: string)
    requires d != []
    ensures
      match IndexOf(s, d)
      case None => Matches(s, d) == 0
      case Some(i) => Matches(s, d) == 1 + Matches(s[i + |d|..], d)
  {
  }

  lemma {:induction false} CutsCount(s: string, d: string)
    requires d != []
    ensures |Cuts(s, d)| == Matches(s, d)
    decreases |s|
  {
    MatchesRest(s, d);
    if IndexOf(s, d).Some? {
      CutsCount(s[IndexOf(s, d).value + |d|..], d);
    }
  }

  lemma {:induction false} CutsAreApart(s: string, d: string)
    requires d != []
    ensures Apart(s, d, Cuts(s, d))
    decreases |s|
  {
    if IndexOf(s, d).Some? {
      var i := IndexOf(s, d).value;
      CutsAreApart(s[i + |d|..], d);
      ShiftedApart(s, d, i, Cuts(s[i + |d|..], d));
    }
  }

  /** A cut of length `n` at `p`, or one that begins before `p` and reaches beyond it. */
  predicate CutAcross(cuts: seq<nat>, n: nat, p: nat) {
    exists k :: 0 <= k < |cuts| && cuts[k] <= p < cuts[k] + n
  }

  lemma CutAcrossLater(i: nat, rest: seq<nat>, from: nat, n: nat, p: nat)
    requires from <= p && CutAcross(rest, n, p - from)
    ensures CutAcross([i] + Shifted(rest, from), n, p)
  {
    var k :| 0 <= k < |rest| && rest[k] <= p - from < rest[k] + n;
    assert ([i] + Shifted(rest, from))[k + 1] == rest[k] + from;
  }

  /** An occurrence that is not cut is overlapped by a cut that begins before it: cuts are taken from the left. */
  lemma {:induction false} CutsAreLeftmost(s: string, d: string, p: nat)
    requires d != [] && OccursAt(s, d, p)
    ensures CutAcross(Cuts(s, d), |d|, p)
    decreases |s|
  {
    var i := IndexOf(s, d).value;
    var from := i + |d|;
    if p < from {
      assert Cuts(s, d)[0] == i;
    } else {
      OccursInRest(s, d, from, p - from);
      CutsAreLeftmost(s[from..], d, p - from);
      CutAcrossLater(i, Cuts(s[from..], d), from, |d|, p);
    }
  }

  /** All positions but the first, seen from the rest of the text. */
  function Remaining(positions: seq<nat>, from: nat): seq<nat>
    requires positions != [] && forall k :: 0 < k < |positions| ==> from <= positions[k]
  {
    seq(|positions| - 1, k requires 0 <= k < |positions| - 1 => positions[k + 1] - from)
  }

  lemma RemainingApart(s: string, d: string, positions: seq<nat>, from: nat)
    requires Apart(s, d, positions) && positions != [] && from <= |s|
    requires forall k :: 0 < k < |positions| ==> from <= positions[k]
    ensures Apart(s[from..], d, Remaining(positions, from))
  {
    var rest := Remaining(positions, from);
    forall k | 0 <= k < |rest| ensures OccursAt(s[from..], d, rest[k]) {
      OccursInRest(s, d, from, rest[k]);
    }
    forall k | 0 < k < |rest| ensures rest[k - 1] + |d| <= rest[k] {
      assert positions[(k + 1) - 1] + |d| <= positions[k + 1];
    }
  }

  /** No choice of non-overlapping occurrences has more than split finds. */
  lemma {:induction false} SplitFindsMost(s: string, d: string, positions: seq<nat>)
    requires d != [] && Apart(s, d, positions)
    ensures |positions| <= Matches(s, d)
    decreases |s|
  {
    if positions != [] {
      assert OccursAt(s, d, positions[0]);
      var i := IndexOf(s, d).value;
      var from := i + |d|;
      forall k | 0 < k < |positions| ensures from <= positions[k] {
        LaterPositions(s, d, positions, k);
      }
      RemainingApart(s, d, positions, from);
      MatchesRest(s, d);
      SplitFindsMost(s[from..], d, Remaining(positions, from));
    }
  }

  lemma {:induction false} LaterPositions(s: string, d: string, positions: seq<nat>, k: nat)
    requires Apart(s, d, positions) && 0 < k < |positions|
    ensures positions[0] + |d| <= positions[k]
  {
    if k > 1 {
      LaterPositions(s, d, positions, k - 1);
    }
  }

  /** The match count is the largest number of occurrences that do not overlap. */
  lemma MatchesIsTheMost(s: string, d: string)
    requires d != []
    ensures exists positions :: Apart(s, d, positions) && |positions| == Matches(s, d)
    ensures forall positions :: Apart(s, d, positions) ==> |positions| <= Matches(s, d)
  {
    CutsAreApart(s, d);
    CutsCount(s, d);
    forall positions | Apart(s, d, positions) ensures |positions| <= Matches(s, d) {
      SplitFindsMost(s, d, positions);
    }
  }

  // ---- When a match count of one means a unique occurrence ----

  /** `d` begins with one of its own proper endings. */
  predicate Bordered(d: string) {
    exists k :: 0 < k < |d| && d[k..] == d[..|d| - k]
  }

  predicate UniqueIn(s: string, d: string) {
    IndexOf(s, d).Some? && IndexFrom(s, d, IndexOf(s, d).value + 1) == None
  }

  lemma TwoApart(s: string, d: string, i: nat, j: nat)
    requires d != [] && OccursAt(s, d, i) && OccursAt(s, d, j) && i + |d| <= j
    ensures Matches(s, d) >= 2
  {
    SplitFindsMost(s, d, [i, j]);
  }

  lemma OverlapIsBorder(s: string, d: string, i: nat, j: nat)
    requires OccursAt(s, d, i) && OccursAt(s, d, j) && i < j < i + |d|
    ensures Bordered(d)
  {
    var k := j - i;
    assert s[i..i + |d|][k..] == s[j..i + |d|];
    assert s[j..j + |d|][..|d| - k] == s[j..i + |d|];
  }

  lemma BorderedTwice(d: string, k: nat)
    requires 0 < k < |d| && d[k..] == d[..|d| - k]
    ensures OccursAt(d[..k] + d, d, 0) && OccursAt(d[..k] + d, d, k)
    ensures Matches(d[..k] + d, d) == 1
  {
    var s := d[..k] + d;
    assert s[k..k + |d|] == d;
    assert s[..|d|] == d[..k] + d[..|d| - k] == d[..k] + d[k..] == d;
    SplitFindsMost(s, d, [0]);
    TwoNeedRoom(s, d);
  }

  lemma TwoNeedRoom(s: string, d: string)
    requires d != []
    ensures Matches(s, d) >= 2 ==> |s| >= 2 * |d|
  {
    CutsAreApart(s, d);
    CutsCount(s, d);
    if Matches(s, d) >= 2 {
      var cuts := Cuts(s, d);
      assert cuts[1 - 1] + |d| <= cuts[1] && OccursAt(s, d, cuts[1]);
    }
  }

  /**
   * The tools take a match count of one for uniqueness.  That is right for every
   * file exactly if the string has no border, that is, cannot overlap itself.
   */
  lemma OneMatchMeansUniqueIff(d: string)
    requires d != []
    ensures (forall s :: Matches(s, d) == 1 ==> UniqueIn(s, d)) <==> !Bordered(d)
  {
    if Bordered(d) {
      var k :| 0 < k < |d| && d[k..] == d[..|d| - k];
      BorderedTwice(d, k);
      assert !UniqueIn(d[..k] + d, d);
    } else {
      forall s | Matches(s, d) == 1 ensures UniqueIn(s, d) {
        MatchesRest(s, d);
        var i := IndexOf(s, d).value;
        if IndexFrom(s, d, i + 1).Some? {
          var j := IndexFrom(s, d, i + 1).value;
          if j < i + |d| {
            OverlapIsBorder(s, d, i, j);
          } else {
            TwoApart(s, d, i, j);
          }
          assert false;
        }
      }
    }
  }

  // ---- replace ----

  predicate PatternAt(t: string, i: nat) {
    i + 1 < |t| && t[i] == '$' && t[i + 1] in "$&`'"
  }

  /** A replacement text that replace does not take literally. */
  predicate HasPattern(t: string) {
    exists i :: 0 <= i < |t| && PatternAt(t, i)
  }

  /** A replacement text with its `$` patterns filled in; without captures `$1` and `$<` stay as they are. */
  function Expand(t: string, matched: string, before: string, after: string): string {
    if t == [] then []
    else if PatternAt(t, 0) then
      (match t[1]
       case '$' => "$"
       case '&' => matched
       case '`' => before
       case _ => after) + Expand(t[2..], matched, before, after)
    else [t[0]] + Expand(t[1..], matched, before, after)
  }

  /** replace with a string pattern: the first occurrence only. */
  function ReplaceFirst(s: string, old_: string, new_: string): string {
    match IndexOf(s, old_)
    case None => s
    case Some(i) =>
      var before, after := s[..i], s[i + |old_|..];
      before + Expand(new_, old_, before, after) + after
  }

  lemma {:induction false} ExpandLiterally(t: string, matched: string, before: string, after: string)
    requires !HasPattern(t)
    ensures Expand(t, matched, before, after) == t
  {
    if t != [] {
      assert !PatternAt(t, 0);
      forall i | 0 <= i < |t[1..]| ensures !PatternAt(t[1..], i) {
        assert !PatternAt(t, i + 1);
      }
      ExpandLiterally(t[1..], matched, before, after);
    }
  }

  function Dollars(s: string): nat {
    if s == [] then 0 else (if s[0] == '$' then 1 else 0) + Dollars(s[1..])
  }

  lemma {:induction false} DollarsConcat(a: string, b: string)
    ensures Dollars(a + b) == Dollars(a) + Dollars(b)
  {
    if a == [] {
      assert a + b == b;
    } else {
      DollarsConcat(a[1..], b);
      assert (a + b)[1..] == a[1..] + b;
    }
  }

  lemma {:induction false} NoDollars(s: string)
    requires '$' !in s
    ensures Dollars(s) == 0
  {
    if s != [] { NoDollars(s[1..]); }
  }

  /** Filling in a pattern loses a dollar sign, when the file has none to put in its place. */
  lemma {:induction false} ExpandLosesDollars(t: string, matched: string, before: string, after: string)
    requires '$' !in matched && '$' !in before && '$' !in after
    ensures Dollars(Expand(t, matched, before, after)) <= Dollars(t)
    ensures HasPattern(t) ==> Dollars(Expand(t, matched, before, after)) < Dollars(t)
  {
    if t != [] {
      if PatternAt(t, 0) {
        var filling := match t[1] case '$' => "$" case '&' => matched case '`' => before case _ => after;
        ExpandLosesDollars(t[2..], matched, before, after);
        DollarsConcat(filling, Expand(t[2..], matched, before, after));
        assert t == [t[0], t[1]] + t[2..];
        DollarsConcat([t[0], t[1]], t[2..]);
        assert Dollars([t[0], t[1]]) == 1 + Dollars([t[1]]) by { assert [t[0], t[1]][1..] == [t[1]]; }
        if t[1] != '$' { NoDollars(filling); }
      } else {
        ExpandLosesDollars(t[1..], matched, before, after);
        var rest := Expand(t[1..], matched, before, after);
        assert ([t[0]] + rest)[1..] == rest;
        if HasPattern(t) {
          var i :| 0 <= i < |t| && PatternAt(t, i);
          assert PatternAt(t[1..], i - 1);
        }
      }
    }
  }

  /** In a file without dollar signs, a replacement text goes in verbatim exactly if it has no pattern. */
  lemma VerbatimIff(t: string, matched: string, before: string, after: string)
    requires '$' !in matched && '$' !in before && '$' !in after
    ensures Expand(t, matched, before, after) == t <==> !HasPattern(t)
  {
    if HasPattern(t) {
      ExpandLosesDollars(t, matched, before, after);
    } else {
      ExpandLiterally(t, matched, before, after);
    }
  }

  /** Where the file has dollar signs a pattern can happen to expand to itself. */
  lemma PatternThatExpandsToItself()
    ensures HasPattern("$&") && Expand("$&", "$&", "", "") == "$&"
  {
    assert PatternAt("$&", 0);
    assert "$&"[2..] == "";
  }

  lemma CountIsNatural(s: string, d: string)
    requires d != []
    ensures Matches(s, d) >= 0
    ensures Matches(s, d) == 0 <==> IndexOf(s, d) == None
  {
    MatchesRest(s, d);
    CutsCount(s, d);
    if IndexOf(s, d).Some? {
      CutsCount(s[IndexOf(s, d).value + |d|..], d);
    }
  }

  lemma OneMatchSplits(s: string, d: string)
    requires d != [] && Matches(s, d) == 1
    ensures IndexOf(s, d).Some?
    ensures
      var i := IndexOf(s, d).value;
      Split(s, d) == [s[..i]] + [s[i + |d|..]]
  {
    MatchesRest(s, d);
    var after := s[IndexOf(s, d).value + |d|..];
    CountIsNatural(after, d);
    assert |Split(after, d)| == 1;
  }

  lemma JoinTwo(a: string, b: string, d: string)
    ensures Join([a] + [b], d) == a + d + b
  {
    JoinCons(a, [b], d);
  }

  /** With one match and a literal replacement, replacing the first occurrence is replacing them all. */
  lemma OneMatchFirstIsAll(s: string, old_: string, new_: string)
    requires old_ != [] && Matches(s, old_) == 1 && !HasPattern(new_)
    ensures ReplaceFirst(s, old_, new_) == Join(Split(s, old_), new_)
  {
    OneMatchSplits(s, old_);
    var i := IndexOf(s, old_).value;
    ExpandLiterally(new_, old_, s[..i], s[i + |old_|..]);
    JoinTwo(s[..i], s[i + |old_|..], new_);
  }
}
