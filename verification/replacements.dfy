/** What an edit makes of a file, position by position, and when replacing back undoes it. */
module Replacements {
  import opened Common
  import opened Division
  import opened Text
  import opened Edits

  // ---- Verdicts ----

  /** Two occurrences that do not overlap. */
  predicate BothAt(s: string, d: string, i: nat, j: nat) {
    OccursAt(s, d, i) && OccursAt(s, d, j) && i + |d| <= j
  }

  lemma OneMatchIff(s: string, d: string)
    requires d != []
    ensures Matches(s, d) == 0 <==> forall k :: !OccursAt(s, d, k)
    ensures Matches(s, d) >= 2 <==> exists i, j :: BothAt(s, d, i, j)
  {
    CountIsNatural(s, d);
    if Matches(s, d) == 0 {
      assert IndexOf(s, d) == None;
    } else {
      assert OccursAt(s, d, IndexOf(s, d).value);
    }
    if Matches(s, d) >= 2 {
      CutsAreApart(s, d);
      CutsCount(s, d);
      var cuts := Cuts(s, d);
      assert cuts[1 - 1] + |d| <= cuts[1];
      assert BothAt(s, d, cuts[0], cuts[1]);
    }
    if i, j :| BothAt(s, d, i, j) {
      TwoApart(s, d, i, j);
    }
  }

  /**
   * An edit fails exactly if its text does not occur, or occurs twice without overlap
   * and not all occurrences are to be replaced. Otherwise a single edit replaces the
   * first occurrence and leaves what is before and behind it.
   */
  lemma EditVerdicts(content: string, e: Edit)
    requires e.oldText != []
    ensures
      var r := Edited(content, e);
      && (r == Err(NotFound) <==> forall k :: !OccursAt(content, e.oldText, k))
      && (r == Err(NotUnique(Matches(content, e.oldText))) <==>
            !e.replaceAll && exists i, j :: BothAt(content, e.oldText, i, j))
      && (r.Ok? <==>
            && (exists k :: OccursAt(content, e.oldText, k))
            && (e.replaceAll || forall i, j :: !BothAt(content, e.oldText, i, j)))
  {
    OneMatchIff(content, e.oldText);
  }

  /** With an empty text to look for, the count is one less than the length of the file. */
  lemma EmptyTextVerdicts(content: string, newText: string, replaceAll: bool)
    ensures
      var r := Edited(content, Edit([], newText, replaceAll));
      && (r == Err(NotFound) <==> |content| == 1)
      && (r == Err(NotUnique(|content| - 1)) <==> |content| > 2 && !replaceAll)
      && (r.Ok? <==> |content| == 0 || |content| == 2 || (|content| > 2 && replaceAll))
  {
  }

  /** What a single edit writes: the first occurrence gives way to the expanded text, the rest stays. */
  lemma SingleEditIs(content: string, oldText: string, newText: string, i: nat)
    requires oldText != [] && Matches(content, oldText) == 1
    requires OccursAt(content, oldText, i) && forall k :: 0 <= k < i ==> !OccursAt(content, oldText, k)
    ensures
      var before, after := content[..i], content[i + |oldText|..];
      && content == before + oldText + after
      && Edited(content, Edit(oldText, newText, false)) == Ok(before + Expand(newText, oldText, before, after) + after)
  {
    FirstIs(content, oldText, 0, i);
    AroundFirst(content, oldText);
  }

  /** An insertion beside an anchor fails under the same conditions. */
  lemma InsertVerdicts(file: string, content: string, anchor: string, after: bool)
    requires anchor != []
    ensures
      var r := Inserted(file, content, Some(anchor), after);
      && (r == Err(NotFound) <==> forall k :: !OccursAt(file, anchor, k))
      && (r == Err(NotUnique(Matches(file, anchor))) <==> exists i, j :: BothAt(file, anchor, i, j))
      && (r.Ok? <==> (exists k :: OccursAt(file, anchor, k)) && forall i, j :: !BothAt(file, anchor, i, j))
  {
    OneMatchIff(file, anchor);
  }

  /** Without an anchor, or with an empty one, the file is kept whole and the content goes to one of its ends. */
  lemma InsertAtAnEnd(file: string, content: string, anchor: Option<string>, after: bool)
    requires anchor == None || anchor == Some("")
    ensures
      var r := Inserted(file, content, anchor, after);
      && r.Ok? && |r.value| == |file| + |content|
      && (after ==> r.value[..|file|] == file && r.value[|file|..] == content)
      && (!after ==> r.value[..|content|] == content && r.value[|content|..] == file)
  {
  }

  // ---- Replacement texts ----

  lemma {:induction false} ExpandBehind(t: string, u: string, matched: string, before: string, after: string)
    requires !HasPattern(t) && (t == [] || t[|t| - 1] != '$')
    ensures Expand(t + u, matched, before, after) == t + Expand(u, matched, before, after)
  {
    if t == [] {
      assert t + u == u;
    } else {
      assert !PatternAt(t, 0);
      assert !PatternAt(t + u, 0);
      assert (t + u)[1..] == t[1..] + u;
      forall i | 0 <= i < |t| - 1 ensures !PatternAt(t[1..], i) {
        assert !PatternAt(t, i + 1);
      }
      ExpandBehind(t[1..], u, matched, before, after);
    }
  }

  /**
   * A dollar sign with what follows it, behind literal text: `$$` is a dollar sign, `$&`
   * the text replaced, `` $` `` and `$'` what is before and behind it; any other is kept.
   */
  lemma PatternsAreFilledIn(t: string, c: char, u: string, matched: string, before: string, after: string)
    requires !HasPattern(t) && (t == [] || t[|t| - 1] != '$')
    ensures
      Expand(t + (['$', c] + u), matched, before, after) ==
        if c == '$' then t + ("$" + Expand(u, matched, before, after))
        else if c == '&' then t + (matched + Expand(u, matched, before, after))
        else if c == '`' then t + (before + Expand(u, matched, before, after))
        else if c == '\'' then t + (after + Expand(u, matched, before, after))
        else t + ("$" + Expand([c] + u, matched, before, after))
  {
    var rest := ['$', c] + u;
    ExpandBehind(t, rest, matched, before, after);
    assert rest[0] == '$' && rest[1] == c;
    assert rest[1..] == [c] + u && rest[2..] == u;
    assert PatternAt(rest, 0) <==> c in "$&`'";
  }

  // ---- Replacing all occurrences ----

  function Replaced(s: string, d: string, new_: string): string { Join(Split(s, d), new_) }

  /** The file around its first occurrence, before and after all are replaced. */
  lemma FirstReplaced(s: string, d: string, new_: string)
    requires d != [] && IndexOf(s, d).Some?
    ensures
      var i := IndexOf(s, d).value;
      var rest := s[i + |d|..];
      && s == s[..i] + d + rest
      && Cuts(s, d) == [i] + Shifted(Cuts(rest, d), i + |d|)
      && Replaced(s, d, new_) == s[..i] + new_ + Replaced(rest, d, new_)
  {
    AroundFirst(s, d);
    var i := IndexOf(s, d).value;
    JoinCons(s[..i], Split(s[i + |d|..], d), new_);
  }

  lemma NothingReplaced(s: string, d: string, new_: string)
    requires d != [] && IndexOf(s, d) == None
    ensures Cuts(s, d) == [] && Replaced(s, d, new_) == s
  {
  }

  lemma {:induction false} LengthReplaced(s: string, d: string, new_: string)
    requires d != []
    ensures |Replaced(s, d, new_)| == |s| + |Cuts(s, d)| * (|new_| - |d|)
    decreases |s|
  {
    if IndexOf(s, d) == None {
      NothingReplaced(s, d, new_);
    } else {
      var rest := s[IndexOf(s, d).value + |d|..];
      FirstReplaced(s, d, new_);
      LengthReplaced(rest, d, new_);
      Distribute(|Cuts(rest, d)|, |new_| - |d|);
    }
  }

  /** From `from` on, cuts of length `len` are in `s`, in order and apart. */
  predicate Fits(s: string, len: nat, cuts: seq<nat>, from: nat) {
    if cuts == [] then from <= |s|
    else from <= cuts[0] && cuts[0] + len <= |s| && Fits(s, len, cuts[1..], cuts[0] + len)
  }

  /** `s` from `from` on: the stretches between the cuts as they are, and `new_` in place of every cut. */
  function Rebuilt(s: string, len: nat, new_: string, cuts: seq<nat>, from: nat): string
    requires Fits(s, len, cuts, from)
  {
    if cuts == [] then s[from..]
    else s[from..cuts[0]] + new_ + Rebuilt(s, len, new_, cuts[1..], cuts[0] + len)
  }

  lemma SliceBehind(s: string, offset: nat, from: nat, to: nat, at: nat, end: nat)
    requires offset <= |s| && from <= to <= |s| - offset && at == offset + from && end == offset + to
    ensures s[offset..][from..to] == s[at..end]
  {
  }

  lemma RestBehind(s: string, offset: nat, from: nat, at: nat)
    requires offset <= |s| && from <= |s| - offset && at == offset + from
    ensures s[offset..][from..] == s[at..]
  {
  }

  lemma ShiftedTail(cuts: seq<nat>, offset: nat)
    requires cuts != []
    ensures Shifted(cuts, offset)[0] == cuts[0] + offset
    ensures Shifted(cuts, offset)[1..] == Shifted(cuts[1..], offset)
  {
  }

  lemma {:induction false} FitsBehind(s: string, len: nat, cuts: seq<nat>, from: nat, offset: nat, at: nat)
    requires offset <= |s| && Fits(s[offset..], len, cuts, from) && at == offset + from
    ensures Fits(s, len, Shifted(cuts, offset), at)
    decreases |cuts|
  {
    if cuts != [] {
      ShiftedTail(cuts, offset);
      FitsBehind(s, len, cuts[1..], cuts[0] + len, offset, Shifted(cuts, offset)[0] + len);
    }
  }

  /** Cuts of a rest, seen from the whole text. */
  lemma {:induction false} RebuiltBehind(s: string, len: nat, new_: string, cuts: seq<nat>, from: nat, offset: nat,
                                         at: nat)
    requires offset <= |s| && Fits(s[offset..], len, cuts, from) && at == offset + from
    requires Fits(s, len, Shifted(cuts, offset), at)
    ensures Rebuilt(s, len, new_, Shifted(cuts, offset), at) == Rebuilt(s[offset..], len, new_, cuts, from)
    decreases |cuts|
  {
    if cuts == [] {
      RestBehind(s, offset, from, at);
    } else {
      var first := Shifted(cuts, offset)[0];
      ShiftedTail(cuts, offset);
      RebuiltBehind(s, len, new_, cuts[1..], cuts[0] + len, offset, first + len);
      SliceBehind(s, offset, from, cuts[0], at, first);
      assert Rebuilt(s, len, new_, Shifted(cuts, offset), at) ==
        s[at..first] + new_ + Rebuilt(s, len, new_, Shifted(cuts[1..], offset), first + len);
    }
  }

  /** With these cuts, `r` is what is rebuilt of `s`. */
  predicate IsRebuilt(s: string, len: nat, new_: string, cuts: seq<nat>, r: string) {
    Fits(s, len, cuts, 0) && Rebuilt(s, len, new_, cuts, 0) == r
  }

  lemma OneCutMore(s: string, len: nat, new_: string, k: nat, cuts: seq<nat>, r: string)
    requires k + len <= |s| && IsRebuilt(s[k + len..], len, new_, cuts, r)
    ensures IsRebuilt(s, len, new_, [k] + Shifted(cuts, k + len), s[..k] + new_ + r)
  {
    var all := [k] + Shifted(cuts, k + len);
    FitsBehind(s, len, cuts, 0, k + len, k + len);
    RebuiltBehind(s, len, new_, cuts, 0, k + len, k + len);
    assert all[1..] == Shifted(cuts, k + len);
    assert s[0..k] == s[..k];
  }

  lemma NoCut(s: string, len: nat, new_: string)
    ensures IsRebuilt(s, len, new_, [], s)
  {
    assert s[0..] == s;
  }

  lemma {:induction false} ReplacedIsRebuilt(s: string, d: string, new_: string)
    requires d != []
    ensures IsRebuilt(s, |d|, new_, Cuts(s, d), Replaced(s, d, new_))
    decreases |s|
  {
    if IndexOf(s, d) == None {
      NothingReplaced(s, d, new_);
      NoCut(s, |d|, new_);
    } else {
      var k := IndexOf(s, d).value;
      var rest := s[k + |d|..];
      ReplacedIsRebuilt(rest, d, new_);
      OneCutMore(s, |d|, new_, k, Cuts(rest, d), Replaced(rest, d, new_));
      FirstReplaced(s, d, new_);
    }
  }

  /**
   * What replace_all writes: the stretches of the file between occurrences that do not
   * overlap, taken from the left, as they are and in order, with the new text, taken
   * literally, at every one of them.
   */
  lemma ReplaceAllIs(content: string, oldText: string, newText: string)
    requires oldText != [] && Matches(content, oldText) >= 1
    ensures
      var cuts := Cuts(content, oldText);
      && |cuts| == Matches(content, oldText) && Apart(content, oldText, cuts)
      && (forall p: nat :: OccursAt(content, oldText, p) ==> CutAcross(cuts, |oldText|, p))
      && Fits(content, |oldText|, cuts, 0)
      && Edited(content, Edit(oldText, newText, true)) == Ok(Rebuilt(content, |oldText|, newText, cuts, 0))
      && |Rebuilt(content, |oldText|, newText, cuts, 0)| == |content| + |cuts| * (|newText| - |oldText|)
  {
    CutsCount(content, oldText);
    CutsAreApart(content, oldText);
    forall p: nat | OccursAt(content, oldText, p) ensures CutAcross(Cuts(content, oldText), |oldText|, p) {
      CutsAreLeftmost(content, oldText, p);
    }
    ReplacedIsRebuilt(content, oldText, newText);
    LengthReplaced(content, oldText, newText);
  }

  // ---- Replacing back ----

  /** The text is not found in the piece, nor early in the piece with the text behind it. */
  ghost predicate Clear(piece: string, text: string, last: bool) {
    (forall k: nat :: !OccursAt(piece, text, k)) && (last || forall p: nat :: !Meets(piece, text, p))
  }

  ghost predicate AllClear(pieces: seq<string>, text: string) {
    forall i :: 0 <= i < |pieces| ==> Clear(pieces[i], text, i == |pieces| - 1)
  }

  lemma OccursInFront(front: string, s: string, d: string, k: nat)
    requires k + |d| <= |front|
    ensures OccursAt(front + s, d, k) <==> OccursAt(front, d, k)
  {
    assert (front + s)[k..k + |d|] == front[k..k + |d|];
  }

  /** Behind a piece the text is found at once exactly if the piece is clear. */
  lemma FoundBehindIff(piece: string, text: string, rest: string)
    requires text != []
    ensures IndexOf(piece + text + rest, text).Some? && IndexOf(piece + text + rest, text).value <= |piece|
    ensures IndexOf(piece + text + rest, text) == Some(|piece|) <==> Clear(piece, text, false)
  {
    var s := piece + text + rest;
    assert s == piece + (text + rest);
    assert s[|piece|..|piece| + |text|] == text;
    assert OccursAt(s, text, |piece|);
    var i := IndexOf(s, text).value;
    if i < |piece| {
      if i + |text| <= |piece| {
        OccursInFront(piece, text + rest, text, i);
      } else {
        EarlyOccurrence(piece, text, rest, |piece| - i);
      }
    } else {
      forall k: nat ensures !OccursAt(piece, text, k) {
        if k + |text| <= |piece| {
          OccursInFront(piece, text + rest, text, k);
        }
      }
      forall p: nat ensures !Meets(piece, text, p) {
        if 0 < p < |text| && p <= |piece| {
          EarlyOccurrence(piece, text, rest, p);
        }
      }
    }
  }

  lemma AllClearRest(pieces: seq<string>, text: string)
    requires |pieces| > 1
    ensures AllClear(pieces, text) <==> Clear(pieces[0], text, false) && AllClear(pieces[1..], text)
  {
    var rest := pieces[1..];
    assert forall i :: 0 <= i < |rest| ==> rest[i] == pieces[i + 1];
    if Clear(pieces[0], text, false) && AllClear(rest, text) {
      forall i | 0 <= i < |pieces| ensures Clear(pieces[i], text, i == |pieces| - 1) {
        assert i > 0 ==> pieces[i] == rest[i - 1];
      }
    }
  }

  /** Splitting gives back the pieces that were joined exactly if all are clear. */
  lemma {:induction false} SplitJoinIff(pieces: seq<string>, text: string)
    requires text != [] && pieces != []
    ensures Split(Join(pieces, text), text) == pieces <==> AllClear(pieces, text)
  {
    if |pieces| == 1 {
      OnePiece(pieces[0], text);
      assert pieces == [pieces[0]];
    } else {
      var rest := pieces[1..];
      var s := Join(pieces, text);
      assert pieces == [pieces[0]] + rest;
      FoundBehindIff(pieces[0], text, Join(rest, text));
      SplitJoinIff(rest, text);
      AllClearRest(pieces, text);
      var i := IndexOf(s, text).value;
      if i == |pieces[0]| {
        assert s[..i] == pieces[0] && s[i + |text|..] == Join(rest, text);
        assert Split(s, text) == [pieces[0]] + Split(Join(rest, text), text);
        assert Split(s, text)[1..] == Split(Join(rest, text), text);
      } else {
        assert |Split(s, text)[0]| == i;
      }
    }
  }

  lemma OnePiece(piece: string, text: string)
    requires text != []
    ensures Split(piece, text) == [piece] <==> AllClear([piece], text)
  {
    if IndexOf(piece, text).Some? {
      var i := IndexOf(piece, text).value;
      assert |Split(piece, text)| >= 2;
      assert !Clear([piece][0], text, true);
    }
  }

  /** Joined with the old text, a split has the old text where the first occurrence was found. */
  lemma OldWhereFound(s: string, r: string, old_: string, new_: string, q: nat)
    requires new_ != [] && IndexOf(r, new_) == Some(q) && Join(Split(r, new_), old_) == s
    ensures OccursAt(s, old_, q)
  {
    var pieces := Split(r[q + |new_|..], new_);
    assert Split(r, new_) == [r[..q]] + pieces;
    JoinCons(r[..q], pieces, old_);
    OldAt(s, old_, r[..q], Join(pieces, old_));
  }

  lemma NothingComesBack(s: string, old_: string, new_: string)
    requires old_ != [] && new_ != [] && IndexOf(s, old_) == None
    requires Join(Split(s, new_), old_) == s
    ensures IndexOf(s, new_) == None
  {
    if IndexOf(s, new_).Some? {
      OldWhereFound(s, s, old_, new_, IndexOf(s, new_).value);
      assert false;
    }
  }

  /** Where the first occurrence of the new text is found. */
  lemma FirstFound(s: string, old_: string, new_: string)
    requires old_ != [] && new_ != [] && IndexOf(s, old_).Some?
    requires Join(Split(Replaced(s, old_, new_), new_), old_) == s
    ensures IndexOf(Replaced(s, old_, new_), new_) == IndexOf(s, old_)
  {
    var i := IndexOf(s, old_).value;
    FirstReplaced(s, old_, new_);
    FoundBehindIff(s[..i], new_, Replaced(s[i + |old_|..], old_, new_));
    OldWhereFound(s, Replaced(s, old_, new_), old_, new_, IndexOf(Replaced(s, old_, new_), new_).value);
  }

  lemma BehindFirst(s: string, old_: string, new_: string)
    requires old_ != [] && new_ != [] && IndexOf(s, old_).Some?
    requires IndexOf(Replaced(s, old_, new_), new_) == IndexOf(s, old_)
    ensures
      var i := IndexOf(s, old_).value;
      var rest := s[i + |old_|..];
      && Split(Replaced(s, old_, new_), new_) == [s[..i]] + Split(Replaced(rest, old_, new_), new_)
      && Join(Split(Replaced(s, old_, new_), new_), old_) ==
           s[..i] + old_ + Join(Split(Replaced(rest, old_, new_), new_), old_)
  {
    var i := IndexOf(s, old_).value;
    var rest := s[i + |old_|..];
    var r := Replaced(s, old_, new_);
    FirstReplaced(s, old_, new_);
    assert r[..i] == s[..i] && r[i + |new_|..] == Replaced(rest, old_, new_);
    JoinCons(s[..i], Split(Replaced(rest, old_, new_), new_), old_);
  }

  /** Joining with `old_` what `new_` splits off the replaced text gives the text back only if the pieces come back. */
  lemma {:induction false} PiecesComeBack(s: string, old_: string, new_: string)
    requires old_ != [] && new_ != []
    requires Join(Split(Replaced(s, old_, new_), new_), old_) == s
    ensures Split(Replaced(s, old_, new_), new_) == Split(s, old_)
    decreases |s|
  {
    if IndexOf(s, old_) == None {
      NothingReplaced(s, old_, new_);
      NothingComesBack(s, old_, new_);
    } else {
      var i := IndexOf(s, old_).value;
      var rest := s[i + |old_|..];
      FirstFound(s, old_, new_);
      BehindFirst(s, old_, new_);
      AroundFirst(s, old_);
      SameTail(s[..i] + old_, Join(Split(Replaced(rest, old_, new_), new_), old_), rest);
      PiecesComeBack(rest, old_, new_);
    }
  }

  lemma OldAt(s: string, old_: string, front: string, tail: string)
    requires s == front + old_ + tail
    ensures OccursAt(s, old_, |front|)
  {
  }

  lemma SameTail(front: string, a: string, b: string)
    requires front + a == front + b
    ensures a == b
  {
    assert a == (front + a)[|front|..] && b == (front + b)[|front|..];
  }

  /**
   * Replacing all occurrences is undone by replacing all of the new text with the old
   * one, exactly if the new text is in none of the pieces that are kept and reaches
   * into none of them from the occurrence behind it.
   */
  lemma ReplaceAllIsUndoneIff(content: string, oldText: string, newText: string)
    requires oldText != [] && newText != [] && Matches(content, oldText) >= 1
    ensures
      var r := Edited(content, Edit(oldText, newText, true));
      r.Ok? &&
      (Edited(r.value, Edit(newText, oldText, true)) == Ok(content) <==> AllClear(Split(content, oldText), newText))
  {
    var r := Replaced(content, oldText, newText);
    CountIsNatural(content, oldText);
    FirstReplaced(content, oldText, newText);
    var i := IndexOf(content, oldText).value;
    FoundBehindIff(content[..i], newText, Replaced(content[i + |oldText|..], oldText, newText));
    CountIsNatural(r, newText);
    SplitJoinIff(Split(content, oldText), newText);
    if Join(Split(r, newText), oldText) == content {
      PiecesComeBack(content, oldText, newText);
    }
    JoinSplit(content, oldText);
  }
}
