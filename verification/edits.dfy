/** The exact-string editing tools of a worker's sandbox: edit_file, multi_edit and insert. */
module Edits {
  import opened Common
  import opened Text

  datatype Edit = Edit(oldText: string, newText: string, replaceAll: bool)

  datatype EditError = NotFound | NotUnique(matches: int)

  /** What one edit makes of a file's content. */
  function Edited(content: string, e: Edit): Result<string, EditError> {
    var matches := Matches(content, e.oldText);
    if matches == 0 then Err(NotFound)
    else if matches > 1 && !e.replaceAll then Err(NotUnique(matches))
    else Ok(if e.replaceAll then Join(Split(content, e.oldText), e.newText)
            else ReplaceFirst(content, e.oldText, e.newText))
  }

  type Outcome = Result<string, (nat, EditError)>

  /** The outcome of edits that come after `n` others. */
  function Later(n: nat, outcome: Outcome): Outcome {
    match outcome
    case Err((i, error)) => Err((n + i, error))
    case Ok(r) => Ok(r)
  }

  /** A list of edits in order; an error comes with the index of the failing edit. */
  function EditedInOrder(content: string, edits: seq<Edit>): Outcome
    decreases |edits|
  {
    if edits == [] then Ok(content)
    else
      match Edited(content, edits[0])
      case Err(error) => Err((0, error))
      case Ok(updated) => Later(1, EditedInOrder(updated, edits[1..]))
  }

  lemma LaterTwice(n: nat, m: nat, outcome: Outcome)
    ensures Later(n, Later(m, outcome)) == Later(n + m, outcome)
  {
  }

  /** What the edits from the `i`-th on come to, by what the `i`-th one does. */
  lemma NextEdit(content: string, edits: seq<Edit>, i: nat)
    requires i < |edits|
    ensures
      Later(i, EditedInOrder(content, edits[i..])) ==
        match Edited(content, edits[i])
        case Err(error) => Err((i, error))
        case Ok(updated) => Later(i + 1, EditedInOrder(updated, edits[i + 1..]))
  {
    var rest := edits[i..];
    assert rest[0] == edits[i] && rest[1..] == edits[i + 1..];
    match Edited(content, edits[i])
    case Err(error) =>
      assert EditedInOrder(content, rest) == Err((0, error));
    case Ok(updated) =>
      assert EditedInOrder(content, rest) == Later(1, EditedInOrder(updated, rest[1..]));
      LaterTwice(i, 1, EditedInOrder(updated, rest[1..]));
  }

  /** Insertion beside an anchor, or at an end of the file when the anchor is missing or empty. */
  function Inserted(file: string, content: string, anchor: Option<string>, after: bool): Result<string, EditError> {
    if anchor == None || anchor.value == "" then Ok(if after then file + content else content + file)
    else
      var matches := Matches(file, anchor.value);
      if matches == 0 then Err(NotFound)
      else if matches > 1 then Err(NotUnique(matches))
      else Ok(ReplaceFirst(file, anchor.value, if after then anchor.value + content else content + anchor.value))
  }

  datatype ToolResult = Done | Failed(error: EditError) | FailedAt(index: nat, error: EditError) | Unreadable

  /** The files a worker's tools see; a missing file makes reading, and so the tool, throw. */
  class Sandbox {
    var files: map<string, string>

    constructor ()
      ensures files == map[]
    {
      files := map[];
    }

    method EditFile(path: string, e: Edit) returns (r: ToolResult)
      modifies this
      ensures path !in old(files) ==> r == Unreadable && files == old(files)
      ensures path in old(files) ==>
                match Edited(old(files)[path], e)
                case Err(error) => r == Failed(error) && files == old(files)
                case Ok(updated) => r == Done && files == old(files)[path := updated]
    {
      if path !in files {
        return Unreadable;
      }
      var content := files[path];
      var matches := |Split(content, e.oldText)| - 1;
      if matches == 0 {
        return Failed(NotFound);
      }
      if matches > 1 && !e.replaceAll {
        return Failed(NotUnique(matches));
      }
      var updated := if e.replaceAll then Join(Split(content, e.oldText), e.newText)
                     else ReplaceFirst(content, e.oldText, e.newText);
      files := files[path := updated];
      r := Done;
    }

    /** All edits are made in memory and written once, so a failing edit leaves the file as it was. */
    method MultiEdit(path: string, edits: seq<Edit>) returns (r: ToolResult)
      modifies this
      ensures path !in old(files) ==> r == Unreadable && files == old(files)
      ensures path in old(files) ==>
                match EditedInOrder(old(files)[path], edits)
                case Err((index, error)) => r == FailedAt(index, error) && files == old(files)
                case Ok(updated) => r == Done && files == old(files)[path := updated]
    {
      if path !in files {
        return Unreadable;
      }
      var content := files[path];
      for i := 0 to |edits|
        invariant files == old(files)
        invariant EditedInOrder(files[path], edits) == Later(i, EditedInOrder(content, edits[i..]))
      {
        var edit := edits[i];
        NextEdit(content, edits, i);
        var matches := |Split(content, edit.oldText)| - 1;
        if matches == 0 {
          return FailedAt(i, NotFound);
        }
        if matches > 1 && !edit.replaceAll {
          return FailedAt(i, NotUnique(matches));
        }
        content := if edit.replaceAll then Join(Split(content, edit.oldText), edit.newText)
                   else ReplaceFirst(content, edit.oldText, edit.newText);
      }
      assert edits[|edits|..] == [];
      files := files[path := content];
      r := Done;
    }

    method Insert(path: string, content: string, anchor: Option<string>, after: bool) returns (r: ToolResult)
      modifies this
      ensures path !in old(files) ==> r == Unreadable && files == old(files)
      ensures path in old(files) ==>
                match Inserted(old(files)[path], content, anchor, after)
                case Err(error) => r == Failed(error) && files == old(files)
                case Ok(updated) => r == Done && files == old(files)[path := updated]
    {
      if path !in files {
        return Unreadable;
      }
      var file := files[path];
      if anchor == None || anchor.value == "" {
        files := files[path := if after then file + content else content + file];
        return Done;
      }
      var matches := |Split(file, anchor.value)| - 1;
      if matches == 0 {
        return Failed(NotFound);
      }
      if matches > 1 {
        return Failed(NotUnique(matches));
      }
      var replacement := if after then anchor.value + content else content + anchor.value;
      files := files[path := ReplaceFirst(file, anchor.value, replacement)];
      r := Done;
    }
  }

  // ---- multi_edit and single edits ----

  /** edit_file again and again, up to the first failure: the content left and how many edits were made. */
  function OneByOne(content: string, edits: seq<Edit>): (string, nat)
    decreases |edits|
  {
    if edits == [] then (content, 0)
    else
      match Edited(content, edits[0])
      case Err(_) => (content, 0)
      case Ok(updated) =>
        var (left, made) := OneByOne(updated, edits[1..]);
        (left, made + 1)
  }

  /**
   * multi_edit is edit_file once per edit: it succeeds exactly if all of them do and
   * leaves what they leave; if one fails, it fails at that edit with its error, and
   * only the single edits have changed the file by then.
   */
  lemma {:induction false} MultiEditIsEditFileRepeated(content: string, edits: seq<Edit>)
    ensures
      var (left, made) := OneByOne(content, edits);
      && made <= |edits|
      && EditedInOrder(content, edits[..made]) == Ok(left)
      && (made == |edits| ==> EditedInOrder(content, edits) == Ok(left))
      && (made < |edits| ==>
            var failure := Edited(left, edits[made]);
            failure.Err? && EditedInOrder(content, edits) == Err((made, failure.error)))
    decreases |edits|
  {
    if edits == [] {
      assert edits[..0] == [];
    } else if Edited(content, edits[0]).Err? {
      assert edits[..0] == [];
    } else {
      var updated, rest := Edited(content, edits[0]).value, edits[1..];
      MultiEditIsEditFileRepeated(updated, rest);
      var made := OneByOne(updated, rest).1;
      assert edits[..made + 1][1..] == rest[..made];
    }
  }

  /** Two lists of edits in one call are the two calls one after the other. */
  lemma {:induction false} MultiEditAppends(content: string, a: seq<Edit>, b: seq<Edit>)
    ensures
      EditedInOrder(content, a + b) ==
        match EditedInOrder(content, a)
        case Err(e) => Err(e)
        case Ok(middle) => Later(|a|, EditedInOrder(middle, b))
    decreases |a|
  {
    if a == [] {
      assert a + b == b;
    } else {
      assert (a + b)[1..] == a[1..] + b;
      if Edited(content, a[0]).Ok? {
        MultiEditAppends(Edited(content, a[0]).value, a[1..], b);
      }
    }
  }

  /** A literal edit of a single match does the same with and without replace_all. */
  lemma ReplaceAllMakesNoDifference(content: string, oldText: string, newText: string)
    requires oldText != [] && Matches(content, oldText) == 1 && !HasPattern(newText)
    ensures Edited(content, Edit(oldText, newText, false)) == Edited(content, Edit(oldText, newText, true))
  {
    OneMatchFirstIsAll(content, oldText, newText);
  }

  // ---- Undoing an insertion ----

  lemma PrefixHasNoPattern(a: string, b: string)
    requires !HasPattern(a + b)
    ensures !HasPattern(a) && !HasPattern(b)
  {
    forall i | 0 <= i < |a| ensures !PatternAt(a, i) {
      assert !PatternAt(a + b, i);
    }
    forall i | 0 <= i < |b| ensures !PatternAt(b, i) {
      assert !PatternAt(a + b, |a| + i);
    }
  }

  /** A file around the place of an insertion. */
  lemma InsertedShape(file: string, content: string, anchor: string, after: bool)
    requires anchor != [] && Matches(file, anchor) == 1
    requires !HasPattern(if after then anchor + content else content + anchor)
    ensures IndexOf(file, anchor).Some?
    ensures
      var i := IndexOf(file, anchor).value;
      var replacement := if after then anchor + content else content + anchor;
      Inserted(file, content, Some(anchor), after) == Ok(file[..i] + replacement + file[i + |anchor|..])
  {
    var i := IndexOf(file, anchor).value;
    ExpandLiterally(if after then anchor + content else content + anchor, anchor, file[..i], file[i + |anchor|..]);
  }

  /** After the only match of the anchor there is none. */
  lemma NoneAfterTheOnly(file: string, anchor: string)
    requires anchor != [] && Matches(file, anchor) == 1
    ensures IndexOf(file, anchor).Some?
    ensures IndexOf(file[IndexOf(file, anchor).value + |anchor|..], anchor) == None
  {
    MatchesRest(file, anchor);
    CountIsNatural(file[IndexOf(file, anchor).value + |anchor|..], anchor);
  }

  lemma OccursInside(text: string, whole: string, k: nat, part: string, at: nat)
    requires OccursAt(text, whole, k) && OccursAt(whole, part, at)
    ensures OccursAt(text, part, k + at)
  {
    SliceOfSlice(text, k, k + |whole|, at, at + |part|);
  }

  lemma SliceOfSlice(s: string, a: nat, b: nat, c: nat, d: nat)
    requires a <= b <= |s| && c <= d <= b - a
    ensures s[a..b][c..d] == s[a + c..a + d]
  {
    var inner, outer := s[a..b][c..d], s[a + c..a + d];
    forall i | 0 <= i < |inner| ensures inner[i] == outer[i] {
      assert inner[i] == s[a..b][c + i] == s[a + (c + i)];
    }
  }

  /** `whole` contains the anchor, so where the anchor does not occur it does not either. */
  lemma WholeNeedsAnchor(text: string, anchor: string, whole: string, at: nat)
    requires OccursAt(whole, anchor, at) && IndexOf(text, anchor) == None
    ensures IndexOf(text, whole) == None
  {
    if IndexOf(text, whole).Some? {
      OccursInside(text, whole, IndexOf(text, whole).value, anchor, at);
    }
  }

  lemma OccursInCommonPrefix(s: string, t: string, n: nat, d: string, k: nat)
    requires n <= |s| && n <= |t| && s[..n] == t[..n] && k + |d| <= n && OccursAt(s, d, k)
    ensures OccursAt(t, d, k)
  {
    SliceOfSlice(s, 0, n, k, k + |d|);
    SliceOfSlice(t, 0, n, k, k + |d|);
    assert s[0..n] == s[..n] && t[0..n] == t[..n];
  }

  /** The inserted text, found where it was put, gives way to the anchor again. */
  lemma FoundInsertionIsUndone(before: string, after: string, anchor: string, whole: string, at: nat)
    requires anchor != [] && OccursAt(whole, anchor, at) && IndexOf(after, anchor) == None && !HasPattern(anchor)
    requires IndexOf(before + whole + after, whole) == Some(|before|)
    ensures Edited(before + whole + after, Edit(whole, anchor, false)) == Ok(before + anchor + after)
  {
    var s := before + whole + after;
    assert s[..|before|] == before && s[|before| + |whole|..] == after;
    MatchesRest(s, whole);
    WholeNeedsAnchor(after, anchor, whole, at);
    MatchesRest(after, whole);
    ExpandLiterally(anchor, whole, before, after);
  }

  /**
   * Inserting after an anchor is undone by replacing anchor and content with the
   * anchor, even where the content contains or overlaps the anchor.
   */
  lemma InsertAfterIsUndone(file: string, content: string, anchor: string)
    requires anchor != [] && Matches(file, anchor) == 1 && !HasPattern(anchor + content)
    ensures
      var inserted := Inserted(file, content, Some(anchor), true);
      inserted.Ok? && Edited(inserted.value, Edit(anchor + content, anchor, false)) == Ok(file)
  {
    NoneAfterTheOnly(file, anchor);
    InsertedShape(file, content, anchor, true);
    AroundFirst(file, anchor);
    PrefixHasNoPattern(anchor, content);
    var i := IndexOf(file, anchor).value;
    var before, after, whole := file[..i], file[i + |anchor|..], anchor + content;
    var s := before + whole + after;
    assert whole[0..|anchor|] == anchor;
    assert s[i..i + |whole|] == whole;
    assert s[..i + |anchor|] == file[..i + |anchor|];
    forall k | 0 <= k < i ensures !OccursAt(s, whole, k) {
      if OccursAt(s, whole, k) {
        OccursInside(s, whole, k, anchor, 0);
        OccursInCommonPrefix(s, file, i + |anchor|, anchor, k);
      }
    }
    FirstIs(s, whole, 0, i);
    FoundInsertionIsUndone(before, after, anchor, whole, 0);
  }

  lemma OccursWithItsDollars(s: string, d: string, k: nat)
    requires OccursAt(s, d, k)
    ensures Dollars(d) <= Dollars(s)
  {
    var before, after := s[..k], s[k + |d|..];
    assert s == before + (d + after);
    DollarsConcat(before, d + after);
    DollarsConcat(d, after);
  }

  lemma {:induction false} NoDollarsIn(s: string, part: string)
    requires '$' !in s && forall c :: c in part ==> c in s
    ensures '$' !in part && Dollars(part) == 0
  {
    NoDollars(part);
  }

  /** What an insertion beside an anchor puts in its place. */
  function Replacement(content: string, anchor: string, after: bool): string {
    if after then anchor + content else content + anchor
  }

  /** With a pattern in it, what goes in has fewer dollar signs than the text that would be looked for. */
  lemma PatternIsNotFound(file: string, content: string, anchor: string, after: bool)
    requires anchor != [] && Matches(file, anchor) == 1 && '$' !in file
    requires HasPattern(Replacement(content, anchor, after))
    ensures
      var inserted := Inserted(file, content, Some(anchor), after);
      inserted.Ok? && Edited(inserted.value, Edit(Replacement(content, anchor, after), anchor, false)) == Err(NotFound)
  {
    CountIsNatural(file, anchor);
    var i := IndexOf(file, anchor).value;
    var before, rest, whole := file[..i], file[i + |anchor|..], Replacement(content, anchor, after);
    var put := Expand(whole, anchor, before, rest);
    var s := before + put + rest;
    AroundFirst(file, anchor);
    NoDollarsIn(file, before);
    NoDollarsIn(file, rest);
    assert forall c :: c in anchor ==> c in file;
    NoDollarsIn(file, anchor);
    ExpandLosesDollars(whole, anchor, before, rest);
    DollarsConcat(before + put, rest);
    DollarsConcat(before, put);
    CountIsNatural(s, whole);
    if IndexOf(s, whole).Some? {
      OccursWithItsDollars(s, whole, IndexOf(s, whole).value);
      assert false;
    }
  }

  /**
   * An insertion after the only match of its anchor, into a file without dollar signs
   * or of a text without patterns, is undone exactly if it has no pattern.
   */
  lemma InsertAfterIsUndoneIff(file: string, content: string, anchor: string)
    requires anchor != [] && Matches(file, anchor) == 1 && ('$' !in file || !HasPattern(anchor + content))
    ensures
      var inserted := Inserted(file, content, Some(anchor), true);
      inserted.Ok? &&
      (Edited(inserted.value, Edit(anchor + content, anchor, false)) == Ok(file) <==> !HasPattern(anchor + content))
  {
    if HasPattern(anchor + content) {
      PatternIsNotFound(file, content, anchor, true);
    } else {
      InsertAfterIsUndone(file, content, anchor);
    }
  }

  /** Found anywhere before the anchor's place, the inserted text is replaced in the wrong place. */
  lemma MisplacedInsertionIsNotUndone(file: string, anchor: string, s: string, whole: string)
    requires IndexOf(file, anchor).Some? && IndexOf(s, whole).Some? && !HasPattern(anchor)
    requires IndexOf(s, whole).value < IndexOf(file, anchor).value
    ensures ReplaceFirst(s, whole, anchor) != file
  {
    var j := IndexOf(s, whole).value;
    ExpandLiterally(anchor, whole, s[..j], s[j + |whole|..]);
    var undone := s[..j] + anchor + s[j + |whole|..];
    assert undone[j..j + |anchor|] == anchor;
    assert OccursAt(undone, anchor, j) && !OccursAt(file, anchor, j);
  }

  /** A file with `content` inserted before its only anchor. */
  lemma InsertedBefore(file: string, content: string, anchor: string)
    requires anchor != [] && Matches(file, anchor) == 1 && !HasPattern(content + anchor)
    ensures IndexOf(file, anchor).Some?
    ensures
      var i := IndexOf(file, anchor).value;
      var before, after, whole := file[..i], file[i + |anchor|..], content + anchor;
      && Inserted(file, content, Some(anchor), false) == Ok(before + whole + after)
      && file == before + anchor + after
      && IndexOf(after, anchor) == None
      && OccursAt(before + whole + after, whole, i)
      && !HasPattern(anchor)
  {
    NoneAfterTheOnly(file, anchor);
    InsertedShape(file, content, anchor, false);
    PrefixHasNoPattern(content, anchor);
    AroundFirst(file, anchor);
    var i := IndexOf(file, anchor).value;
    var before, after, whole := file[..i], file[i + |anchor|..], content + anchor;
    assert (before + whole + after)[i..i + |whole|] == whole;
  }

  /** It is undone in the same way exactly if the inserted text is not found earlier than the anchor was. */
  lemma UndoneIffFoundInPlace(file: string, content: string, anchor: string)
    requires anchor != [] && Matches(file, anchor) == 1 && !HasPattern(content + anchor)
    ensures
      var inserted := Inserted(file, content, Some(anchor), false);
      inserted.Ok? &&
      (Edited(inserted.value, Edit(content + anchor, anchor, false)) == Ok(file)
       <==> IndexOf(inserted.value, content + anchor) == IndexOf(file, anchor))
  {
    InsertedBefore(file, content, anchor);
    var i := IndexOf(file, anchor).value;
    var before, after, whole := file[..i], file[i + |anchor|..], content + anchor;
    var s := before + whole + after;
    if IndexOf(s, whole).value == i {
      assert whole[|content|..|content| + |anchor|] == anchor;
      FoundInsertionIsUndone(before, after, anchor, whole, |content|);
    } else {
      MisplacedInsertionIsNotUndone(file, anchor, s, whole);
    }
  }

  /**
   * `before` ends with the first `p` characters of `whole`, and `whole` shifted by `p`
   * fits on itself: put behind `before`, `whole` is found `p` characters early.
   */
  predicate Meets(before: string, whole: string, p: nat) {
    0 < p < |whole| && p <= |before| && before[|before| - p..] == whole[..p] && whole[p..] == whole[..|whole| - p]
  }

  lemma EarlyOccurrence(before: string, whole: string, after: string, p: nat)
    requires 0 < p < |whole| && p <= |before|
    ensures OccursAt(before + whole + after, whole, |before| - p) <==> Meets(before, whole, p)
  {
    var s, k := before + whole + after, |before| - p;
    var head, tail := before[k..], whole[..|whole| - p];
    assert s[k..k + |whole|] == head + tail;
    assert whole == whole[..p] + whole[p..];
    assert (head + tail)[..p] == head && (head + tail)[p..] == tail;
  }

  /** An occurrence before the anchor's place reaches into the inserted text, since the anchor was not found earlier. */
  lemma NoneFurtherAhead(file: string, content: string, anchor: string, k: nat)
    requires anchor != [] && Matches(file, anchor) == 1 && IndexOf(file, anchor).Some?
    requires
      var i := IndexOf(file, anchor).value;
      OccursAt(file[..i] + (content + anchor) + file[i + |anchor|..], content + anchor, k) && k < i
    ensures IndexOf(file, anchor).value < k + |content + anchor|
  {
    var i, whole := IndexOf(file, anchor).value, content + anchor;
    var s := file[..i] + whole + file[i + |anchor|..];
    if k + |whole| <= i {
      assert whole[|content|..|content| + |anchor|] == anchor;
      OccursInside(s, whole, k, anchor, |content|);
      assert s[..i] == file[..i];
      OccursInCommonPrefix(s, file, i, anchor, k + |content|);
      assert false;
    }
  }

  lemma FoundInPlaceIff(file: string, content: string, anchor: string)
    requires anchor != [] && Matches(file, anchor) == 1 && IndexOf(file, anchor).Some?
    ensures
      var i := IndexOf(file, anchor).value;
      var s := file[..i] + (content + anchor) + file[i + |anchor|..];
      IndexOf(s, content + anchor) == Some(i) <==> forall p :: !Meets(file[..i], content + anchor, p)
  {
    var i, whole := IndexOf(file, anchor).value, content + anchor;
    var before, after := file[..i], file[i + |anchor|..];
    var s := before + whole + after;
    assert s[i..i + |whole|] == whole;
    if p :| Meets(before, whole, p) {
      EarlyOccurrence(before, whole, after, p);
      assert OccursAt(s, whole, i - p);
    } else {
      forall k | 0 <= k < i ensures !OccursAt(s, whole, k) {
        if OccursAt(s, whole, k) {
          NoneFurtherAhead(file, content, anchor, k);
          EarlyOccurrence(before, whole, after, i - k);
          assert false;
        }
      }
      FirstIs(s, whole, 0, i);
    }
  }

  /**
   * An insertion before the only match of its anchor, into a file without dollar signs
   * or of a text without patterns, is undone by replacing the text with the anchor
   * exactly if it has no pattern and does not meet what stands before the anchor.
   */
  lemma InsertBeforeIsUndoneIff(file: string, content: string, anchor: string)
    requires anchor != [] && Matches(file, anchor) == 1 && ('$' !in file || !HasPattern(content + anchor))
    ensures IndexOf(file, anchor).Some?
    ensures
      var inserted := Inserted(file, content, Some(anchor), false);
      inserted.Ok? &&
      (Edited(inserted.value, Edit(content + anchor, anchor, false)) == Ok(file)
       <==> !HasPattern(content + anchor)
            && forall p :: !Meets(file[..IndexOf(file, anchor).value], content + anchor, p))
  {
    NoneAfterTheOnly(file, anchor);
    if HasPattern(content + anchor) {
      PatternIsNotFound(file, content, anchor, false);
    } else {
      InsertedBefore(file, content, anchor);
      UndoneIffFoundInPlace(file, content, anchor);
      FoundInPlaceIff(file, content, anchor);
    }
  }

  /** An insertion before its anchor that replacing does not undo: "x" before "yxy" in "xyyxy". */
  lemma InsertBeforeCanFailToUndo()
    ensures
      var inserted := Inserted("xyyxy", "x", Some("yxy"), false);
      inserted.Ok? && Edited(inserted.value, Edit("xyxy", "yxy", false)) != Ok("xyyxy")
  {
    AnchorInExample();
    MeetsInExample();
    var file, content, anchor := "xyyxy", "x", "yxy";
    assert content + anchor == "xyxy";
    NoDollarsNoPattern("xyxy");
    assert file[..2] == "xy";
    InsertBeforeIsUndoneIff(file, content, anchor);
  }

  lemma MeetsInExample()
    ensures Meets("xy", "xyxy", 2)
  {
    assert "xyxy"[..2] == "xyxy"[2..] == "xy"[0..] == "xy";
  }

  lemma AnchorInExample()
    ensures IndexOf("xyyxy", "yxy") == Some(2) && Matches("xyyxy", "yxy") == 1
  {
    var file, anchor := "xyyxy", "yxy";
    assert file[2..5] == anchor && file[0..3] == "xyy" && file[1..4] == "yyx";
    FirstIs(file, anchor, 0, 2);
    MatchesRest(file, anchor);
    assert file[5..] == "";
    MatchesRest("", anchor);
  }

  lemma NoDollarsNoPattern(t: string)
    requires '$' !in t
    ensures !HasPattern(t)
  {
  }
}
