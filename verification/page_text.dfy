/** Cleaning of a fetched page's text for the web_search tool. */
module PageText {
  import opened Common
  import opened Text

  /** White space and line terminators, as trim removes them. */
  predicate IsSpace(c: char) {
    || '\t' <= c <= '\r' || c == ' '
    || c == '\U{00A0}' || c == '\U{1680}'
    || '\U{2000}' <= c <= '\U{200A}'
    || c == '\U{2028}' || c == '\U{2029}' || c == '\U{202F}' || c == '\U{205F}'
    || c == '\U{3000}' || c == '\U{FEFF}'
  }

  /** Characters that take no room on the page: control codes, joiners and the byte order mark. */
  predicate IsInvisible(c: char) {
    || c <= '\U{0008}'
    || c == '\U{000B}' || c == '\U{000C}'
    || '\U{000E}' <= c <= '\U{001F}'
    || '\U{200B}' <= c <= '\U{200D}'
    || c == '\U{FEFF}'
  }

  /** What the two regular expressions of the tool say about a line. */
  datatype Filters = Filters(code: string -> bool, boilerplate: string -> bool)

  predicate Dropped(f: Filters, line: string) {
    f.code(line) || (|line| < 40 && f.boilerplate(line)) || |line| <= 2
  }

  // ---- Lines ----

  function UnixLines(s: string): string {
    if s == [] then []
    else if s[0] == '\r' then ['\n'] + UnixLines(if |s| > 1 && s[1] == '\n' then s[2..] else s[1..])
    else [s[0]] + UnixLines(s[1..])
  }

  function Visible(s: string): string {
    if s == [] then [] else (if IsInvisible(s[0]) then [] else [s[0]]) + Visible(s[1..])
  }

  predicate IsBlank(c: char) { c == ' ' || c == '\t' }

  /** Every run of blanks and tabs becomes one blank. */
  function Squeeze(s: string): string {
    if s == [] then []
    else if IsBlank(s[0]) then
      if |s| > 1 && IsBlank(s[1]) then Squeeze(s[1..]) else [' '] + Squeeze(s[1..])
    else [s[0]] + Squeeze(s[1..])
  }

  function TrimStart(s: string): string {
    if s != [] && IsSpace(s[0]) then TrimStart(s[1..]) else s
  }

  function TrimEnd(s: string): string {
    if s != [] && IsSpace(s[|s| - 1]) then TrimEnd(s[..|s| - 1]) else s
  }

  function Trim(s: string): string { TrimEnd(TrimStart(s)) }

  function Tidy(line: string): string { Trim(Squeeze(line)) }

  function TidyAll(lines: seq<string>): seq<string> {
    seq(|lines|, i requires 0 <= i < |lines| => Tidy(lines[i]))
  }

  function Lines(raw: string): seq<string> { TidyAll(Split(Visible(UnixLines(raw)), "\n")) }

  predicate ThreeFeeds(s: string) { |s| >= 3 && s[0] == '\n' && s[1] == '\n' && s[2] == '\n' }

  /** Three or more line feeds in a row become two. */
  function Collapse(s: string): string {
    if s == [] then []
    else if ThreeFeeds(s) then Collapse(s[1..])
    else [s[0]] + Collapse(s[1..])
  }

  // ---- What the cleaned page is ----

  /** A line that is kept, and whether a blank line followed it before the next kept one. */
  datatype Block = Block(line: string, gap: bool)

  function Blocks(f: Filters, lines: seq<string>): seq<Block> {
    if lines == [] then []
    else
      var before := Blocks(f, lines[..|lines| - 1]);
      var line := lines[|lines| - 1];
      if line == "" then
        if before == [] then [] else before[|before| - 1 := before[|before| - 1].(gap := true)]
      else if Dropped(f, line) then before
      else before + [Block(line, false)]
  }

  function Break(gap: bool): string { if gap then "\n\n" else "\n" }

  /** Kept lines in order, one blank line where there was a gap. */
  function Present(blocks: seq<Block>): string {
    if blocks == [] then ""
    else if |blocks| == 1 then blocks[0].line
    else blocks[0].line + Break(blocks[0].gap) + Present(blocks[1..])
  }

  function Cleaned(f: Filters, raw: string): string { Present(Blocks(f, Lines(raw))) }

  /** The positions of the kept lines. */
  function KeptAt(f: Filters, lines: seq<string>): (r: seq<nat>)
    ensures forall i :: 0 <= i < |r| ==> r[i] < |lines|
  {
    if lines == [] then []
    else
      var n := |lines| - 1;
      KeptAt(f, lines[..n]) + if lines[n] != "" && !Dropped(f, lines[n]) then [n] else []
  }

  predicate BlankBetween(lines: seq<string>, from: nat, to: nat)
    requires to <= |lines|
  {
    exists j :: from < j < to && lines[j] == ""
  }

  function NextKept(kept: seq<nat>, i: nat, end: nat): nat {
    if i + 1 < |kept| then kept[i + 1] else end
  }

  predicate Kept(f: Filters, line: string) { line != "" && !Dropped(f, line) }

  lemma {:induction false} KeptPositions(f: Filters, lines: seq<string>)
    ensures forall j :: 0 <= j < |lines| ==> (j in KeptAt(f, lines) <==> Kept(f, lines[j]))
    ensures forall i, j :: 0 <= i < j < |KeptAt(f, lines)| ==> KeptAt(f, lines)[i] < KeptAt(f, lines)[j]
  {
    if lines != [] {
      var n := |lines| - 1;
      KeptPositions(f, lines[..n]);
      assert n !in KeptAt(f, lines[..n]);
    }
  }

  lemma BlankInPrefix(lines: seq<string>, from: nat, to: nat)
    requires lines != [] && to < |lines|
    ensures BlankBetween(lines[..|lines| - 1], from, to) <==> BlankBetween(lines, from, to)
  {
    assert forall j :: 0 <= j < |lines| - 1 ==> lines[..|lines| - 1][j] == lines[j];
  }

  lemma OneMoreLine(lines: seq<string>, from: nat)
    requires lines != [] && from < |lines| - 1
    ensures
      var n := |lines| - 1;
      BlankBetween(lines, from, n + 1) <==> BlankBetween(lines[..n], from, n) || lines[n] == ""
  {
    var n := |lines| - 1;
    BlankInPrefix(lines, from, n);
    if BlankBetween(lines, from, n + 1) && lines[n] != "" {
      var j :| from < j < n + 1 && lines[j] == "";
      assert j < n;
    }
  }

  /** Block `i` is the line at `kept[i]`, with a gap exactly if a blank line comes before the next kept one. */
  predicate BlockAt(lines: seq<string>, b: Block, kept: seq<nat>, i: nat)
    requires i < |kept| && kept[i] < |lines|
  {
    var to := NextKept(kept, i, |lines|);
    to <= |lines| && b.line == lines[kept[i]] && (b.gap <==> BlankBetween(lines, kept[i], to))
  }

  lemma BlockStays(lines: seq<string>, b: Block, kept: seq<nat>, more: seq<nat>, i: nat)
    requires lines != [] && i < |kept| && kept[i] < |lines| - 1
    requires BlockAt(lines[..|lines| - 1], b, kept, i)
    requires more == kept || more == kept + [|lines| - 1]
    ensures
      var gap := b.gap || (i == |kept| - 1 && more == kept && lines[|lines| - 1] == "");
      BlockAt(lines, b.(gap := gap), more, i)
  {
    var n := |lines| - 1;
    if i + 1 < |kept| {
      BlankInPrefix(lines, kept[i], kept[i + 1]);
    } else {
      BlankInPrefix(lines, kept[i], n);
      OneMoreLine(lines, kept[i]);
    }
  }

  lemma BlocksStay(f: Filters, lines: seq<string>, i: nat)
    requires lines != [] && i < |KeptAt(f, lines[..|lines| - 1])| == |Blocks(f, lines[..|lines| - 1])|
    requires
      var before := lines[..|lines| - 1];
      BlockAt(before, Blocks(f, before)[i], KeptAt(f, before), i)
    ensures i < |Blocks(f, lines)| && i < |KeptAt(f, lines)|
    ensures BlockAt(lines, Blocks(f, lines)[i], KeptAt(f, lines), i)
  {
    var n := |lines| - 1;
    if !Kept(f, lines[n]) {
      assert KeptAt(f, lines) == KeptAt(f, lines[..n]);
    }
    BlockStays(lines, Blocks(f, lines[..n])[i], KeptAt(f, lines[..n]), KeptAt(f, lines), i);
  }

  /**
   * The blocks are the non-blank lines that pass the filters, in order, and a gap
   * stands after one exactly if some blank line lies before the next kept line.
   */
  lemma {:induction false} BlocksAreTheKeptLines(f: Filters, lines: seq<string>)
    ensures |Blocks(f, lines)| == |KeptAt(f, lines)|
    ensures forall i :: 0 <= i < |KeptAt(f, lines)| ==> BlockAt(lines, Blocks(f, lines)[i], KeptAt(f, lines), i)
  {
    if lines != [] {
      var n := |lines| - 1;
      BlocksAreTheKeptLines(f, lines[..n]);
      var kept := KeptAt(f, lines[..n]);
      forall i | 0 <= i < |kept| ensures BlockAt(lines, Blocks(f, lines)[i], KeptAt(f, lines), i) {
        BlocksStay(f, lines, i);
      }
    }
  }

  // ---- The tool's loop ----

  /** A kept line with the blank entries the loop puts behind it: at least one exactly at a gap. */
  datatype Run = Run(line: string, blanks: nat)

  function Feeds(n: nat): string { seq(n, _ => '\n') }

  /** All runs joined by line feeds, up to the last kept line. */
  function Body(runs: seq<Run>): string {
    if runs == [] then []
    else
      var n := |runs| - 1;
      Body(runs[..n]) + (if n == 0 then [] else Feeds(runs[n - 1].blanks + 1)) + runs[n].line
  }

  function Laid(runs: seq<Run>): string {
    if runs == [] then [] else Body(runs) + Feeds(runs[|runs| - 1].blanks)
  }

  function BlocksOf(runs: seq<Run>): seq<Block> {
    seq(|runs|, i requires 0 <= i < |runs| => Block(runs[i].line, runs[i].blanks > 0))
  }

  function OneMoreBlank(runs: seq<Run>): seq<Run>
    requires runs != []
  {
    runs[|runs| - 1 := runs[|runs| - 1].(blanks := runs[|runs| - 1].blanks + 1)]
  }

  lemma {:induction false} JoinSnoc(parts: seq<string>, part: string)
    requires parts != []
    ensures Join(parts + [part], "\n") == Join(parts, "\n") + "\n" + part
  {
    if |parts| == 1 {
      assert (parts + [part])[1..] == [part];
    } else {
      JoinSnoc(parts[1..], part);
      assert (parts + [part])[1..] == parts[1..] + [part];
    }
  }

  lemma BlankIsLaid(runs: seq<Run>)
    requires runs != []
    ensures Laid(OneMoreBlank(runs)) == Laid(runs) + "\n"
  {
    var n := |runs| - 1;
    assert OneMoreBlank(runs)[..n] == runs[..n];
    assert Feeds(runs[n].blanks + 1) == Feeds(runs[n].blanks) + "\n";
  }

  lemma LineIsLaid(runs: seq<Run>, line: string)
    ensures Laid(runs + [Run(line, 0)]) == if runs == [] then line else Laid(runs) + "\n" + line
  {
    assert (runs + [Run(line, 0)])[..|runs|] == runs;
    if runs == [] {
      assert Body([Run(line, 0)]) == line;
    } else {
      var blanks := runs[|runs| - 1].blanks;
      assert Feeds(blanks + 1) == Feeds(blanks) + "\n";
    }
  }

  lemma BlocksSnoc(f: Filters, lines: seq<string>, line: string)
    ensures
      var before := Blocks(f, lines);
      Blocks(f, lines + [line]) ==
        if line == "" then
          if before == [] then [] else before[|before| - 1 := before[|before| - 1].(gap := true)]
        else if Dropped(f, line) then before
        else before + [Block(line, false)]
  {
    assert (lines + [line])[..|lines|] == lines;
  }

  /** What the loop has after the lines `seen`. */
  ghost predicate SoFar(f: Filters, seen: seq<string>, kept: seq<string>, runs: seq<Run>) {
    Join(kept, "\n") == Laid(runs) && BlocksOf(runs) == Blocks(f, seen) && (kept == [] <==> runs == [])
  }

  lemma BlankIsGap(runs: seq<Run>)
    requires runs != []
    ensures
      var blocks, n := BlocksOf(runs), |runs| - 1;
      BlocksOf(OneMoreBlank(runs)) == blocks[n := blocks[n].(gap := true)]
  {
    var n := |runs| - 1;
    var longer := OneMoreBlank(runs);
    assert forall i :: 0 <= i < n ==> longer[i] == runs[i];
    assert longer[n].blanks > 0;
  }

  lemma JoinBlank(kept: seq<string>)
    requires kept != []
    ensures Join(kept + [""], "\n") == Join(kept, "\n") + "\n"
  {
    JoinSnoc(kept, "");
    var joined := Join(kept, "\n") + "\n";
    assert joined + "" == joined;
  }

  lemma BlankPushed(f: Filters, seen: seq<string>, kept: seq<string>, runs: seq<Run>)
    requires SoFar(f, seen, kept, runs) && kept != []
    ensures SoFar(f, seen + [""], kept + [""], OneMoreBlank(runs))
  {
    JoinBlank(kept);
    BlankIsLaid(runs);
    BlankIsGap(runs);
    BlocksSnoc(f, seen, "");
  }

  lemma BlankSkipped(f: Filters, seen: seq<string>, kept: seq<string>, runs: seq<Run>)
    requires SoFar(f, seen, kept, runs) && (runs == [] || runs[|runs| - 1].blanks > 0)
    ensures SoFar(f, seen + [""], kept, runs)
  {
    BlocksSnoc(f, seen, "");
    assert BlocksOf(runs) == Blocks(f, seen + [""]);
  }

  lemma LinePushed(f: Filters, seen: seq<string>, kept: seq<string>, runs: seq<Run>, line: string)
    requires SoFar(f, seen, kept, runs) && Kept(f, line)
    ensures SoFar(f, seen + [line], kept + [line], runs + [Run(line, 0)])
  {
    if kept != [] {
      JoinSnoc(kept, line);
    }
    LineIsLaid(runs, line);
    BlocksSnoc(f, seen, line);
    assert BlocksOf(runs + [Run(line, 0)]) == BlocksOf(runs) + [Block(line, false)];
  }

  /**
   * The loop of cleanPageText that fills `kept`: joined, it is the blocks laid out
   * with some number of blank lines at each gap.
   */
  method KeepLines(f: Filters, lines: seq<string>) returns (kept: seq<string>)
    ensures exists runs :: Join(kept, "\n") == Laid(runs) && BlocksOf(runs) == Blocks(f, lines)
  {
    kept := [];
    ghost var runs: seq<Run> := [];
    var lastBlank := false;
    for i := 0 to |lines|
      invariant SoFar(f, lines[..i], kept, runs)
      invariant lastBlank ==> runs != [] && runs[|runs| - 1].blanks > 0
    {
      var line := lines[i];
      assert lines[..i + 1] == lines[..i] + [line];
      if line == "" {
        if !lastBlank && |kept| > 0 {
          BlankPushed(f, lines[..i], kept, runs);
          runs := OneMoreBlank(runs);
          kept := kept + [""];
          lastBlank := true;
        } else {
          BlankSkipped(f, lines[..i], kept, runs);
        }
      } else {
        lastBlank := false;
        if Dropped(f, line) {
          BlocksSnoc(f, lines[..i], line);
        } else {
          LinePushed(f, lines[..i], kept, runs, line);
          runs := runs + [Run(line, 0)];
          kept := kept + [line];
        }
      }
    }
    assert lines[..|lines|] == lines;
  }

  // ---- Lines are tidy ----

  /** No tab, and no two blanks in a row. */
  predicate Squeezed(s: string) {
    forall i :: 0 <= i < |s| ==> s[i] != '\t' && (s[i] == ' ' && i + 1 < |s| ==> s[i + 1] != ' ')
  }

  /** A character that can be in a cleaned page. */
  predicate Plain(c: char) { c != '\r' && !IsInvisible(c) }

  predicate AllPlain(s: string) { forall i :: 0 <= i < |s| ==> Plain(s[i]) }

  predicate Edged(s: string) { s != [] ==> !IsSpace(s[0]) && !IsSpace(s[|s| - 1]) }

  predicate TidyLine(s: string) { Squeezed(s) && AllPlain(s) && '\n' !in s && Edged(s) }

  lemma {:induction false} SqueezeSqueezes(s: string)
    ensures Squeezed(Squeeze(s))
    ensures s != [] ==> Squeeze(s) != [] && (Squeeze(s)[0] == ' ' <==> IsBlank(s[0]))
    ensures forall c :: c in Squeeze(s) ==> c in s || c == ' '
  {
    if s != [] {
      SqueezeSqueezes(s[1..]);
    }
  }

  lemma {:induction false} SqueezedStays(s: string)
    requires Squeezed(s)
    ensures Squeeze(s) == s
  {
    if s != [] {
      assert forall i :: 0 <= i < |s[1..]| ==> s[1..][i] == s[i + 1];
      SqueezedStays(s[1..]);
    }
  }

  lemma {:induction false} TrimStartIsSuffix(s: string) returns (i: nat)
    ensures i <= |s| && TrimStart(s) == s[i..]
    ensures i < |s| ==> !IsSpace(s[i])
  {
    i := 0;
    if s != [] && IsSpace(s[0]) {
      var k := TrimStartIsSuffix(s[1..]);
      i := k + 1;
    }
  }

  lemma {:induction false} TrimEndIsPrefix(s: string) returns (j: nat)
    ensures j <= |s| && TrimEnd(s) == s[..j]
    ensures j > 0 ==> !IsSpace(s[j - 1])
  {
    j := |s|;
    if s != [] && IsSpace(s[|s| - 1]) {
      j := TrimEndIsPrefix(s[..|s| - 1]);
    }
  }

  lemma TrimIsSlice(s: string) returns (i: nat, j: nat)
    ensures i <= j <= |s| && Trim(s) == s[i..j]
    ensures i < j ==> !IsSpace(s[i]) && !IsSpace(s[j - 1])
  {
    i := TrimStartIsSuffix(s);
    var n := TrimEndIsPrefix(s[i..]);
    j := i + n;
    assert s[i..][..n] == s[i..j];
  }

  lemma TidyMakesTidy(line: string)
    requires AllPlain(line) && '\n' !in line
    ensures TidyLine(Tidy(line))
  {
    var s := Squeeze(line);
    SqueezeSqueezes(line);
    var i, j := TrimIsSlice(s);
    forall k | 0 <= k < j - i ensures Plain(s[i..j][k]) && s[i..j][k] != '\n' {
      assert s[i + k] in s;
      if s[i + k] in line {
        var m :| 0 <= m < |line| && line[m] == s[i + k];
      }
    }
  }

  lemma TidyStays(line: string)
    requires TidyLine(line)
    ensures Tidy(line) == line
  {
    SqueezedStays(line);
  }

  lemma {:induction false} UnixLinesPlain(s: string)
    ensures forall c :: c in UnixLines(s) ==> c != '\r'
    decreases |s|
  {
    if s != [] {
      UnixLinesPlain(s[1..]);
      if |s| > 1 { UnixLinesPlain(s[2..]); }
    }
  }

  lemma {:induction false} VisiblePlain(s: string)
    requires forall c :: c in s ==> c != '\r'
    ensures AllPlain(Visible(s))
  {
    if s != [] {
      assert forall c :: c in s[1..] ==> c in s;
      VisiblePlain(s[1..]);
      assert s[0] in s;
      var rest := Visible(s[1..]);
      assert Visible(s) == if IsInvisible(s[0]) then rest else [s[0]] + rest;
    }
  }

  lemma {:induction false} PiecesAreLines(s: string)
    requires AllPlain(s)
    ensures forall p :: p in Split(s, "\n") ==> AllPlain(p) && '\n' !in p
    decreases |s|
  {
    match IndexOf(s, "\n")
    case None =>
      NoLineFeed(s, |s|);
    case Some(i) =>
      PiecesAreLines(s[i + 1..]);
      NoLineFeed(s, i);
  }

  lemma NoLineFeed(s: string, n: nat)
    requires n <= |s| && forall k :: 0 <= k < n ==> !OccursAt(s, "\n", k)
    ensures '\n' !in s[..n]
  {
    forall k | 0 <= k < n ensures s[k] != '\n' {
      if s[k] == '\n' {
        assert s[k..k + 1] == "\n";
        assert OccursAt(s, "\n", k);
      }
    }
  }

  lemma LinesAreTidy(raw: string)
    ensures forall i :: 0 <= i < |Lines(raw)| ==> TidyLine(Lines(raw)[i])
  {
    UnixLinesPlain(raw);
    VisiblePlain(UnixLines(raw));
    var pieces := Split(Visible(UnixLines(raw)), "\n");
    PiecesAreLines(Visible(UnixLines(raw)));
    forall i | 0 <= i < |pieces| ensures TidyLine(Tidy(pieces[i])) {
      assert pieces[i] in pieces;
      TidyMakesTidy(pieces[i]);
    }
  }

  /** A block whose line can stand in a cleaned page. */
  predicate Solid(f: Filters, b: Block) { TidyLine(b.line) && Kept(f, b.line) }

  predicate AllSolid(f: Filters, blocks: seq<Block>) {
    forall i :: 0 <= i < |blocks| ==> Solid(f, blocks[i])
  }

  lemma {:induction false} BlocksAreSolid(f: Filters, lines: seq<string>)
    requires forall i :: 0 <= i < |lines| ==> TidyLine(lines[i])
    ensures AllSolid(f, Blocks(f, lines))
  {
    if lines != [] {
      BlocksAreSolid(f, lines[..|lines| - 1]);
    }
  }

  // ---- From the loop's output to the page ----

  lemma Regroup(x: string, y: string, z: string)
    ensures x + y + z == x + (y + z)
  {
  }

  lemma {:induction false} CollapseAppend(x: string, y: string)
    requires x != [] && x[|x| - 1] != '\n'
    ensures Collapse(x + y) == Collapse(x) + Collapse(y)
  {
    if |x| == 1 {
      assert x + y == [x[0]] + y;
    } else {
      var rest := x[1..];
      CollapseAppend(rest, y);
      assert (x + y)[1..] == rest + y;
      assert ThreeFeeds(x + y) <==> ThreeFeeds(x);
      Regroup([x[0]], Collapse(rest), Collapse(y));
    }
  }

  lemma {:induction false} CollapseLine(line: string)
    requires '\n' !in line
    ensures Collapse(line) == line
  {
    if line != [] {
      CollapseLine(line[1..]);
    }
  }

  lemma FeedsCons(n: nat, y: string)
    requires n > 0
    ensures Feeds(n) + y == ['\n'] + (Feeds(n - 1) + y)
  {
    assert Feeds(n) == ['\n'] + Feeds(n - 1);
  }

  /** Two line feeds, then no third. */
  lemma CollapseFew(y: string)
    requires y == [] || y[0] != '\n'
    ensures Collapse("\n" + y) == "\n" + Collapse(y)
    ensures Collapse("\n\n" + y) == "\n\n" + Collapse(y)
  {
    assert ("\n" + y)[1..] == y;
    assert ("\n\n" + y)[1..] == "\n" + y;
    assert "\n\n" + Collapse(y) == "\n" + ("\n" + Collapse(y));
  }

  lemma CollapseMany(n: nat, y: string)
    requires n > 2
    ensures Collapse(Feeds(n) + y) == Collapse(Feeds(n - 1) + y)
  {
    var s := Feeds(n) + y;
    assert s[0] == s[1] == s[2] == '\n';
    FeedsCons(n, y);
    assert s[1..] == Feeds(n - 1) + y;
  }

  /** Three or more line feeds become two; one or two stay. */
  lemma {:induction false} CollapseFeeds(n: nat, y: string)
    requires n > 0 && (y == [] || y[0] != '\n')
    ensures Collapse(Feeds(n) + y) == Break(n > 1) + Collapse(y)
  {
    if n > 2 {
      CollapseFeeds(n - 1, y);
      CollapseMany(n, y);
    } else {
      CollapseFew(y);
      assert Feeds(1) == "\n" && Feeds(2) == "\n\n";
    }
  }

  predicate AllSolidLines(f: Filters, runs: seq<Run>) {
    forall i :: 0 <= i < |runs| ==> TidyLine(runs[i].line) && Kept(f, runs[i].line)
  }

  lemma BodyEnds(f: Filters, runs: seq<Run>)
    requires runs != [] && AllSolidLines(f, runs)
    ensures Body(runs) != [] && !IsSpace(Body(runs)[|Body(runs)| - 1])
  {
    var last := runs[|runs| - 1].line;
    assert Body(runs)[|Body(runs)| - 1] == last[|last| - 1];
  }

  lemma PresentCons(b: Block, blocks: seq<Block>)
    requires blocks != []
    ensures Present([b] + blocks) == b.line + Break(b.gap) + Present(blocks)
  {
    assert ([b] + blocks)[1..] == blocks;
  }

  lemma {:induction false} PresentSnoc(blocks: seq<Block>, b: Block)
    requires blocks != []
    ensures Present(blocks + [b]) == Present(blocks) + Break(blocks[|blocks| - 1].gap) + b.line
  {
    var last := Break(blocks[|blocks| - 1].gap);
    if |blocks| == 1 {
      assert blocks == [blocks[0]];
      PresentCons(blocks[0], [b]);
    } else {
      var first, tail := blocks[0], blocks[1..];
      var front, rest := first.line + Break(first.gap), Present(tail);
      assert blocks == [first] + tail && blocks + [b] == [first] + (tail + [b]);
      PresentSnoc(tail, b);
      PresentCons(first, tail);
      PresentCons(first, tail + [b]);
      Regroup(front, rest, last);
      Regroup(front, rest + last, b.line);
    }
  }

  lemma LineCollapses(x: string, blanks: nat, line: string)
    requires x != [] && !IsSpace(x[|x| - 1])
    requires '\n' !in line
    ensures Collapse(x + Feeds(blanks + 1) + line) == Collapse(x) + Break(blanks > 0) + line
  {
    Regroup(x, Feeds(blanks + 1), line);
    CollapseAppend(x, Feeds(blanks + 1) + line);
    CollapseFeeds(blanks + 1, line);
    CollapseLine(line);
    Regroup(Collapse(x), Break(blanks > 0), line);
  }

  lemma PresentRuns(runs: seq<Run>)
    requires |runs| > 1
    ensures
      var n := |runs| - 1;
      Present(BlocksOf(runs)) == Present(BlocksOf(runs[..n])) + Break(runs[n - 1].blanks > 0) + runs[n].line
  {
    var n := |runs| - 1;
    PresentSnoc(BlocksOf(runs[..n]), BlocksOf(runs)[n]);
    assert BlocksOf(runs) == BlocksOf(runs[..n]) + [BlocksOf(runs)[n]];
  }

  lemma SolidLine(f: Filters, runs: seq<Run>, i: nat)
    requires AllSolidLines(f, runs) && i < |runs|
    ensures '\n' !in runs[i].line && AllSolidLines(f, runs[..i])
  {
    assert TidyLine(runs[i].line);
  }

  /** One more line behind a body that is laid out as `shown`. */
  lemma LineBehind(body: string, shown: string, blanks: nat, line: string)
    requires body != [] && !IsSpace(body[|body| - 1]) && '\n' !in line && Collapse(body) == shown
    ensures Collapse(body + Feeds(blanks + 1) + line) == shown + Break(blanks > 0) + line
  {
    LineCollapses(body, blanks, line);
  }

  lemma BodySnoc(runs: seq<Run>)
    requires |runs| > 1
    ensures
      var n := |runs| - 1;
      Body(runs) == Body(runs[..n]) + Feeds(runs[n - 1].blanks + 1) + runs[n].line
  {
  }

  lemma {:induction false} BodyCollapses(f: Filters, runs: seq<Run>)
    requires AllSolidLines(f, runs)
    ensures Collapse(Body(runs)) == Present(BlocksOf(runs))
  {
    if |runs| == 1 {
      SolidLine(f, runs, 0);
      CollapseLine(runs[0].line);
      assert runs == [runs[0]];
      OneRun(runs[0]);
    } else if runs != [] {
      SolidLine(f, runs, |runs| - 1);
      BodyCollapses(f, runs[..|runs| - 1]);
      MoreCollapses(f, runs, Body(runs[..|runs| - 1]), Present(BlocksOf(runs[..|runs| - 1])));
    }
  }

  lemma OneRun(run: Run)
    ensures Body([run]) == run.line && Present(BlocksOf([run])) == run.line
  {
    assert [run][..0] == [];
    assert [] + [] + run.line == run.line;
  }

  lemma MoreCollapses(f: Filters, runs: seq<Run>, body: string, shown: string)
    requires |runs| > 1 && AllSolidLines(f, runs[..|runs| - 1]) && '\n' !in runs[|runs| - 1].line
    requires body == Body(runs[..|runs| - 1]) && shown == Present(BlocksOf(runs[..|runs| - 1]))
    requires Collapse(body) == shown
    ensures Collapse(Body(runs)) == Present(BlocksOf(runs))
  {
    BodyEnds(f, runs[..|runs| - 1]);
    BodySnoc(runs);
    PresentRuns(runs);
    LineBehind(body, shown, runs[|runs| - 2].blanks, runs[|runs| - 1].line);
  }

  lemma {:induction false} TrimFeeds(x: string, n: nat)
    requires x != [] && !IsSpace(x[|x| - 1])
    ensures TrimEnd(x + Feeds(n)) == x
  {
    if n == 0 {
      assert x + Feeds(0) == x;
    } else {
      TrimFeeds(x, n - 1);
      assert (x + Feeds(n))[..|x| + n - 1] == x + Feeds(n - 1);
    }
  }

  lemma {:induction false} PresentIsEdged(f: Filters, blocks: seq<Block>)
    requires blocks != [] && AllSolid(f, blocks)
    ensures Present(blocks) != [] && Edged(Present(blocks))
  {
    if |blocks| > 1 {
      PresentIsEdged(f, blocks[1..]);
      assert Solid(f, blocks[0]);
    }
  }

  lemma BreakIsFeeds(gap: bool)
    ensures Break(gap) == Feeds(if gap then 2 else 1)
  {
  }

  lemma FeedsCollapse(x: string, n: nat) returns (few: nat)
    requires x != [] && x[|x| - 1] != '\n'
    ensures Collapse(x + Feeds(n)) == Collapse(x) + Feeds(few)
  {
    CollapseAppend(x, Feeds(n));
    if n == 0 {
      few := 0;
    } else {
      few := if n > 1 then 2 else 1;
      CollapseFeeds(n, []);
      BreakIsFeeds(n > 1);
      assert Feeds(n) + [] == Feeds(n);
    }
  }

  /** Joining, collapsing and trimming what the loop kept gives the page of the blocks. */
  lemma LaidIsPresented(f: Filters, runs: seq<Run>)
    requires AllSolidLines(f, runs)
    ensures Trim(Collapse(Laid(runs))) == Present(BlocksOf(runs))
  {
    if runs != [] {
      BodyEnds(f, runs);
      BodyCollapses(f, runs);
      var page := Present(BlocksOf(runs));
      var few := FeedsCollapse(Body(runs), runs[|runs| - 1].blanks);
      PresentIsEdged(f, BlocksOf(runs));
      TrimFeeds(page, few);
    }
  }

  method CleanPageText(f: Filters, raw: string) returns (text: string)
    ensures text == Cleaned(f, raw)
  {
    if raw == "" {
      SplitLine("");
      BlocksSnoc(f, [], "");
      assert Lines(raw) == [] + [""];
      return "";
    }
    LinesAreTidy(raw);
    BlocksAreSolid(f, Lines(raw));
    var kept := KeepLines(f, Lines(raw));
    ghost var runs: seq<Run> :| Join(kept, "\n") == Laid(runs) && BlocksOf(runs) == Blocks(f, Lines(raw));
    forall i | 0 <= i < |runs| ensures TidyLine(runs[i].line) && Kept(f, runs[i].line) {
      assert Solid(f, BlocksOf(runs)[i]);
    }
    LaidIsPresented(f, runs);
    text := Trim(Collapse(Join(kept, "\n")));
  }

  // ---- Cleaning a cleaned page ----

  lemma {:induction false} PlainIsUnix(s: string)
    requires AllPlain(s)
    ensures UnixLines(s) == s
  {
    if s != [] {
      PlainIsUnix(s[1..]);
    }
  }

  lemma {:induction false} PlainIsVisible(s: string)
    requires AllPlain(s)
    ensures Visible(s) == s
  {
    if s != [] {
      PlainIsVisible(s[1..]);
    }
  }

  lemma {:induction false} PresentIsPlain(f: Filters, blocks: seq<Block>)
    requires AllSolid(f, blocks)
    ensures AllPlain(Present(blocks))
  {
    if blocks != [] {
      assert Solid(f, blocks[0]);
      PresentIsPlain(f, blocks[1..]);
    }
  }

  lemma FeedAt(s: string, k: nat)
    ensures OccursAt(s, "\n", k) <==> k < |s| && s[k] == '\n'
  {
    if k < |s| {
      assert s[k..k + 1] == [s[k]];
    }
  }

  lemma FirstFeed(x: string, y: string)
    ensures IndexOf(x + "\n" + y, "\n") == if IndexOf(x, "\n") == None then Some(|x|) else IndexOf(x, "\n")
  {
    var s := x + "\n" + y;
    forall k: nat ensures k < |x| ==> (OccursAt(s, "\n", k) <==> OccursAt(x, "\n", k)) {
      FeedAt(s, k);
      FeedAt(x, k);
    }
    FeedAt(s, |x|);
    match IndexOf(x, "\n")
    case None =>
      FirstIs(s, "\n", 0, |x|);
    case Some(i) =>
      FirstIs(s, "\n", 0, i);
  }

  lemma SplitFirst(line: string, rest: string)
    requires IndexOf(line, "\n") == None
    ensures Split(line + "\n" + rest, "\n") == [line] + Split(rest, "\n")
  {
    FirstFeed(line, rest);
    var s := line + "\n" + rest;
    assert s[..|line|] == line && s[|line| + 1..] == rest;
  }

  lemma {:induction false} SplitAtFeed(x: string, y: string)
    ensures Split(x + "\n" + y, "\n") == Split(x, "\n") + Split(y, "\n")
    decreases |x|
  {
    match IndexOf(x, "\n")
    case None =>
      SplitFirst(x, y);
    case Some(i) =>
      var line, rest := x[..i], x[i + 1..];
      AroundFirst(x, "\n");
      BeforeFirst(x, i);
      SplitAtFeed(rest, y);
      SplitFirst(line, rest);
      SplitFirst(line, rest + "\n" + y);
      TwoFeeds(line, rest, y);
  }

  lemma TwoFeeds(x: string, y: string, z: string)
    ensures (x + "\n" + y) + "\n" + z == x + "\n" + (y + "\n" + z)
  {
  }

  lemma BeforeFirst(x: string, i: nat)
    requires IndexOf(x, "\n") == Some(i)
    ensures i < |x| && IndexOf(x[..i], "\n") == None
  {
    if IndexOf(x[..i], "\n").Some? {
      var k := IndexOf(x[..i], "\n").value;
      FeedAt(x[..i], k);
      FeedAt(x, k);
      assert false;
    }
  }

  lemma SplitLine(line: string)
    requires '\n' !in line
    ensures Split(line, "\n") == [line]
  {
    if IndexOf(line, "\n").Some? {
      FeedAt(line, IndexOf(line, "\n").value);
      assert false;
    }
  }

  lemma GapIsTwoFeeds(x: string, line: string)
    ensures x + Break(true) + line == (x + "\n" + "") + "\n" + line
  {
  }

  lemma SplitAtGap(x: string, line: string)
    requires '\n' !in line
    ensures Split(x + Break(true) + line, "\n") == Split(x, "\n") + [""] + [line]
  {
    SplitAtFeed(x, "");
    SplitAtFeed(x + "\n" + "", line);
    SplitLine("");
    SplitLine(line);
    GapIsTwoFeeds(x, line);
  }

  /** The lines of a page. */
  function Pieces(blocks: seq<Block>): seq<string> {
    if blocks == [] then [""]
    else
      var n := |blocks| - 1;
      (if n == 0 then [] else Pieces(blocks[..n]) + if blocks[n - 1].gap then [""] else []) + [blocks[n].line]
  }

  lemma LastLineSplits(x: string, gap: bool, line: string)
    requires '\n' !in line
    ensures Split(x + Break(gap) + line, "\n") == Split(x, "\n") + (if gap then [""] else []) + [line]
  {
    if gap {
      SplitAtGap(x, line);
    } else {
      SplitAtFeed(x, line);
      SplitLine(line);
      assert Split(x, "\n") + [] == Split(x, "\n");
    }
  }

  lemma PresentLast(blocks: seq<Block>)
    requires |blocks| > 1
    ensures
      var n := |blocks| - 1;
      Present(blocks) == Present(blocks[..n]) + Break(blocks[n - 1].gap) + blocks[n].line
  {
    var n := |blocks| - 1;
    assert blocks == blocks[..n] + [blocks[n]];
    PresentSnoc(blocks[..n], blocks[n]);
  }

  lemma {:induction false} PageSplits(f: Filters, blocks: seq<Block>)
    requires AllSolid(f, blocks)
    ensures Split(Present(blocks), "\n") == Pieces(blocks)
  {
    if blocks == [] {
      SplitLine("");
    } else {
      var n := |blocks| - 1;
      assert Solid(f, blocks[n]);
      if n == 0 {
        SplitLine(blocks[0].line);
      } else {
        PageSplits(f, blocks[..n]);
        PresentLast(blocks);
        LastLineSplits(Present(blocks[..n]), blocks[n - 1].gap, blocks[n].line);
      }
    }
  }

  lemma TidyAllSnoc(lines: seq<string>, line: string)
    ensures TidyAll(lines + [line]) == TidyAll(lines) + [Tidy(line)]
  {
  }

  lemma TidyAfter(lines: seq<string>, gap: bool, line: string)
    requires TidyAll(lines) == lines && Tidy("") == "" && Tidy(line) == line
    ensures
      var pieces := (lines + if gap then [""] else []) + [line];
      TidyAll(pieces) == pieces
  {
    if gap {
      TidyAllSnoc(lines, "");
      TidyAllSnoc(lines + [""], line);
    } else {
      assert lines + [] == lines;
      TidyAllSnoc(lines, line);
    }
  }

  lemma TidyOne(line: string)
    requires Tidy(line) == line
    ensures TidyAll([line]) == [line]
  {
  }

  lemma PiecesOfOne(b: Block)
    ensures Pieces([b]) == [b.line]
  {
  }

  lemma PiecesOfMore(blocks: seq<Block>)
    requires |blocks| > 1
    ensures
      var n := |blocks| - 1;
      Pieces(blocks) == (Pieces(blocks[..n]) + if blocks[n - 1].gap then [""] else []) + [blocks[n].line]
  {
  }

  lemma {:induction false} PiecesAreTidy(f: Filters, blocks: seq<Block>)
    requires AllSolid(f, blocks)
    ensures TidyAll(Pieces(blocks)) == Pieces(blocks)
  {
    TidyStays("");
    if blocks == [] {
      TidyOne("");
    } else {
      var n := |blocks| - 1;
      var line := blocks[n].line;
      assert Solid(f, blocks[n]);
      TidyStays(line);
      if n == 0 {
        assert blocks == [blocks[0]];
        PiecesOfOne(blocks[0]);
        TidyOne(line);
      } else {
        PiecesAreTidy(f, blocks[..n]);
        PiecesOfMore(blocks);
        TidyAfter(Pieces(blocks[..n]), blocks[n - 1].gap, line);
      }
    }
  }

  /** The same blocks, none after the last. */
  function Settled(blocks: seq<Block>): seq<Block> {
    if blocks == [] then [] else blocks[|blocks| - 1 := blocks[|blocks| - 1].(gap := false)]
  }

  lemma SettledIsPresentedAlike(blocks: seq<Block>)
    ensures Present(Settled(blocks)) == Present(blocks)
  {
    if |blocks| > 1 {
      var n := |blocks| - 1;
      assert blocks == blocks[..n] + [blocks[n]];
      assert Settled(blocks) == blocks[..n] + [blocks[n].(gap := false)];
      PresentSnoc(blocks[..n], blocks[n]);
      PresentSnoc(blocks[..n], blocks[n].(gap := false));
    }
  }

  lemma NextPiece(f: Filters, lines: seq<string>, blocks: seq<Block>)
    requires |blocks| > 1 && Solid(f, blocks[|blocks| - 1])
    requires Blocks(f, lines) == Settled(blocks[..|blocks| - 1])
    ensures
      var spaced := if blocks[|blocks| - 2].gap then lines + [""] else lines;
      Blocks(f, spaced + [blocks[|blocks| - 1].line]) == Settled(blocks)
  {
    var n := |blocks| - 1;
    var spaced := if blocks[n - 1].gap then lines + [""] else lines;
    SpacedBlocks(f, lines, blocks[..n]);
    BlocksSnoc(f, spaced, blocks[n].line);
  }

  /** A blank line settles the last gap. */
  lemma SpacedBlocks(f: Filters, lines: seq<string>, blocks: seq<Block>)
    requires blocks != [] && Blocks(f, lines) == Settled(blocks)
    ensures
      var spaced := if blocks[|blocks| - 1].gap then lines + [""] else lines;
      Blocks(f, spaced) == blocks
  {
    BlocksSnoc(f, lines, "");
  }

  lemma {:induction false} BlocksOfPieces(f: Filters, blocks: seq<Block>)
    requires AllSolid(f, blocks)
    ensures Blocks(f, Pieces(blocks)) == Settled(blocks)
  {
    if blocks == [] {
      BlocksSnoc(f, [], "");
    } else {
      var n := |blocks| - 1;
      assert Solid(f, blocks[n]);
      if n == 0 {
        BlocksSnoc(f, [], blocks[0].line);
      } else {
        var lines := Pieces(blocks[..n]);
        assert blocks[n - 1] == blocks[..n][n - 1];
        assert Pieces(blocks) == (if blocks[n - 1].gap then lines + [""] else lines) + [blocks[n].line];
        BlocksOfPieces(f, blocks[..n]);
        NextPiece(f, Pieces(blocks[..n]), blocks);
      }
    }
  }

  lemma SolidPageIsClean(f: Filters, blocks: seq<Block>)
    requires AllSolid(f, blocks)
    ensures Cleaned(f, Present(blocks)) == Present(blocks)
  {
    PresentIsPlain(f, blocks);
    PlainIsUnix(Present(blocks));
    PlainIsVisible(Present(blocks));
    PageSplits(f, blocks);
    PiecesAreTidy(f, blocks);
    BlocksOfPieces(f, blocks);
    SettledIsPresentedAlike(blocks);
  }

  /** Cleaning a cleaned page changes nothing, whatever the line filters are. */
  lemma CleanedIsClean(f: Filters, raw: string)
    ensures Cleaned(f, Cleaned(f, raw)) == Cleaned(f, raw)
  {
    LinesAreTidy(raw);
    BlocksAreSolid(f, Lines(raw));
    SolidPageIsClean(f, Blocks(f, Lines(raw)));
  }

  // ---- What cleaning never loses ----

  /** A character a reader sees. */
  predicate Mark(c: char) { !IsSpace(c) && !IsInvisible(c) }

  function Shown(c: char): string { if Mark(c) then [c] else [] }

  function Ink(s: string): string {
    if s == [] then [] else Shown(s[0]) + Ink(s[1..])
  }

  function InkOfLines(lines: seq<string>): string {
    if lines == [] then [] else InkOfLines(lines[..|lines| - 1]) + Ink(lines[|lines| - 1])
  }

  function InkOfBlocks(blocks: seq<Block>): string {
    if blocks == [] then [] else InkOfBlocks(blocks[..|blocks| - 1]) + Ink(blocks[|blocks| - 1].line)
  }

  lemma {:induction false} InkAppend(x: string, y: string)
    ensures Ink(x + y) == Ink(x) + Ink(y)
  {
    if x == [] {
      assert x + y == y;
    } else {
      InkAppend(x[1..], y);
      assert (x + y)[1..] == x[1..] + y;
      Regroup(Shown(x[0]), Ink(x[1..]), Ink(y));
    }
  }

  lemma {:induction false} InkOfUnixLines(s: string)
    ensures Ink(UnixLines(s)) == Ink(s)
    decreases |s|
  {
    if s != [] {
      var rest := if s[0] == '\r' && |s| > 1 && s[1] == '\n' then s[2..] else s[1..];
      InkOfUnixLines(rest);
      if |s| > 1 {
        assert s[1..][1..] == s[2..];
      }
    }
  }

  lemma {:induction false} InkOfVisible(s: string)
    ensures Ink(Visible(s)) == Ink(s)
  {
    if s != [] {
      InkOfVisible(s[1..]);
      InkAppend(if IsInvisible(s[0]) then [] else [s[0]], Visible(s[1..]));
    }
  }

  lemma {:induction false} InkOfSqueeze(s: string)
    ensures Ink(Squeeze(s)) == Ink(s)
  {
    if s != [] {
      InkOfSqueeze(s[1..]);
    }
  }

  lemma {:induction false} InkOfTrimStart(s: string)
    ensures Ink(TrimStart(s)) == Ink(s)
  {
    if s != [] && IsSpace(s[0]) {
      InkOfTrimStart(s[1..]);
    }
  }

  lemma SpaceBehind(s: string, c: char)
    requires IsSpace(c)
    ensures Ink(s + [c]) == Ink(s)
  {
    InkAppend(s, [c]);
    assert Ink([c]) == [];
  }

  lemma {:induction false} InkOfTrimEnd(s: string)
    ensures Ink(TrimEnd(s)) == Ink(s)
  {
    if s != [] && IsSpace(s[|s| - 1]) {
      InkOfTrimEnd(s[..|s| - 1]);
      SpaceBehind(s[..|s| - 1], s[|s| - 1]);
      assert s == s[..|s| - 1] + [s[|s| - 1]];
    }
  }

  lemma InkOfTidy(line: string)
    ensures Ink(Tidy(line)) == Ink(line)
  {
    InkOfSqueeze(line);
    InkOfTrimStart(Squeeze(line));
    InkOfTrimEnd(TrimStart(Squeeze(line)));
  }

  lemma {:induction false} InkOfTidyLines(lines: seq<string>)
    ensures InkOfLines(TidyAll(lines)) == InkOfLines(lines)
  {
    if lines != [] {
      var n := |lines| - 1;
      InkOfTidyLines(lines[..n]);
      InkOfTidy(lines[n]);
      assert TidyAll(lines)[..n] == TidyAll(lines[..n]);
    }
  }

  lemma InkOfLinesSnoc(lines: seq<string>, line: string)
    ensures InkOfLines(lines + [line]) == InkOfLines(lines) + Ink(line)
  {
    assert (lines + [line])[..|lines|] == lines;
  }

  lemma OneLineOfInk(line: string)
    ensures InkOfLines([line] + []) == Ink(line) + []
  {
    var ink := Ink(line);
    assert [line] + [] == [line] && [line][..0] == [];
    assert [] + ink == ink && ink + [] == ink;
  }

  lemma {:induction false} InkOfMoreLines(line: string, lines: seq<string>)
    ensures InkOfLines([line] + lines) == Ink(line) + InkOfLines(lines)
  {
    if lines == [] {
      OneLineOfInk(line);
    } else {
      var n := |lines| - 1;
      var front, last := lines[..n], lines[n];
      assert lines == front + [last] && [line] + lines == ([line] + front) + [last];
      InkOfMoreLines(line, front);
      InkOfLinesSnoc([line] + front, last);
      InkOfLinesSnoc(front, last);
      Regroup(Ink(line), InkOfLines(front), Ink(last));
    }
  }

  lemma InkAroundFeed(line: string, rest: string)
    ensures Ink(line + "\n" + rest) == Ink(line) + Ink(rest)
  {
    InkAppend(line, "\n");
    InkAppend(line + "\n", rest);
    assert Shown('\n') == [];
    assert Ink("\n") == [] + Ink([]);
    assert Ink(line) + [] == Ink(line);
  }

  lemma {:induction false} InkOfSplit(s: string)
    ensures InkOfLines(Split(s, "\n")) == Ink(s)
    decreases |s|
  {
    match IndexOf(s, "\n")
    case None =>
      InkOfMoreLines(s, []);
      assert [s] + [] == [s];
      assert Ink(s) + [] == Ink(s);
    case Some(i) =>
      InkOfSplit(s[i + 1..]);
      AroundFirst(s, "\n");
      InkOfMoreLines(s[..i], Split(s[i + 1..], "\n"));
      InkAroundFeed(s[..i], s[i + 1..]);
  }

  /** Every character a reader sees is on exactly one of the tidied lines. */
  lemma LinesHoldTheInk(raw: string)
    ensures InkOfLines(Lines(raw)) == Ink(raw)
  {
    InkOfUnixLines(raw);
    InkOfVisible(UnixLines(raw));
    InkOfSplit(Visible(UnixLines(raw)));
    InkOfTidyLines(Split(Visible(UnixLines(raw)), "\n"));
  }

  lemma InkOfBreak(gap: bool)
    ensures Ink(Break(gap)) == []
  {
    assert "\n\n"[1..] == "\n";
  }

  lemma {:induction false} InkOfPage(blocks: seq<Block>)
    ensures Ink(Present(blocks)) == InkOfBlocks(blocks)
  {
    if |blocks| > 1 {
      var n := |blocks| - 1;
      InkOfPage(blocks[..n]);
      PresentLast(blocks);
      InkAppend(Present(blocks[..n]) + Break(blocks[n - 1].gap), blocks[n].line);
      InkAppend(Present(blocks[..n]), Break(blocks[n - 1].gap));
      InkOfBreak(blocks[n - 1].gap);
    }
  }

  lemma GapHasNoInk(blocks: seq<Block>)
    requires blocks != []
    ensures InkOfBlocks(blocks[|blocks| - 1 := blocks[|blocks| - 1].(gap := true)]) == InkOfBlocks(blocks)
  {
    var n := |blocks| - 1;
    assert blocks[n := blocks[n].(gap := true)][..n] == blocks[..n];
  }

  lemma InkOfNextLine(f: Filters, lines: seq<string>, line: string)
    ensures InkOfBlocks(Blocks(f, lines + [line])) ==
      InkOfBlocks(Blocks(f, lines)) + if Kept(f, line) then Ink(line) else []
  {
    var blocks := Blocks(f, lines);
    BlocksSnoc(f, lines, line);
    if Kept(f, line) {
      assert (blocks + [Block(line, false)])[..|blocks|] == blocks;
    } else if line == "" && blocks != [] {
      GapHasNoInk(blocks);
    }
  }

  lemma NonBlankHasInk(line: string)
    requires TidyLine(line) && line != ""
    ensures Ink(line) != []
  {
    assert Mark(line[0]);
  }

  ghost predicate NoneDropped(f: Filters, lines: seq<string>) {
    forall i :: 0 <= i < |lines| ==> lines[i] == "" || !Dropped(f, lines[i])
  }

  lemma NoneDroppedSnoc(f: Filters, lines: seq<string>)
    requires lines != []
    ensures
      var n := |lines| - 1;
      NoneDropped(f, lines) <==> NoneDropped(f, lines[..n]) && (lines[n] == "" || !Dropped(f, lines[n]))
  {
  }

  /** The page's ink is all of it exactly if `whole`, and otherwise less. */
  predicate KeepsInk(page: string, all: string, whole: bool) {
    |page| <= |all| && (|page| == |all| ==> page == all) && (page == all <==> whole)
  }

  lemma BothGrow(page: string, all: string, more: string, whole: bool)
    requires KeepsInk(page, all, whole)
    ensures KeepsInk(page + more, all + more, whole)
  {
    if page + more == all + more {
      assert page == (page + more)[..|page|] && all == (all + more)[..|all|];
    }
  }

  lemma OneGrows(page: string, all: string, more: string, whole: bool)
    requires KeepsInk(page, all, whole) && more != []
    ensures KeepsInk(page, all + more, false)
  {
  }

  lemma NextLineKeepsInk(f: Filters, lines: seq<string>, line: string, whole: bool)
    requires TidyLine(line) && KeepsInk(InkOfBlocks(Blocks(f, lines)), InkOfLines(lines), whole)
    ensures KeepsInk(InkOfBlocks(Blocks(f, lines + [line])), InkOfLines(lines + [line]),
                     whole && (line == "" || !Dropped(f, line)))
  {
    var page, all := InkOfBlocks(Blocks(f, lines)), InkOfLines(lines);
    InkOfNextLine(f, lines, line);
    InkOfLinesSnoc(lines, line);
    if line == "" || Kept(f, line) {
      assert line == "" ==> page + [] == page && all + [] == all;
      BothGrow(page, all, Ink(line), whole);
    } else {
      NonBlankHasInk(line);
      OneGrows(page, all, Ink(line), whole);
      assert page + [] == page;
    }
  }

  lemma {:induction false} InkOfKeptLines(f: Filters, lines: seq<string>)
    requires forall i :: 0 <= i < |lines| ==> TidyLine(lines[i])
    ensures KeepsInk(InkOfBlocks(Blocks(f, lines)), InkOfLines(lines), NoneDropped(f, lines))
  {
    if lines != [] {
      var n := |lines| - 1;
      InkOfKeptLines(f, lines[..n]);
      NextLineKeepsInk(f, lines[..n], lines[n], NoneDropped(f, lines[..n]));
      NoneDroppedSnoc(f, lines);
      assert lines == lines[..n] + [lines[n]];
    }
  }

  /** The page keeps every visible character, in order, exactly if the filters drop no line; else it is shorter. */
  lemma InkIsKeptIff(f: Filters, raw: string)
    ensures Ink(Cleaned(f, raw)) == Ink(raw) <==> NoneDropped(f, Lines(raw))
    ensures !NoneDropped(f, Lines(raw)) ==> |Ink(Cleaned(f, raw))| < |Ink(raw)|
  {
    LinesAreTidy(raw);
    LinesHoldTheInk(raw);
    InkOfPage(Blocks(f, Lines(raw)));
    InkOfKeptLines(f, Lines(raw));
  }

  // ---- Small pages ----

  /** Line endings: a carriage return with or without a line feed is one line feed, and nothing else changes. */
  lemma {:induction false} LineEndings(a: string, b: string)
    requires '\r' !in a
    ensures UnixLines(a) == a
    ensures UnixLines(a + ("\r\n" + b)) == a + ("\n" + UnixLines(b))
    ensures b == [] || b[0] != '\n' ==> UnixLines(a + ("\r" + b)) == a + ("\n" + UnixLines(b))
  {
    if a == [] {
      var crlf, cr := "\r\n" + b, "\r" + b;
      assert crlf[0] == '\r' && crlf[1] == '\n' && crlf[2..] == b;
      assert cr[0] == '\r' && cr[1..] == b;
      assert [] + crlf == crlf && [] + cr == cr;
      assert ['\n'] + UnixLines(b) == "\n" + UnixLines(b);
    } else {
      LineEndings(a[1..], b);
      assert (a + ("\r\n" + b))[1..] == a[1..] + ("\r\n" + b);
      assert (a + ("\r" + b))[1..] == a[1..] + ("\r" + b);
    }
  }

  lemma VisibleHasNoMore(s: string)
    ensures forall c :: c in Visible(s) ==> c in s
  {
  }

  lemma LineOfAPage(raw: string)
    requires '\r' !in raw && '\n' !in raw
    ensures Lines(raw) == [Tidy(Visible(raw))]
  {
    LineEndings(raw, []);
    VisibleHasNoMore(raw);
    SplitLine(Visible(raw));
  }

  lemma BlockOfALine(f: Filters, line: string)
    ensures Present(Blocks(f, [line])) == if Kept(f, line) then line else ""
  {
    BlocksSnoc(f, [], line);
    assert [] + [line] == [line] && [] + [Block(line, false)] == [Block(line, false)];
  }

  /** A page without line endings is one line, made visible and tidied, or nothing. */
  lemma PageOfALine(f: Filters, raw: string)
    requires '\r' !in raw && '\n' !in raw
    ensures
      var line := Tidy(Visible(raw));
      Cleaned(f, raw) == if Kept(f, line) then line else ""
  {
    LineOfAPage(raw);
    BlockOfALine(f, Tidy(Visible(raw)));
  }

  /**
   * A page of one tidy line: it goes if it looks like code, is boilerplate of fewer than
   * 40 characters or has at most two, and stays as it is otherwise.
   */
  lemma OneLinePage(f: Filters, line: string)
    requires TidyLine(line)
    ensures
      Cleaned(f, line) ==
        if f.code(line) || (|line| < 40 && f.boilerplate(line)) || |line| <= 2 then "" else line
  {
    PlainIsVisible(line);
    TidyStays(line);
    PageOfALine(f, line);
  }

  lemma TwoBlocks(f: Filters, a: string, b: string, gap: bool)
    requires TidyLine(a) && TidyLine(b) && Kept(f, a) && Kept(f, b)
    ensures
      var page := a + ((if gap then "\n\n" else "\n") + b);
      Cleaned(f, page) == page
  {
    var blocks := [Block(a, gap), Block(b, false)];
    assert blocks[1..] == [Block(b, false)];
    assert Present(blocks) == a + ((if gap then "\n\n" else "\n") + b);
    SolidPageIsClean(f, blocks);
  }

  /** Two lines that are kept stay next to each other, or with the one blank line between them. */
  lemma TwoLinePages(f: Filters, a: string, b: string)
    requires TidyLine(a) && TidyLine(b) && Kept(f, a) && Kept(f, b)
    ensures Cleaned(f, a + ("\n" + b)) == a + ("\n" + b)
    ensures Cleaned(f, a + ("\n\n" + b)) == a + ("\n\n" + b)
  {
    TwoBlocks(f, a, b, false);
    TwoBlocks(f, a, b, true);
  }

  // ---- Single characters ----

  /** Filters that drop nothing but very short lines. */
  const PROSE := Filters(_ => false, _ => false)

  /** A word of more than two characters that is tidy in itself. */
  predicate Word(s: string) { TidyLine(s) && |s| > 2 }

  lemma {:induction false} VisibleAround(a: string, c: char, b: string)
    requires AllPlain(a) && AllPlain(b)
    ensures Visible(a + ([c] + b)) == a + ((if IsInvisible(c) then [] else [c]) + b)
  {
    if a == [] {
      PlainIsVisible(b);
      assert [] + ([c] + b) == [c] + b && ([c] + b)[1..] == b;
    } else {
      VisibleAround(a[1..], c, b);
      assert (a + ([c] + b))[1..] == a[1..] + ([c] + b);
    }
  }

  lemma SqueezeInFront(c: char, b: string)
    requires Squeezed(b) && b != [] && !IsBlank(b[0])
    ensures Squeeze([c] + b) == [if IsBlank(c) then ' ' else c] + b
  {
    SqueezedStays(b);
    var s := [c] + b;
    assert s[0] == c && s[1] == b[0] && s[1..] == b;
  }

  lemma {:induction false} SqueezeAppend(x: string, y: string)
    requires x != [] ==> !IsBlank(x[|x| - 1])
    ensures Squeeze(x + y) == Squeeze(x) + Squeeze(y)
  {
    if x == [] {
      assert [] + y == y;
    } else {
      SqueezeAppend(x[1..], y);
      var s := x + y;
      assert s[0] == x[0] && s[1..] == x[1..] + y;
      if |x| > 1 {
        assert s[1] == x[1];
      }
    }
  }

  lemma TabIsABlank(a: string, b: string)
    requires Squeezed(a) && Squeezed(b) && b != [] && !IsBlank(b[0]) && (a != [] ==> !IsBlank(a[|a| - 1]))
    ensures Squeeze(a + ("\t" + b)) == a + (" " + b)
  {
    SqueezeAppend(a, "\t" + b);
    SqueezedStays(a);
    SqueezeInFront('\t', b);
  }

  lemma WordsJoined(a: string, between: string, b: string)
    requires Word(a) && Word(b)
    requires between == [] || (|between| == 1 && Plain(between[0]) && between[0] != '\t' && between[0] != '\n')
    ensures Word(a + (between + b))
  {
  }

  lemma CharacterGoes(a: string, c: char, b: string)
    requires Word(a) && Word(b) && IsInvisible(c) && c != '\r' && c != '\n'
    ensures Cleaned(PROSE, a + ([c] + b)) == a + b
  {
    VisibleAround(a, c, b);
    WordsJoined(a, [], b);
    assert [] + b == b;
    TidyStays(a + b);
    PageOfALine(PROSE, a + ([c] + b));
  }

  lemma TabInALine(a: string, b: string)
    requires Word(a) && Word(b)
    ensures Cleaned(PROSE, a + ("\t" + b)) == a + (" " + b)
  {
    VisibleAround(a, '\t', b);
    WordsJoined(a, " ", b);
    TabIsABlank(a, b);
    SqueezedStays(a + (" " + b));
    TidyStays(a + (" " + b));
    PageOfALine(PROSE, a + ("\t" + b));
  }

  lemma CharacterStays(a: string, c: char, b: string)
    requires Word(a) && Word(b) && Plain(c) && c != '\t' && c != '\n'
    ensures Cleaned(PROSE, a + ([c] + b)) == a + ([c] + b)
  {
    WordsJoined(a, [c], b);
    OneLinePage(PROSE, a + ([c] + b));
  }

  lemma LineEndingInAPage(a: string, c: char, b: string)
    requires Word(a) && Word(b) && (c == '\r' || c == '\n')
    ensures Cleaned(PROSE, a + ([c] + b)) == a + ("\n" + b)
  {
    PlainIsUnix(b);
    LineEndings(a, b);
    LineEndings(a + ("\n" + b), []);
    TwoLinePages(PROSE, a, b);
  }

  /**
   * What becomes of any one character between two words: a line ending is a line feed,
   * other control characters but the tab go and so do zero-width ones and the byte order
   * mark, a tab is a blank, and everything else stays.
   */
  lemma CharacterBetweenWords(a: string, c: char, b: string)
    requires Word(a) && Word(b)
    ensures
      Cleaned(PROSE, a + ([c] + b)) ==
        a + ((if c == '\r' || c == '\n' then "\n"
              else if c == '\t' then " "
              else if c < ' ' || c in "\U{200B}\U{200C}\U{200D}\U{FEFF}" then ""
              else [c]) + b)
  {
    if c == '\r' || c == '\n' {
      LineEndingInAPage(a, c, b);
    } else if IsInvisible(c) {
      CharacterGoes(a, c, b);
      assert "" + b == b;
    } else if c == '\t' {
      TabInALine(a, b);
    } else {
      CharacterStays(a, c, b);
    }
  }

  lemma TrimInFront(c: char, b: string)
    requires IsSpace(c) && b != [] && Edged(b)
    ensures Trim([c] + b) == b
  {
    assert ([c] + b)[0] == c && ([c] + b)[1..] == b;
    assert TrimStart([c] + b) == TrimStart(b);
  }

  lemma SpaceInFrontIsTrimmed(c: char, b: string)
    requires Word(b) && IsSpace(c)
    ensures Tidy([c] + b) == b
  {
    SqueezeInFront(c, b);
    TrimInFront(if IsBlank(c) then ' ' else c, b);
  }

  lemma TidyInFront(c: char, b: string)
    requires Word(b) && !IsSpace(c) && !IsInvisible(c)
    ensures Word([c] + b)
  {
  }

  lemma LineInFront(c: char, b: string)
    requires Word(b) && c != '\r' && c != '\n'
    ensures Tidy(Visible([c] + b)) == if IsSpace(c) || IsInvisible(c) then b else [c] + b
  {
    PlainIsVisible(b);
    assert ([c] + b)[0] == c && ([c] + b)[1..] == b;
    assert Visible([c] + b) == if IsInvisible(c) then b else [c] + b;
    if IsInvisible(c) {
      TidyStays(b);
    } else if IsSpace(c) {
      SpaceInFrontIsTrimmed(c, b);
    } else {
      TidyInFront(c, b);
      TidyStays([c] + b);
    }
  }

  lemma WordIsKept(b: string)
    requires Word(b)
    ensures Kept(PROSE, b)
  {
  }

  lemma CharacterInFront(c: char, b: string)
    requires Word(b) && c != '\r' && c != '\n'
    ensures Cleaned(PROSE, [c] + b) == if IsSpace(c) || IsInvisible(c) then b else [c] + b
  {
    LineInFront(c, b);
    WordIsKept(b);
    if !IsSpace(c) && !IsInvisible(c) {
      TidyInFront(c, b);
      WordIsKept([c] + b);
    }
    PageOfALine(PROSE, [c] + b);
  }

  lemma FeedInFront(c: char, b: string)
    requires Word(b) && (c == '\r' || c == '\n')
    ensures Visible(UnixLines([c] + b)) == "\n" + b
  {
    PlainIsUnix(b);
    PlainIsVisible(b);
    var s := [c] + b;
    assert s[0] == c && s[1] == b[0] && s[1..] == b;
    assert UnixLines(s) == "\n" + b && ("\n" + b)[0] == '\n' && ("\n" + b)[1..] == b;
  }

  lemma LinesInFront(c: char, b: string)
    requires Word(b) && (c == '\r' || c == '\n')
    ensures Lines([c] + b) == [""] + [b]
  {
    FeedInFront(c, b);
    assert "" + "\n" + b == "\n" + b;
    SplitAtFeed("", b);
    SplitLine("");
    SplitLine(b);
    TidyStays("");
    TidyStays(b);
    TidyOne("");
    TidyAllSnoc([""], b);
  }

  lemma BlankInFront(b: string)
    requires Kept(PROSE, b)
    ensures Present(Blocks(PROSE, [""] + [b])) == b
  {
    BlocksSnoc(PROSE, [], "");
    BlocksSnoc(PROSE, [""], b);
    assert [] + [""] == [""] && [] + [Block(b, false)] == [Block(b, false)];
  }

  lemma LineEndingInFront(c: char, b: string)
    requires Word(b) && (c == '\r' || c == '\n')
    ensures Cleaned(PROSE, [c] + b) == b
  {
    LinesInFront(c, b);
    WordIsKept(b);
    BlankInFront(b);
  }

  /**
   * A character in front of a word is trimmed exactly if it is white space or a line
   * terminator of JavaScript, a control character or zero-width.
   */
  lemma CharacterBeforeAWord(c: char, b: string)
    requires Word(b)
    ensures
      Cleaned(PROSE, [c] + b) ==
        if c <= ' ' || c == '\U{00A0}' || c == '\U{1680}' || '\U{2000}' <= c <= '\U{200D}'
           || c in "\U{2028}\U{2029}\U{202F}\U{205F}\U{3000}\U{FEFF}"
        then b else [c] + b
  {
    if c == '\r' || c == '\n' {
      LineEndingInFront(c, b);
    } else {
      CharacterInFront(c, b);
    }
  }
}
