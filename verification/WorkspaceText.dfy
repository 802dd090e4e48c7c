/**
 Text helpers, `read` and `apply_patch` of the workspace tools
 (crates/liz-app-server/src/executor/workspace.rs).
 */
module WorkspaceText {
  import opened Common

  /** The position of the first newline, or the length if there is none. */
  function FirstNewline(text: string): (i: nat)
    ensures i <= |text|
    ensures i < |text| ==> text[i] == '\n'
    ensures forall k | 0 <= k < i :: text[k] != '\n'
  {
    if text == "" || text[0] == '\n' then 0 else 1 + FirstNewline(text[1..])
  }

  function WithoutCarriageReturn(line: string): string {
    if line != "" && line[|line| - 1] == '\r' then line[..|line| - 1] else line
  }

  /** `str::lines`: a final newline ends the last line, and CR LF counts as one line end. */
  function Lines(text: string): seq<string>
    decreases |text|
  {
    if text == "" then []
    else
      var i := FirstNewline(text);
      if i == |text| then [text]
      else [WithoutCarriageReturn(text[..i])] + Lines(text[i + 1..])
  }

  function Join(parts: seq<string>, separator: string): string {
    if parts == [] then ""
    else if |parts| == 1 then parts[0]
    else parts[0] + separator + Join(parts[1..], separator)
  }

  predicate EndsWithNewline(text: string) {
    text != "" && text[|text| - 1] == '\n'
  }

  lemma JoinCons(line: string, rest: seq<string>, separator: string)
    ensures Join([line] + rest, separator) == if rest == [] then line else line + separator + Join(rest, separator)
  {
    assert ([line] + rest)[1..] == rest;
  }

  /** The lines joined again, with the final newline if there was one. */
  function Rebuilt(text: string): string {
    Join(Lines(text), "\n") + if EndsWithNewline(text) then "\n" else ""
  }

  lemma LinesOfSomething(text: string)
    requires text != ""
    ensures Lines(text) != []
  {
  }

  lemma LastLineAlone(text: string)
    requires FirstNewline(text) == |text|
    ensures Rebuilt(text) == text
  {
    assert Join(Lines(text), "\n") == text && !EndsWithNewline(text);
  }

  lemma FirstLineCut(text: string)
    requires FirstNewline(text) < |text|
    ensures var i := FirstNewline(text);
      var rest := text[i + 1..];
      && text == text[..i] + "\n" + rest
      && Lines(text) == [WithoutCarriageReturn(text[..i])] + Lines(rest)
      && (EndsWithNewline(text) <==> rest == "" || EndsWithNewline(rest))
  {
  }

  lemma RebuiltFirst(text: string)
    requires FirstNewline(text) < |text|
    ensures var i := FirstNewline(text);
      Rebuilt(text) == WithoutCarriageReturn(text[..i]) + "\n" + Rebuilt(text[i + 1..])
  {
    var i := FirstNewline(text);
    var line, rest := WithoutCarriageReturn(text[..i]), text[i + 1..];
    FirstLineCut(text);
    JoinCons(line, Lines(rest), "\n");
    if rest == "" {
      assert Lines(rest) == [];
    } else {
      LinesOfSomething(rest);
      ConcatAssociates(line + "\n", Join(Lines(rest), "\n"), if EndsWithNewline(rest) then "\n" else "");
    }
  }

  /** How many newlines have a carriage return before them. */
  function CrLfs(text: string): nat
    decreases |text|
  {
    var i := FirstNewline(text);
    if i == |text| then 0
    else CrLfs(text[i + 1..]) + if i > 0 && text[i - 1] == '\r' then 1 else 0
  }

  lemma FirstLineLength(text: string)
    requires FirstNewline(text) < |text|
    ensures var i := FirstNewline(text);
      |Rebuilt(text)| == |WithoutCarriageReturn(text[..i])| + 1 + |Rebuilt(text[i + 1..])|
  {
    RebuiltFirst(text);
  }

  lemma FirstLineCrLfs(text: string)
    requires FirstNewline(text) < |text|
    ensures var i := FirstNewline(text);
      CrLfs(text) == i - |WithoutCarriageReturn(text[..i])| + CrLfs(text[i + 1..])
  {
  }

  lemma LengthsAddUp(text: string)
    requires FirstNewline(text) < |text|
    requires var rest := text[FirstNewline(text) + 1..]; |Rebuilt(rest)| + CrLfs(rest) == |rest|
    ensures |Rebuilt(text)| + CrLfs(text) == |text|
  {
    FirstLineLength(text);
    FirstLineCrLfs(text);
  }

  lemma LastLineLength(text: string)
    requires FirstNewline(text) == |text|
    ensures |Rebuilt(text)| + CrLfs(text) == |text|
  {
    LastLineAlone(text);
  }

  /** Splitting into lines drops one character per such newline. */
  lemma {:induction false} RebuiltLength(text: string)
    ensures |Rebuilt(text)| + CrLfs(text) == |text|
    decreases |text|
  {
    if FirstNewline(text) == |text| {
      LastLineLength(text);
    } else {
      RebuiltLength(text[FirstNewline(text) + 1..]);
      LengthsAddUp(text);
    }
  }

  lemma {:induction false} RebuiltWithoutCrLf(text: string)
    requires CrLfs(text) == 0
    ensures Rebuilt(text) == text
    decreases |text|
  {
    var i := FirstNewline(text);
    if i == |text| {
      LastLineAlone(text);
    } else {
      RebuiltFirst(text);
      RebuiltWithoutCrLf(text[i + 1..]);
      FirstLineCut(text);
    }
  }

  predicate CrLfAt(text: string, i: nat) {
    0 < i < |text| && text[i - 1] == '\r' && text[i] == '\n'
  }

  lemma CrLfBehind(text: string, k: nat, i: nat)
    requires k < i && k < |text|
    ensures CrLfAt(text, i) && i > k + 1 <==> CrLfAt(text[k + 1..], i - k - 1)
  {
  }

  lemma {:induction false} NoCrLfIff(text: string)
    ensures CrLfs(text) == 0 <==> forall i: nat :: !CrLfAt(text, i)
    decreases |text|
  {
    var n := FirstNewline(text);
    if n < |text| {
      NoCrLfIff(text[n + 1..]);
      assert CrLfAt(text, n) <==> n > 0 && text[n - 1] == '\r';
      if i: nat :| CrLfAt(text, i) && i != n {
        assert i > n + 1;
        CrLfBehind(text, n, i);
      }
      var rest := text[n + 1..];
      if i: nat :| CrLfAt(rest, i) {
        CrLfBehind(text, n, i + n + 1);
      }
    }
  }

  /**
   The lines and the final newline give the text back exactly when no newline has a carriage
   return before it; each that has one loses it.
   */
  lemma LinesReassembleIff(text: string)
    ensures Rebuilt(text) == text <==> forall i: nat :: !CrLfAt(text, i)
    ensures |Rebuilt(text)| + CrLfs(text) == |text|
  {
    NoCrLfIff(text);
    RebuiltLength(text);
    if CrLfs(text) == 0 {
      RebuiltWithoutCrLf(text);
    }
  }

  // ---------------------------------------------------------------------------------------
  // read
  // ---------------------------------------------------------------------------------------

  datatype ReadResult = ReadResult(content: string, startLine: nat, endLine: nat, totalLines: nat)

  function Max(a: nat, b: nat): nat {
    if a < b then b else a
  }

  function Min(a: nat, b: nat): nat {
    if a < b then a else b
  }

  /** Lines `from + 1` up to `upTo` with newlines between them, as far as they exist. */
  function LineRange(lines: seq<string>, from: nat, upTo: nat): string
    decreases upTo - from
  {
    var end := Min(upTo, |lines|);
    if from >= end then ""
    else if from + 1 == end then lines[from]
    else lines[from] + "\n" + LineRange(lines, from + 1, upTo)
  }

  /** That is, the slice of lines joined. */
  lemma {:induction false} LineRangeIsJoin(lines: seq<string>, from: nat, upTo: nat)
    requires from <= upTo
    ensures Join(lines[Min(from, |lines|)..Min(upTo, |lines|)], "\n") == LineRange(lines, from, upTo)
    decreases upTo - from
  {
    var end := Min(upTo, |lines|);
    if from < end {
      assert lines[from..end] == [lines[from]] + lines[from + 1..end];
      JoinCons(lines[from], lines[from + 1..end], "\n");
      LineRangeIsJoin(lines, from + 1, upTo);
    }
  }

  /** Line numbers count from one; the requested range is clamped to the file. */
  function ReadLines(lines: seq<string>, startLine: Option<nat>, endLine: Option<nat>): ReadResult {
    var total := Max(|lines|, 1);
    var start := Max(startLine.Or(1), 1);
    var end := Max(endLine.Or(total), start);
    ReadResult(LineRange(lines, start - 1, end), start, Min(end, total), total)
  }

  function Read(text: string, startLine: Option<nat>, endLine: Option<nat>): ReadResult {
    ReadLines(Lines(text), startLine, endLine)
  }

  lemma {:induction false} AdjacentRangesConcatenate(lines: seq<string>, a: nat, b: nat, c: nat)
    requires a < b < c && b < |lines|
    ensures LineRange(lines, a, c) == LineRange(lines, a, b) + "\n" + LineRange(lines, b, c)
    decreases b - a
  {
    if a + 1 < b {
      AdjacentRangesConcatenate(lines, a + 1, b, c);
    }
  }

  lemma AdjacentLinesConcatenate(lines: seq<string>, a: nat, b: nat, c: nat)
    requires 1 <= a <= b < c && b < |lines|
    ensures ReadLines(lines, Some(a), Some(c)).content
         == ReadLines(lines, Some(a), Some(b)).content + "\n" + ReadLines(lines, Some(b + 1), Some(c)).content
  {
    AdjacentRangesConcatenate(lines, a - 1, b, c);
  }

  /** Two adjacent ranges read one after the other give the text of the whole range. */
  lemma AdjacentReadsConcatenate(text: string, a: nat, b: nat, c: nat)
    requires 1 <= a <= b < c && b < |Lines(text)|
    ensures Read(text, Some(a), Some(c)).content
         == Read(text, Some(a), Some(b)).content + "\n" + Read(text, Some(b + 1), Some(c)).content
  {
    AdjacentLinesConcatenate(Lines(text), a, b, c);
  }

  /** Pages of `size` lines, after the first `from` lines, until the file is exhausted. */
  function LinePages(lines: seq<string>, size: nat, from: nat): seq<string>
    requires size > 0
    decreases |lines| - from
  {
    if from >= |lines| then []
    else [ReadLines(lines, Some(from + 1), Some(from + size)).content] + LinePages(lines, size, from + size)
  }

  function Pages(text: string, size: nat): seq<string>
    requires size > 0
  {
    LinePages(Lines(text), size, 0)
  }

  /** The same pages, cut from a list of lines. */
  function RangePages(lines: seq<string>, size: nat, from: nat): seq<string>
    requires size > 0
    decreases |lines| - from
  {
    if from >= |lines| then []
    else [LineRange(lines, from, from + size)] + RangePages(lines, size, from + size)
  }

  lemma PageIsRange(lines: seq<string>, size: nat, from: nat)
    requires size > 0
    ensures ReadLines(lines, Some(from + 1), Some(from + size)).content == LineRange(lines, from, from + size)
  {
  }

  lemma {:induction false} PagesAreRanges(lines: seq<string>, size: nat, from: nat)
    requires size > 0
    ensures LinePages(lines, size, from) == RangePages(lines, size, from)
    decreases |lines| - from
  {
    if from < |lines| {
      var page := LineRange(lines, from, from + size);
      PageIsRange(lines, size, from);
      PagesAreRanges(lines, size, from + size);
      assert LinePages(lines, size, from) == [page] + LinePages(lines, size, from + size);
    }
  }

  lemma {:induction false} RangeEndsWithFile(lines: seq<string>, from: nat, to: nat)
    requires |lines| <= to
    ensures LineRange(lines, from, to) == LineRange(lines, from, |lines|)
    decreases |lines| - from
  {
    if from < |lines| {
      RangeEndsWithFile(lines, from + 1, to);
    }
  }

  lemma {:induction false} PagesCoverTheRest(lines: seq<string>, size: nat, from: nat)
    requires size > 0 && from < |lines|
    ensures RangePages(lines, size, from) != []
    ensures Join(RangePages(lines, size, from), "\n") == LineRange(lines, from, |lines|)
    decreases |lines| - from
  {
    var page, rest := LineRange(lines, from, from + size), RangePages(lines, size, from + size);
    JoinCons(page, rest, "\n");
    assert RangePages(lines, size, from) == [page] + rest;
    if from + size < |lines| {
      PagesCoverTheRest(lines, size, from + size);
      AdjacentRangesConcatenate(lines, from, from + size, |lines|);
    } else {
      RangeEndsWithFile(lines, from, from + size);
      assert RangePages(lines, size, from + size) == [];
    }
  }

  /** Paging through a file with any page size reads the same text as one unranged read. */
  lemma PagingReadsTheWholeFile(text: string, size: nat)
    requires size > 0
    ensures Join(Pages(text, size), "\n") == Read(text, None, None).content
    ensures (forall i: nat :: !CrLfAt(text, i)) <==>
      text == Join(Pages(text, size), "\n") + if EndsWithNewline(text) then "\n" else ""
  {
    var lines := Lines(text);
    PagesAreRanges(lines, size, 0);
    if lines != [] {
      PagesCoverTheRest(lines, size, 0);
      LineRangeIsJoin(lines, 0, |lines|);
      assert lines[0..|lines|] == lines;
    }
    LinesReassembleIff(text);
  }

  lemma LinesPastTheEnd(lines: seq<string>, startLine: Option<nat>, endLine: Option<nat>)
    ensures var r := ReadLines(lines, startLine, endLine);
      && (r.endLine < r.startLine <==> r.startLine > r.totalLines)
      && (r.endLine < r.startLine ==> r.content == "")
      && (r.endLine >= r.startLine && lines != [] ==>
            r.content == Join(lines[r.startLine - 1..r.endLine], "\n"))
  {
    var start := Max(startLine.Or(1), 1);
    LineRangeIsJoin(lines, start - 1, Max(endLine.Or(Max(|lines|, 1)), start));
  }

  /** A reversed reported range is the sign that the request started past the end. */
  lemma ReadPastTheEnd(text: string, startLine: Option<nat>, endLine: Option<nat>)
    ensures var r := Read(text, startLine, endLine);
      && (r.endLine < r.startLine <==> r.startLine > r.totalLines)
      && (r.endLine < r.startLine ==> r.content == "")
      && (r.endLine >= r.startLine && Lines(text) != [] ==>
            r.content == Join(Lines(text)[r.startLine - 1..r.endLine], "\n"))
  {
    LinesPastTheEnd(Lines(text), startLine, endLine);
  }

  lemma WholeLines(lines: seq<string>, a: nat, b: nat)
    requires 1 <= a <= b && a <= |lines|
    ensures ReadLines(lines, Some(a), Some(b))
         == ReadResult(Join(lines[a - 1..Min(b, |lines|)], "\n"), a, Min(b, |lines|), |lines|)
  {
    LineRangeIsJoin(lines, a - 1, b);
  }

  /**
   A read from a line of the file to a line at or behind it shows exactly the lines in between, as
   far as the file goes. A missing start is the first line and a missing end the last; a start of
   zero counts as one, and an end before the start as the start.
   */
  lemma ReadShowsTheLines(text: string, a: nat, b: nat)
    requires 1 <= a <= |Lines(text)|
    ensures a <= b ==>
      Read(text, Some(a), Some(b))
      == ReadResult(Join(Lines(text)[a - 1..if b < |Lines(text)| then b else |Lines(text)|], "\n"), a,
                    if b < |Lines(text)| then b else |Lines(text)|, |Lines(text)|)
    ensures b < a ==> Read(text, Some(a), Some(b)) == Read(text, Some(a), Some(a))
    ensures Read(text, Some(a), None) == ReadResult(Join(Lines(text)[a - 1..], "\n"), a, |Lines(text)|, |Lines(text)|)
    ensures Read(text, None, Some(b)) == Read(text, Some(1), Some(b)) == Read(text, Some(0), Some(b))
    ensures Read(text, None, None) == Read(text, Some(1), None) == Read(text, Some(0), None)
  {
    var lines := Lines(text);
    if a <= b {
      WholeLines(lines, a, b);
    }
    WholeLines(lines, a, |lines|);
    assert lines[a - 1..|lines|] == lines[a - 1..];
  }

  /** A file without lines reads as one empty line. */
  lemma EmptyFileReads(text: string, startLine: Option<nat>, endLine: Option<nat>)
    requires Lines(text) == []
    ensures Read(text, startLine, endLine).content == "" && Read(text, startLine, endLine).totalLines == 1
    ensures Read(text, None, None) == ReadResult("", 1, 1, 1)
  {
  }

  // ---------------------------------------------------------------------------------------
  // apply_patch
  // ---------------------------------------------------------------------------------------

  /** Ranges of `length` characters, in order and without overlap, between `from` and `end`. */
  predicate Disjoint(starts: seq<nat>, length: nat, from: nat, end: nat): (disjoint: bool)
    ensures disjoint ==> from <= end
  {
    if starts == [] then from <= end
    else from <= starts[0] && Disjoint(starts[1..], length, starts[0] + length, end)
  }

  /**
   `str::match_indices`: scan left to right; after a match go on behind it, and one character
   further if it was empty.
   */
  function MatchesFrom(text: string, search: string, from: nat): (starts: seq<nat>)
    ensures from <= |text| ==> Disjoint(starts, |search|, from, |text|)
    decreases |text| + 1 - from
  {
    if from > |text| then []
    else if OccursAt(text, search, from) then [from] + MatchesFrom(text, search, from + Max(|search|, 1))
    else MatchesFrom(text, search, from + 1)
  }

  /** What lies between the ranges: one piece more than there are ranges. */
  function Gaps(text: string, starts: seq<nat>, length: nat, from: nat): (gaps: seq<string>)
    requires Disjoint(starts, length, from, |text|)
    ensures |gaps| == |starts| + 1
  {
    if starts == [] then [text[from..]]
    else [text[from..starts[0]]] + Gaps(text, starts[1..], length, starts[0] + length)
  }

  /** `str::replace` and `str::replacen`: copy what lies between the matches, the replacement in their place. */
  function Splice(text: string, starts: seq<nat>, length: nat, replacement: string, from: nat): string
    requires Disjoint(starts, length, from, |text|)
  {
    Join(Gaps(text, starts, length, from), replacement)
  }

  datatype PatchError = SearchNotFound
  datatype Patch = Patch(replacements: nat, changed: bool, after: string)

  function Targets(before: string, search: string, replaceAll: bool): (starts: seq<nat>)
    ensures Disjoint(starts, |search|, 0, |before|)
  {
    var all := MatchesFrom(before, search, 0);
    if replaceAll || all == [] then all else [all[0]]
  }

  function ApplyPatch(before: string, search: string, replacement: string, replaceAll: bool)
      : Result<Patch, PatchError> {
    var matches := |MatchesFrom(before, search, 0)|;
    if matches == 0 then Err(SearchNotFound)
    else
      var after := Splice(before, Targets(before, search, replaceAll), |search|, replacement, 0);
      Ok(Patch(if replaceAll then matches else 1, before != after, after))
  }

  /**
   An independent reading of "leftmost, non-overlapping": the ranges are occurrences, and no
   occurrence starts in a gap between them.
   */
  ghost predicate Leftmost(text: string, search: string, starts: seq<nat>, from: nat) {
    if starts == [] then forall i: nat | from <= i :: !OccursAt(text, search, i)
    else
      && from <= starts[0] && OccursAt(text, search, starts[0])
      && (forall i: nat | from <= i < starts[0] :: !OccursAt(text, search, i))
      && Leftmost(text, search, starts[1..], starts[0] + Max(|search|, 1))
  }

  lemma LeftmostEarlier(text: string, search: string, starts: seq<nat>, from: nat)
    requires !OccursAt(text, search, from) && Leftmost(text, search, starts, from + 1)
    ensures Leftmost(text, search, starts, from)
  {
  }

  lemma NothingPastTheEnd(text: string, search: string, from: nat)
    requires from > |text|
    ensures Leftmost(text, search, [], from)
  {
  }

  lemma {:induction false} MatchesAreLeftmost(text: string, search: string, from: nat)
    ensures Leftmost(text, search, MatchesFrom(text, search, from), from)
    decreases |text| + 1 - from
  {
    if from > |text| {
      NothingPastTheEnd(text, search, from);
    } else if OccursAt(text, search, from) {
      var later := MatchesFrom(text, search, from + Max(|search|, 1));
      MatchesAreLeftmost(text, search, from + Max(|search|, 1));
      assert ([from] + later)[1..] == later;
    } else {
      MatchesAreLeftmost(text, search, from + 1);
      LeftmostEarlier(text, search, MatchesFrom(text, search, from + 1), from);
    }
  }

  lemma {:induction false} MatchesAfterFirst(text: string, search: string, from: nat)
    requires MatchesFrom(text, search, from) != []
    ensures var starts := MatchesFrom(text, search, from);
      starts[1..] == MatchesFrom(text, search, starts[0] + Max(|search|, 1))
    decreases |text| + 1 - from
  {
    if !OccursAt(text, search, from) {
      MatchesAfterFirst(text, search, from + 1);
    }
  }

  /** There is only one leftmost decomposition. */
  lemma {:induction false} LeftmostIsUnique(text: string, search: string, starts: seq<nat>, from: nat)
    requires Leftmost(text, search, starts, from)
    ensures starts == MatchesFrom(text, search, from)
  {
    MatchesAreLeftmost(text, search, from);
    var found := MatchesFrom(text, search, from);
    if starts != [] {
      assert found != [] && found[0] == starts[0];
      MatchesAfterFirst(text, search, from);
      LeftmostIsUnique(text, search, starts[1..], starts[0] + Max(|search|, 1));
    }
  }

  lemma OneMoreTime(n: nat, x: nat)
    ensures (n + 1) * x == n * x + x
  {
  }

  lemma {:induction false} SpliceLength(text: string, starts: seq<nat>, length: nat, replacement: string, from: nat)
    requires Disjoint(starts, length, from, |text|)
    ensures |Splice(text, starts, length, replacement, from)| + |starts| * length
         == |text| - from + |starts| * |replacement|
  {
    if starts != [] {
      var gap, rest := text[from..starts[0]], Gaps(text, starts[1..], length, starts[0] + length);
      JoinCons(gap, rest, replacement);
      SpliceLength(text, starts[1..], length, replacement, starts[0] + length);
      OneMoreTime(|starts| - 1, length);
      OneMoreTime(|starts| - 1, |replacement|);
    }
  }

  /** The replacements counted, and the length they lead to. */
  lemma PatchCountsAndMeasures(before: string, search: string, replacement: string, replaceAll: bool)
    ensures var r := ApplyPatch(before, search, replacement, replaceAll);
      && (r.Err? <==> !Contains(before, search))
      && (r.Ok? ==>
            && 1 <= r.value.replacements
            && (!replaceAll ==> r.value.replacements == 1)
            && (replaceAll ==> exists starts :: Leftmost(before, search, starts, 0) && |starts| == r.value.replacements)
            && |r.value.after| + r.value.replacements * |search| == |before| + r.value.replacements * |replacement|)
  {
    ContainedIffMatched(before, search, 0);
    MatchesAreLeftmost(before, search, 0);
    SpliceLength(before, Targets(before, search, replaceAll), |search|, replacement, 0);
  }

  lemma {:induction false} ContainedIffMatched(text: string, search: string, from: nat)
    requires from <= |text|
    ensures Contains(text[from..], search) <==> MatchesFrom(text, search, from) != []
    decreases |text| - from
  {
    assert search <= text[from..] <==> OccursAt(text, search, from);
    if from < |text| {
      assert text[from..][1..] == text[from + 1..];
      ContainedIffMatched(text, search, from + 1);
    }
  }

  predicate AllOccur(text: string, search: string, starts: seq<nat>) {
    starts == [] || (OccursAt(text, search, starts[0]) && AllOccur(text, search, starts[1..]))
  }

  lemma {:induction false} MatchesOccur(text: string, search: string, from: nat)
    ensures AllOccur(text, search, MatchesFrom(text, search, from))
    decreases |text| + 1 - from
  {
    if from <= |text| {
      MatchesOccur(text, search, if OccursAt(text, search, from) then from + Max(|search|, 1) else from + 1);
    }
  }

  lemma TargetsOccur(before: string, search: string, replaceAll: bool)
    ensures AllOccur(before, search, Targets(before, search, replaceAll))
  {
    var all := MatchesFrom(before, search, 0);
    MatchesOccur(before, search, 0);
    if all != [] {
      assert [all[0]][1..] == [];
    }
  }

  lemma SplitAtOccurrence(text: string, search: string, from: nat, s: nat)
    requires from <= s && OccursAt(text, search, s)
    ensures text[from..] == text[from..s] + search + text[s + |search|..]
  {
    var tail := text[s..];
    assert tail == tail[..|search|] + tail[|search|..];
    assert tail[|search|..] == text[s + |search|..];
  }

  lemma JoinBefore(text: string, search: string, from: nat, s: nat, rest: seq<string>)
    requires from <= s && OccursAt(text, search, s)
    requires rest != [] && Join(rest, search) == text[s + |search|..]
    ensures Join([text[from..s]] + rest, search) == text[from..]
  {
    SplitAtOccurrence(text, search, from, s);
    JoinCons(text[from..s], rest, search);
  }

  /** Putting back what stood at the ranges gives the text. */
  lemma {:induction false} SpliceSame(text: string, starts: seq<nat>, search: string, from: nat)
    requires Disjoint(starts, |search|, from, |text|) && AllOccur(text, search, starts)
    ensures Splice(text, starts, |search|, search, from) == text[from..]
    decreases |starts|
  {
    if starts == [] {
      assert text[from..] + "" == text[from..];
    } else {
      var next := starts[0] + |search|;
      SpliceSame(text, starts[1..], search, next);
      JoinBefore(text, search, from, starts[0], Gaps(text, starts[1..], |search|, next));
    }
  }

  /** Where the separators stand once the pieces are joined behind `at` characters. */
  function Places(gaps: seq<string>, length: nat, at: nat): (places: seq<nat>)
    ensures gaps != [] ==> |places| == |gaps| - 1
  {
    if |gaps| <= 1 then [] else [at + |gaps[0]|] + Places(gaps[1..], length, at + |gaps[0]| + length)
  }

  lemma Pieces(before: string, gap: string, replacement: string, rest: string)
    ensures var whole := before + (gap + replacement + rest);
      && whole == before + gap + replacement + rest
      && whole[|before|..|before| + |gap|] == gap
      && whole[|before| + |gap|..|before| + |gap| + |replacement|] == replacement
  {
  }

  /** Joining pieces and cutting the result at the separators gives the pieces back. */
  lemma {:induction false} GapsOfJoin(gaps: seq<string>, replacement: string, before: string, whole: string)
    requires gaps != [] && whole == before + Join(gaps, replacement)
    ensures var places := Places(gaps, |replacement|, |before|);
      && Disjoint(places, |replacement|, |before|, |whole|)
      && AllOccur(whole, replacement, places)
      && Gaps(whole, places, |replacement|, |before|) == gaps
    decreases |gaps|
  {
    if |gaps| == 1 {
      assert whole[|before|..] == gaps[0];
    } else {
      var gap, rest := gaps[0], gaps[1..];
      assert gaps == [gap] + rest;
      Pieces(before, gap, replacement, Join(rest, replacement));
      GapsOfJoin(rest, replacement, before + gap + replacement, whole);
    }
  }

  lemma TargetsCanBeUndone(before: string, search: string, replacement: string, replaceAll: bool)
    requires ApplyPatch(before, search, replacement, replaceAll).Ok?
    ensures var after := ApplyPatch(before, search, replacement, replaceAll).value.after;
      var places := Places(Gaps(before, Targets(before, search, replaceAll), |search|, 0), |replacement|, 0);
      && |places| == ApplyPatch(before, search, replacement, replaceAll).value.replacements
      && Disjoint(places, |replacement|, 0, |after|) && AllOccur(after, replacement, places)
      && Gaps(after, places, |replacement|, 0) == Gaps(before, Targets(before, search, replaceAll), |search|, 0)
      && Splice(after, places, |replacement|, search, 0) == before
  {
    var starts := Targets(before, search, replaceAll);
    var after := Splice(before, starts, |search|, replacement, 0);
    TargetsOccur(before, search, replaceAll);
    assert "" + after == after;
    GapsOfJoin(Gaps(before, starts, |search|, 0), replacement, "", after);
    SpliceSame(before, starts, search, 0);
    assert before[0..] == before;
  }

  /** The file is reported as changed exactly when the two texts differ. */
  lemma PatchChangesIffTextsDiffer(before: string, search: string, replacement: string, replaceAll: bool)
    requires ApplyPatch(before, search, replacement, replaceAll).Ok?
    ensures ApplyPatch(before, search, replacement, replaceAll).value.changed <==> search != replacement
  {
    var r := ApplyPatch(before, search, replacement, replaceAll).value;
    var starts := Targets(before, search, replaceAll);
    PatchCountsAndMeasures(before, search, replacement, replaceAll);
    TargetsCanBeUndone(before, search, replacement, replaceAll);
    TargetsOccur(before, search, replaceAll);
    if search == replacement {
      SpliceSame(before, starts, search, 0);
      assert before[0..] == before;
    } else if |search| == |replacement| {
      assert Places(Gaps(before, starts, |search|, 0), |replacement|, 0)[0] == starts[0];
      assert OccursAt(r.after, replacement, starts[0]) && OccursAt(before, search, starts[0]);
    } else {
      LengthsDiffer(r.replacements, |search|, |replacement|);
    }
  }

  lemma LengthsDiffer(n: nat, a: nat, b: nat)
    requires n >= 1 && a != b
    ensures n * a != n * b
  {
  }

  /** The text from `from` on with the given ranges exchanged for the replacement. */
  function Exchanged(text: string, starts: seq<nat>, length: nat, replacement: string, from: nat): string
    requires Disjoint(starts, length, from, |text|)
  {
    if starts == [] then text[from..]
    else
      text[from..starts[0]] + replacement
      + Exchanged(text, starts[1..], length, replacement, starts[0] + length)
  }

  lemma {:induction false} SpliceExchanges(text: string, starts: seq<nat>, length: nat, replacement: string, from: nat)
    requires Disjoint(starts, length, from, |text|)
    ensures Splice(text, starts, length, replacement, from) == Exchanged(text, starts, length, replacement, from)
    decreases |starts|
  {
    if starts != [] {
      SpliceExchanges(text, starts[1..], length, replacement, starts[0] + length);
      JoinCons(text[from..starts[0]], Gaps(text, starts[1..], length, starts[0] + length), replacement);
    }
  }

  /** The text with one range exchanged for the replacement. */
  function WithOne(text: string, s: nat, length: nat, replacement: string): string
    requires s + length <= |text|
  {
    text[..s] + replacement + text[s + length..]
  }

  lemma OneExchanged(text: string, s: nat, length: nat, replacement: string)
    requires s + length <= |text|
    ensures Disjoint([s], length, 0, |text|)
    ensures Exchanged(text, [s], length, replacement, 0) == WithOne(text, s, length, replacement)
  {
    assert [s][1..] == [];
    assert text[0..s] == text[..s];
  }

  /** Not found means that the search text stands nowhere; then nothing is written. */
  lemma PatchFailsIff(before: string, search: string, replacement: string, replaceAll: bool)
    ensures ApplyPatch(before, search, replacement, replaceAll) == Err(SearchNotFound)
       <==> forall i: nat :: !OccursAt(before, search, i)
    ensures ApplyPatch(before, search, replacement, replaceAll).Ok?
       <==> exists i: nat :: OccursAt(before, search, i)
  {
    ContainedIffMatched(before, search, 0);
    assert before[0..] == before;
    ContainsIff(before, search);
  }

  lemma AllAreExchanged(before: string, search: string, replacement: string)
    requires MatchesFrom(before, search, 0) != []
    ensures var starts := MatchesFrom(before, search, 0);
      ApplyPatch(before, search, replacement, true)
      == Ok(Patch(|starts|, search != replacement, Exchanged(before, starts, |search|, replacement, 0)))
  {
    SpliceExchanges(before, MatchesFrom(before, search, 0), |search|, replacement, 0);
    PatchChangesIffTextsDiffer(before, search, replacement, true);
  }

  lemma FirstIsExchanged(before: string, search: string, replacement: string, s: nat)
    requires MatchesFrom(before, search, 0) != [] && s == MatchesFrom(before, search, 0)[0]
    ensures s + |search| <= |before|
    ensures ApplyPatch(before, search, replacement, false)
         == Ok(Patch(1, search != replacement, WithOne(before, s, |search|, replacement)))
  {
    OneExchanged(before, s, |search|, replacement);
    SpliceExchanges(before, [s], |search|, replacement, 0);
    PatchChangesIffTextsDiffer(before, search, replacement, false);
  }

  /**
   With `replace_all`, all leftmost, non-overlapping occurrences are counted and exchanged; without
   it only the first of them.
   */
  lemma PatchExchangesLeftmost(before: string, search: string, replacement: string, starts: seq<nat>)
    requires starts != [] && Leftmost(before, search, starts, 0)
    ensures Disjoint(starts, |search|, 0, |before|)
    ensures ApplyPatch(before, search, replacement, true)
         == Ok(Patch(|starts|, search != replacement, Exchanged(before, starts, |search|, replacement, 0)))
    ensures starts[0] + |search| <= |before|
    ensures ApplyPatch(before, search, replacement, false)
         == Ok(Patch(1, search != replacement, WithOne(before, starts[0], |search|, replacement)))
  {
    LeftmostIsUnique(before, search, starts, 0);
    AllAreExchanged(before, search, replacement);
    FirstIsExchanged(before, search, replacement, starts[0]);
  }

  /**
   A patch leaves what lies between the ranges alone, and it can be undone: the search text goes
   back where the replacements stand.
   */
  lemma PatchCanBeUndone(before: string, search: string, replacement: string, replaceAll: bool, starts: seq<nat>)
    requires starts != [] && Leftmost(before, search, starts, 0)
    ensures var chosen := if replaceAll then starts else [starts[0]];
      && ApplyPatch(before, search, replacement, replaceAll).Ok?
      && Disjoint(chosen, |search|, 0, |before|)
      && var after := ApplyPatch(before, search, replacement, replaceAll).value.after;
      var gaps := Gaps(before, chosen, |search|, 0);
      var places := Places(gaps, |replacement|, 0);
      && |places| == |chosen| && Disjoint(places, |replacement|, 0, |after|) && AllOccur(after, replacement, places)
      && Gaps(after, places, |replacement|, 0) == gaps
      && Splice(after, places, |replacement|, search, 0) == before
  {
    LeftmostIsUnique(before, search, starts, 0);
    TargetsCanBeUndone(before, search, replacement, replaceAll);
  }
}
