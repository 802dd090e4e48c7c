/**
 Word wrap and truncation (crates/liz-cli/src/renderers.rs).

 `WrapText` is greedy. It is proved to keep the words, to respect the width bound, and to use
 no more lines than any other way of breaking the same words under that bound.
 */
module WrapText {
  import opened Common

  // ---------------------------------------------------------------------------------------
  // Widths and words
  // ---------------------------------------------------------------------------------------

  predicate IsSingleCellSymbol(c: char) {
    c in "\U{2500}\U{2502}\U{256D}\U{256E}\U{2570}\U{256F}\U{251C}\U{2524}\U{252C}\U{2534}\U{253C}"
    || c in "\U{203A}\U{00B7}\U{2026}\U{23CE}\U{23BF}\U{25CF}\U{203B}\U{203C}\U{2315}\U{276F}"
  }

  function CharWidth(c: char): nat {
    if c as int < 128 || IsSingleCellSymbol(c) then 1 else 2
  }

  function DisplayWidth(text: string): nat {
    if text == "" then 0 else CharWidth(text[0]) + DisplayWidth(text[1..])
  }

  predicate IsWord(word: string) {
    word != "" && forall c <- word :: !IsSpace(c)
  }

  /** The length of the leading run of non-space characters. */
  function WordEnd(text: string): (n: nat)
    ensures n <= |text|
    ensures forall i | 0 <= i < n :: !IsSpace(text[i])
    ensures n < |text| ==> IsSpace(text[n])
  {
    if text == "" || IsSpace(text[0]) then 0 else 1 + WordEnd(text[1..])
  }

  /** `split_whitespace`. */
  function Words(text: string): (words: seq<string>)
    ensures forall w <- words :: IsWord(w)
    decreases |text|
  {
    if text == "" then []
    else if IsSpace(text[0]) then Words(text[1..])
    else
      var n := WordEnd(text);
      [text[..n]] + Words(text[n..])
  }

  /** A line made of words with single spaces between them. */
  function JoinWords(words: seq<string>): string {
    if words == [] then ""
    else if |words| == 1 then words[0]
    else JoinWords(words[..|words| - 1]) + " " + words[|words| - 1]
  }

  lemma {:induction false} WidthOfConcat(a: string, b: string)
    ensures DisplayWidth(a + b) == DisplayWidth(a) + DisplayWidth(b)
  {
    if a == "" {
      assert a + b == b;
    } else {
      assert (a + b)[1..] == a[1..] + b;
      WidthOfConcat(a[1..], b);
    }
  }

  // ---------------------------------------------------------------------------------------
  // The greedy split of a word list
  // ---------------------------------------------------------------------------------------

  function LineWidth(words: seq<string>): nat {
    DisplayWidth(JoinWords(words))
  }

  /** Lines as groups of words: a word joins the last line if it still fits. */
  function Groups(words: seq<string>, bound: nat): seq<seq<string>> {
    if words == [] then []
    else
      var groups, word := Groups(words[..|words| - 1], bound), words[|words| - 1];
      if groups != [] && LineWidth(groups[|groups| - 1]) + 1 + DisplayWidth(word) <= bound
      then groups[..|groups| - 1] + [groups[|groups| - 1] + [word]]
      else groups + [[word]]
  }

  function Rendered(groups: seq<seq<string>>): seq<string> {
    if groups == [] then [] else Rendered(groups[..|groups| - 1]) + [JoinWords(groups[|groups| - 1])]
  }

  function Bound(width: nat): nat {
    if width < 20 then 20 else width
  }

  function Wrapped(text: string, width: nat): seq<string> {
    if text == "" then [""] else Rendered(Groups(Words(text), Bound(width)))
  }

  lemma RenderedSnoc(groups: seq<seq<string>>, group: seq<string>)
    ensures Rendered(groups + [group]) == Rendered(groups) + [JoinWords(group)]
  {
    assert (groups + [group])[..|groups|] == groups;
  }

  /** How the last group changes with one more word. */
  lemma GroupsSnoc(words: seq<string>, word: string, bound: nat, done: seq<seq<string>>, group: seq<string>)
    requires words != [] && group != [] && Groups(words, bound) == done + [group]
    ensures Groups(words + [word], bound)
         == if LineWidth(group) + 1 + DisplayWidth(word) <= bound
            then done + [group + [word]]
            else done + [group] + [[word]]
    ensures JoinWords(group + [word]) == JoinWords(group) + " " + word
  {
    var groups := done + [group];
    assert (words + [word])[..|words|] == words;
    assert (group + [word])[..|group|] == group;
    assert groups[..|groups| - 1] == done && groups[|groups| - 1] == group;
  }

  method Wrap(text: string, width: nat) returns (lines: seq<string>)
    ensures lines == Wrapped(text, width)
  {
    if text == "" {
      return [""];
    }
    lines := WrapWords(Words(text), Bound(width));
  }

  method WrapWords(words: seq<string>, bound: nat) returns (lines: seq<string>)
    requires forall w <- words :: IsWord(w)
    ensures lines == Rendered(Groups(words, bound))
  {
    lines := [];
    var current := "";
    ghost var done: seq<seq<string>>, group: seq<string> := [], [];
    var i := 0;
    while i < |words|
      invariant i <= |words|
      invariant lines == Rendered(done) && current == JoinWords(group)
      invariant if i == 0 then done == [] && group == [] else group != [] && current != ""
      invariant Groups(words[..i], bound) == if i == 0 then [] else done + [group]
    {
      var word := words[i];
      assert words[..i + 1] == words[..i] + [word] && IsWord(word);
      var candidateWidth :=
        if current == "" then DisplayWidth(word) else DisplayWidth(current) + 1 + DisplayWidth(word);
      if i > 0 {
        GroupsSnoc(words[..i], word, bound, done, group);
      }
      if current == "" {
        current := word;
        group := [word];
      } else if candidateWidth <= bound {
        current := current + " " + word;
        group := group + [word];
      } else {
        RenderedSnoc(done, group);
        lines := lines + [current];
        current := word;
        done, group := done + [group], [word];
      }
      i := i + 1;
    }
    assert words[..i] == words;
    if current != "" {
      RenderedSnoc(done, group);
      lines := lines + [current];
    }
  }

  // ---------------------------------------------------------------------------------------
  // The words are kept
  // ---------------------------------------------------------------------------------------

  function Flatten(groups: seq<seq<string>>): seq<string> {
    if groups == [] then [] else Flatten(groups[..|groups| - 1]) + groups[|groups| - 1]
  }

  /** All words of a list of lines, in order. */
  function WordsOfLines(lines: seq<string>): seq<string> {
    if lines == [] then [] else WordsOfLines(lines[..|lines| - 1]) + Words(lines[|lines| - 1])
  }

  lemma {:induction false} GroupsKeepWords(words: seq<string>, bound: nat)
    ensures Flatten(Groups(words, bound)) == words
  {
    if words != [] {
      var front, word := words[..|words| - 1], words[|words| - 1];
      var groups := Groups(front, bound);
      GroupsKeepWords(front, bound);
      assert words == front + [word];
      if groups != [] && LineWidth(groups[|groups| - 1]) + 1 + DisplayWidth(word) <= bound {
        var before, last := groups[..|groups| - 1], groups[|groups| - 1];
        assert (before + [last + [word]])[..|before|] == before;
        assert Flatten(before) + (last + [word]) == Flatten(groups) + [word];
      } else {
        assert (groups + [[word]])[..|groups|] == groups;
      }
    }
  }

  lemma WordIsOneWord(word: string)
    requires IsWord(word)
    ensures Words(word) == [word]
  {
    assert forall i | 0 <= i < |word| :: word[i] in word;
    assert word[..|word|] == word && word[|word|..] == "";
  }

  /** A space separates words. */
  lemma {:induction false} WordsSplitAtSpace(a: string, space: char, b: string)
    requires IsSpace(space)
    ensures Words(a + [space] + b) == Words(a) + Words(b)
    decreases |a|
  {
    var text := a + [space] + b;
    if a == "" {
      assert text[1..] == b;
    } else if IsSpace(a[0]) {
      assert text[1..] == a[1..] + [space] + b;
      WordsSplitAtSpace(a[1..], space, b);
    } else {
      var n := WordEnd(a);
      WordEndSplits(a, [space] + b);
      assert a + ([space] + b) == text;
      assert text[..n] == a[..n] && text[n..] == a[n..] + [space] + b;
      WordsSplitAtSpace(a[n..], space, b);
    }
  }

  lemma {:induction false} WordEndSplits(a: string, rest: string)
    requires rest != "" && IsSpace(rest[0])
    ensures WordEnd(a + rest) == WordEnd(a)
  {
    if a == "" {
      assert a + rest == rest;
    } else if !IsSpace(a[0]) {
      assert (a + rest)[1..] == a[1..] + rest;
      WordEndSplits(a[1..], rest);
    }
  }

  /** Reading the words of a joined line gives the words it was joined from. */
  lemma {:induction false} WordsOfJoined(words: seq<string>)
    requires forall w <- words :: IsWord(w)
    ensures Words(JoinWords(words)) == words
  {
    if |words| == 1 {
      WordIsOneWord(words[0]);
    } else if words != [] {
      var front, word := words[..|words| - 1], words[|words| - 1];
      assert words == front + [word];
      WordsOfJoined(front);
      WordIsOneWord(word);
      assert JoinWords(words) == JoinWords(front) + [' '] + word;
      WordsSplitAtSpace(JoinWords(front), ' ', word);
    }
  }

  lemma {:induction false} WordsOfRendered(groups: seq<seq<string>>)
    requires forall w <- Flatten(groups) :: IsWord(w)
    ensures WordsOfLines(Rendered(groups)) == Flatten(groups)
  {
    if groups != [] {
      var front, last := groups[..|groups| - 1], groups[|groups| - 1];
      WordsOfRendered(front);
      WordsOfJoined(last);
      assert Rendered(groups)[..|Rendered(groups)| - 1] == Rendered(front);
    }
  }

  // ---------------------------------------------------------------------------------------
  // The width bound
  // ---------------------------------------------------------------------------------------

  lemma LineWidthSnoc(words: seq<string>, word: string)
    ensures LineWidth(words + [word])
        == if words == [] then DisplayWidth(word) else LineWidth(words) + 1 + DisplayWidth(word)
  {
    if words == [] {
      assert words + [word] == [word];
    } else {
      assert (words + [word])[..|words|] == words;
      WidthOfConcat(JoinWords(words) + " ", word);
      WidthOfConcat(JoinWords(words), " ");
    }
  }

  /** A group fits if it has at most one word or is within the bound. */
  predicate Fits(group: seq<string>, bound: nat) {
    |group| <= 1 || LineWidth(group) <= bound
  }

  lemma {:induction false} GroupsFit(words: seq<string>, bound: nat)
    ensures forall g <- Groups(words, bound) :: Fits(g, bound)
  {
    if words != [] {
      var front, word := words[..|words| - 1], words[|words| - 1];
      GroupsFit(front, bound);
      var groups := Groups(front, bound);
      if groups != [] {
        LineWidthSnoc(groups[|groups| - 1], word);
      }
    }
  }

  // ---------------------------------------------------------------------------------------
  // Greedy is optimal
  // ---------------------------------------------------------------------------------------

  /** Fewer words at the front make a line no wider. */
  lemma {:induction false} SuffixIsNarrower(words: seq<string>, k: nat)
    requires k <= |words|
    ensures LineWidth(words[k..]) <= LineWidth(words)
  {
    if words != [] && k < |words| {
      var front, word := words[..|words| - 1], words[|words| - 1];
      assert words == front + [word];
      assert words[k..] == front[k..] + [word];
      SuffixIsNarrower(front, k);
      LineWidthSnoc(front, word);
      LineWidthSnoc(front[k..], word);
      if k > 0 && front[k..] == [] {
        assert LineWidth(words[k..]) == DisplayWidth(word);
      }
    } else {
      assert k == 0 ==> words[k..] == words;
      assert k == |words| ==> words[k..] == [];
    }
  }

  function LastSize(groups: seq<seq<string>>): nat {
    if groups == [] then 0 else |groups[|groups| - 1]|
  }

  lemma OneMoreWord(front: seq<string>, word: string, bound: nat)
    ensures var before, after := Groups(front, bound), Groups(front + [word], bound);
      || (|after| == |before| + 1 && LastSize(after) == 1)
      || (before != [] && |after| == |before| && LastSize(after) == LastSize(before) + 1)
  {
    assert (front + [word])[..|front|] == front;
  }

  /**
   Greedy stays ahead: it never has more lines than another split of the same words, and with
   equally many its last line is no longer.
   */
  lemma {:induction false} GreedyStaysAhead(words: seq<string>, bound: nat, other: seq<seq<string>>)
    requires Flatten(other) == words && forall g <- other :: Fits(g, bound)
    ensures |Groups(words, bound)| <= |other|
    ensures |Groups(words, bound)| == |other| ==> LastSize(Groups(words, bound)) <= LastSize(other)
    decreases |words|, |other|
  {
    if words != [] {
      var otherFront, otherLast := other[..|other| - 1], other[|other| - 1];
      if otherLast == [] {
        GreedyStaysAhead(words, bound, otherFront);
      } else {
        var front, word := words[..|words| - 1], words[|words| - 1];
        var short := otherLast[..|otherLast| - 1];
        assert otherLast == short + [word] && words == front + [word];
        assert front == Flatten(otherFront) + short;
        OneMoreWord(front, word, bound);
        if short == [] {
          assert front == Flatten(otherFront) && LastSize(other) == 1;
          GreedyStaysAhead(front, bound, otherFront);
        } else {
          assert otherLast in other && Fits(otherLast, bound);
          LineWidthSnoc(short, word);
          ShorterSplit(otherFront, short, front, bound);
          GreedyStaysAhead(front, bound, otherFront + [short]);
          if |Groups(front, bound)| == |other| {
            GreedyExtends(front, word, bound, Flatten(otherFront), short);
          }
        }
      }
    }
  }

  lemma ShorterSplit(front: seq<seq<string>>, short: seq<string>, words: seq<string>, bound: nat)
    requires (forall g <- front :: Fits(g, bound)) && LineWidth(short) <= bound && words == Flatten(front) + short
    ensures Flatten(front + [short]) == words && forall g <- front + [short] :: Fits(g, bound)
  {
    assert (front + [short])[..|front|] == front;
  }

  lemma ShorterSuffix(a: seq<string>, b: seq<string>, c: seq<string>, d: seq<string>)
    requires a + b == c + d && |b| <= |d|
    ensures b == d[|d| - |b|..]
  {
    var whole := a + b;
    assert b == whole[|a|..] && d == whole[|c|..];
  }

  /** If the other split fits one more word on its last line, so does greedy on its shorter one. */
  lemma GreedyExtends(front: seq<string>, word: string, bound: nat, head: seq<string>, short: seq<string>)
    requires front == head + short && short != []
    requires LineWidth(short) + 1 + DisplayWidth(word) <= bound
    requires Groups(front, bound) != [] && LastSize(Groups(front, bound)) <= |short|
    ensures |Groups(front + [word], bound)| == |Groups(front, bound)|
    ensures LastSize(Groups(front + [word], bound)) == LastSize(Groups(front, bound)) + 1
  {
    var groups := Groups(front, bound);
    var last := groups[|groups| - 1];
    GroupsKeepWords(front, bound);
    ShorterSuffix(Flatten(groups[..|groups| - 1]), last, head, short);
    SuffixIsNarrower(short, |short| - |last|);
    assert groups == groups[..|groups| - 1] + [last];
    GroupsSnoc(front, word, bound, groups[..|groups| - 1], last);
  }

  // ---------------------------------------------------------------------------------------
  // What `Wrap` promises, on text
  // ---------------------------------------------------------------------------------------

  /** No word is lost, split, merged or moved. */
  lemma WrapKeepsWords(text: string, width: nat)
    ensures WordsOfLines(Wrapped(text, width)) == Words(text)
  {
    if text == "" {
      assert [""][..0] == [];
    } else {
      GroupsKeepWords(Words(text), Bound(width));
      WordsOfRendered(Groups(Words(text), Bound(width)));
    }
  }

  lemma {:induction false} RenderedAt(groups: seq<seq<string>>, i: nat)
    requires i < |groups|
    ensures |Rendered(groups)| == |groups| && Rendered(groups)[i] == JoinWords(groups[i])
  {
    RenderedLength(groups);
    if i < |groups| - 1 {
      RenderedAt(groups[..|groups| - 1], i);
    } else {
      RenderedLength(groups[..|groups| - 1]);
    }
  }

  lemma {:induction false} RenderedLength(groups: seq<seq<string>>)
    ensures |Rendered(groups)| == |groups|
  {
    if groups != [] {
      RenderedLength(groups[..|groups| - 1]);
    }
  }

  /** Only a line of a single word may be wider than the bound. */
  lemma WrapRespectsWidth(text: string, width: nat, i: nat)
    requires i < |Wrapped(text, width)| && |Words(Wrapped(text, width)[i])| >= 2
    ensures DisplayWidth(Wrapped(text, width)[i]) <= Bound(width)
  {
    if text != "" {
      var words := Words(text);
      var groups := Groups(words, Bound(width));
      RenderedLength(groups);
      RenderedAt(groups, i);
      GroupsFit(words, Bound(width));
      GroupsKeepWords(words, Bound(width));
      assert groups[i] in groups;
      FlattenContains(groups, i);
      WordsOfJoined(groups[i]);
    }
  }

  lemma {:induction false} FlattenContains(groups: seq<seq<string>>, i: nat)
    requires i < |groups|
    ensures forall w <- groups[i] :: w in Flatten(groups)
  {
    if i < |groups| - 1 {
      FlattenContains(groups[..|groups| - 1], i);
    }
  }

  /** Words set with single spaces are the narrowest way to show them on one line. */
  lemma {:induction false} WordsAreNarrowest(line: string)
    ensures LineWidth(Words(line)) <= DisplayWidth(line)
    decreases |line|
  {
    if line != "" {
      if IsSpace(line[0]) {
        WordsAreNarrowest(line[1..]);
      } else {
        var n := WordEnd(line);
        var word, rest := line[..n], line[n..];
        assert line == word + rest;
        WidthOfConcat(word, rest);
        if rest == "" {
          assert Words(line) == [word];
        } else {
          WordsAreNarrowest(rest[1..]);
          assert Words(rest) == Words(rest[1..]);
          LineWidthCons(word, Words(rest));
        }
      }
    }
  }

  lemma {:induction false} LineWidthCons(word: string, words: seq<string>)
    ensures LineWidth([word] + words)
        == if words == [] then DisplayWidth(word) else DisplayWidth(word) + 1 + LineWidth(words)
  {
    if words == [] {
      assert [word] + words == [word];
    } else {
      var front, last := words[..|words| - 1], words[|words| - 1];
      assert [word] + words == ([word] + front) + [last] && words == front + [last];
      LineWidthCons(word, front);
      LineWidthSnoc([word] + front, last);
      LineWidthSnoc(front, last);
    }
  }

  function WordGroups(lines: seq<string>): seq<seq<string>> {
    if lines == [] then [] else WordGroups(lines[..|lines| - 1]) + [Words(lines[|lines| - 1])]
  }

  lemma {:induction false} WordGroupsFit(lines: seq<string>, bound: nat)
    requires forall line <- lines | |Words(line)| >= 2 :: DisplayWidth(line) <= bound
    ensures |WordGroups(lines)| == |lines| && Flatten(WordGroups(lines)) == WordsOfLines(lines)
    ensures forall g <- WordGroups(lines) :: Fits(g, bound)
  {
    if lines != [] {
      var front, last := lines[..|lines| - 1], lines[|lines| - 1];
      assert lines == front + [last];
      WordGroupsFit(front, bound);
      WordsAreNarrowest(last);
      assert WordGroups(lines)[..|front|] == WordGroups(front);
    }
  }

  /** No list of lines with the same words and the same width bound is shorter. */
  lemma WrapUsesFewestLines(text: string, width: nat, lines: seq<string>)
    requires text != "" && WordsOfLines(lines) == Words(text)
    requires forall line <- lines | |Words(line)| >= 2 :: DisplayWidth(line) <= Bound(width)
    ensures |Wrapped(text, width)| <= |lines|
  {
    WordGroupsFit(lines, Bound(width));
    GreedyStaysAhead(Words(text), Bound(width), WordGroups(lines));
    RenderedLength(Groups(Words(text), Bound(width)));
  }

  // ---------------------------------------------------------------------------------------
  // Truncation
  // ---------------------------------------------------------------------------------------

  const ELLIPSIS := "\U{2026}"

  /** `text[..k]` is the longest prefix that leaves a cell for the ellipsis. */
  ghost predicate LongestFit(text: string, width: nat, k: nat) {
    && k <= |text| && DisplayWidth(text[..k]) < width
    && (k < |text| ==> DisplayWidth(text[..k + 1]) >= width)
  }

  lemma PrefixWidth(text: string, k: nat)
    requires k < |text|
    ensures DisplayWidth(text[..k + 1]) == DisplayWidth(text[..k]) + CharWidth(text[k])
  {
    assert text[..k + 1] == text[..k] + [text[k]];
    WidthOfConcat(text[..k], [text[k]]);
    assert DisplayWidth([text[k]]) == CharWidth(text[k]);
  }

  method Truncate(text: string, width: nat) returns (result: string)
    ensures DisplayWidth(result) <= width
    ensures DisplayWidth(text) <= width ==> result == text
    ensures DisplayWidth(text) > width > 0 ==>
      exists k: nat | k < |text| :: LongestFit(text, width, k) && result == text[..k] + ELLIPSIS
  {
    if DisplayWidth(text) <= width {
      return text;
    }
    result := "";
    var used, i := 0, 0;
    while i < |text| && used + CharWidth(text[i]) < width
      invariant i <= |text| && result == text[..i] && used == DisplayWidth(result)
      invariant i == 0 || used < width
    {
      PrefixWidth(text, i);
      result := result + [text[i]];
      used := used + CharWidth(text[i]);
      i := i + 1;
    }
    assert i == |text| ==> text[..i] == text;
    if width > 0 {
      PrefixWidth(text, i);
      WidthOfConcat(result, ELLIPSIS);
      assert DisplayWidth(ELLIPSIS) == 1 by {
        assert IsSingleCellSymbol(ELLIPSIS[0]);
        assert ELLIPSIS[1..] == "";
      }
      assert LongestFit(text, width, i);
      result := result + ELLIPSIS;
    }
  }

  // ---------------------------------------------------------------------------------------
  // The measures
  // ---------------------------------------------------------------------------------------

  /** ASCII and 21 drawing symbols take one cell, everything else two; a line has at least 20. */
  lemma CellsAndColumns(c: char, width: nat)
    ensures c as int < 0x80 ==> CharWidth(c) == 1
    ensures (c in ['\U{2500}', '\U{2502}', '\U{256D}', '\U{256E}', '\U{2570}', '\U{256F}', '\U{251C}', '\U{2524}',
                  '\U{252C}', '\U{2534}', '\U{253C}', '\U{203A}', '\U{00B7}', '\U{2026}', '\U{23CE}', '\U{23BF}',
                  '\U{25CF}', '\U{203B}', '\U{203C}', '\U{2315}', '\U{276F}'])
       <==> c as int >= 0x80 && CharWidth(c) == 1
    ensures CharWidth(c) != 1 ==> CharWidth(c) == 2
    ensures Bound(width) >= 20 && Bound(width) >= width && (Bound(width) == 20 || Bound(width) == width)
  {
  }
}
