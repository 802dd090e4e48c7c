/**
 The append-style terminal renderer (crates/liz-cli/src/renderers.rs).

 The terminal is a list of rows and a cursor. Each frame clears the live region by moving the
 cursor up relative to where the last frame left it, appends new transcript entries to the
 scrollback, draws the live region again and moves the cursor to the input line.
 */
module TerminalFrames {
  import opened Common

  /** A line is a list of coloured segments; only their texts matter here. */
  type Line = seq<string>
  type Entry = string
  type ThreadId = string

  const BLANK: Line := []
  const PROMPT := "\U{276F} "
  const U16_RANGE := 0x1_0000

  // ---------------------------------------------------------------------------------------
  // The terminal
  // ---------------------------------------------------------------------------------------

  /** Whether a terminal takes a cursor-up count of zero as one, as many do. */
  datatype Screen = Screen(rows: seq<Line>, row: nat, column: nat, zeroMovesOne: bool)

  function RowsMoved(screen: Screen, count: nat): nat {
    if count == 0 && screen.zeroMovesOne then 1 else count
  }

  function MovedUp(screen: Screen, count: nat): Screen {
    var n := RowsMoved(screen, count);
    screen.(row := if n <= screen.row then screen.row - n else 0)
  }

  /** `Clear(FromCursorDown)` at column zero. */
  function ClearedDown(screen: Screen): Screen {
    if screen.row <= |screen.rows| then screen.(rows := screen.rows[..screen.row]) else screen
  }

  function Blanks(n: nat): seq<Line> {
    seq(n, _ => BLANK)
  }

  /** Replace the cursor's row by `line` and go to the start of the next one. */
  function LineWritten(screen: Screen, line: Line): Screen {
    var rows := if screen.row < |screen.rows| then screen.rows[screen.row := line]
                else screen.rows + Blanks(screen.row - |screen.rows|) + [line];
    screen.(rows := rows, row := screen.row + 1, column := 0)
  }

  function LinesWritten(screen: Screen, lines: seq<Line>): Screen {
    if lines == [] then screen
    else LineWritten(LinesWritten(screen, lines[..|lines| - 1]), lines[|lines| - 1])
  }

  class Terminal {
    var rows: seq<Line>
    var row: nat
    var column: nat
    const zeroMovesOne: bool

    function View(): Screen
      reads this
    {
      Screen(rows, row, column, zeroMovesOne)
    }

    constructor (rows: seq<Line>, zeroMovesOne: bool)
      ensures View() == Screen(rows, |rows|, 0, zeroMovesOne)
    {
      this.rows, row, column, this.zeroMovesOne := rows, |rows|, 0, zeroMovesOne;
    }

    method MoveUp(count: nat)
      modifies this`row
      ensures View() == MovedUp(old(View()), count)
    {
      var n := if count == 0 && zeroMovesOne then 1 else count;
      row := if n <= row then row - n else 0;
    }

    method MoveToColumn(to: nat)
      modifies this`column
      ensures View() == old(View()).(column := to)
    {
      column := to;
    }

    method ClearFromCursorDown()
      requires column == 0
      modifies this`rows
      ensures View() == ClearedDown(old(View()))
    {
      if row <= |rows| {
        rows := rows[..row];
      }
    }

    method WriteScrollbackLines(lines: seq<Line>)
      modifies this
      ensures View() == LinesWritten(old(View()), lines)
    {
      var i := 0;
      while i < |lines|
        invariant i <= |lines| && View() == LinesWritten(old(View()), lines[..i])
      {
        assert lines[..i + 1][..i] == lines[..i];
        rows := if row < |rows| then rows[row := lines[i]] else rows + Blanks(row - |rows|) + [lines[i]];
        row, column := row + 1, 0;
        i := i + 1;
      }
      assert lines[..i] == lines;
    }
  }

  // ---------------------------------------------------------------------------------------
  // The renderer
  // ---------------------------------------------------------------------------------------

  datatype Render = Render(
    activeThread: Option<ThreadId>,
    welcomeRendered: bool,
    rendered: seq<Entry>,
    liveRegionHeight: nat,
    inputLineOffset: nat)

  /**
   What a frame shows. `welcome` is present when a model status is known; `blocks[i]` are the
   lines drawn for `entries[i]` at the current width.
   */
  datatype Frame = Frame(
    thread: Option<ThreadId>,
    entries: seq<Entry>,
    blocks: seq<seq<Line>>,
    welcome: Option<seq<Line>>,
    live: seq<Line>,
    cursorColumn: nat)
  {
    predicate Valid() {
      |blocks| == |entries|
    }
  }

  function InputLineOffset(lines: seq<Line>): nat {
    var i := FirstPrompt(lines);
    if i < |lines| then i % U16_RANGE else 0
  }

  predicate IsPrompt(line: Line) {
    exists segment <- line :: PROMPT <= segment
  }

  function FirstPrompt(lines: seq<Line>): (i: nat)
    ensures i <= |lines|
    ensures i < |lines| ==> IsPrompt(lines[i])
    ensures forall k | 0 <= k < i :: !IsPrompt(lines[k])
  {
    if lines == [] || IsPrompt(lines[0]) then 0 else 1 + FirstPrompt(lines[1..])
  }

  function CommonPrefix(left: seq<Entry>, right: seq<Entry>): (n: nat)
    ensures n <= |left| && n <= |right| && left[..n] == right[..n]
    ensures n < |left| && n < |right| ==> left[n] != right[n]
  {
    if left == [] || right == [] || left[0] != right[0] then 0
    else
      var n := CommonPrefix(left[1..], right[1..]);
      assert left[..n + 1] == [left[0]] + left[1..][..n] && right[..n + 1] == [right[0]] + right[1..][..n];
      n + 1
  }

  function Synced(r: Render, thread: Option<ThreadId>, entries: seq<Entry>): Render {
    if thread == r.activeThread then r
    else
      var kept := if r.rendered == entries then r.rendered else [];
      r.(activeThread := thread, welcomeRendered := false, rendered := kept)
  }

  function RegionCleared(screen: Screen, height: nat, offset: nat): Screen {
    if height == 0 then screen else ClearedDown(MovedUp(screen, offset).(column := 0))
  }

  /** One thing written to the scrollback: the welcome block, or a transcript entry. */
  datatype Item = Welcome(lines: seq<Line>) | Written(entry: Entry, lines: seq<Line>)

  function ItemLines(items: seq<Item>): seq<Line> {
    if items == [] then [] else ItemLines(items[..|items| - 1]) + items[|items| - 1].lines
  }

  predicate ShowsWelcome(r: Render, f: Frame) {
    f.entries == [] && f.welcome.Some? && !r.welcomeRendered
  }

  /** Entries `from` to `to` of the frame, each followed by a blank line. */
  function EntryItems(f: Frame, from: nat, to: nat): seq<Item>
    requires f.Valid() && from <= to <= |f.entries|
  {
    if from == to then []
    else EntryItems(f, from, to - 1) + [Written(f.entries[to - 1], f.blocks[to - 1] + [BLANK])]
  }

  function WelcomeItems(r: Render, f: Frame): seq<Item> {
    if ShowsWelcome(r, f) then [Welcome(f.welcome.value)] else []
  }

  /** What a frame adds to the scrollback, given the synced render state. */
  function NewItems(r: Render, f: Frame): seq<Item>
    requires f.Valid()
  {
    WelcomeItems(r, f) + EntryItems(f, CommonPrefix(r.rendered, f.entries), |f.entries|)
  }

  function SaturatingSub(a: nat, b: nat): nat {
    if b <= a then a - b else 0
  }

  function RenderAfter(r: Render, f: Frame): Render {
    var synced := Synced(r, f.thread, f.entries);
    synced.(welcomeRendered := synced.welcomeRendered || ShowsWelcome(synced, f), rendered := f.entries,
            liveRegionHeight := |f.live| % U16_RANGE, inputLineOffset := InputLineOffset(f.live))
  }

  function CursorAtInput(screen: Screen, r: Render, column: nat): Screen {
    if r.liveRegionHeight == 0 then screen
    else MovedUp(screen, SaturatingSub(r.liveRegionHeight, r.inputLineOffset)).(column := column)
  }

  function ScreenAfter(screen: Screen, r: Render, f: Frame): Screen
    requires f.Valid()
  {
    var cleared := RegionCleared(screen, r.liveRegionHeight, r.inputLineOffset);
    var appended := LinesWritten(cleared, ItemLines(NewItems(Synced(r, f.thread, f.entries), f)));
    CursorAtInput(LinesWritten(appended, f.live), RenderAfter(r, f), f.cursorColumn)
  }

  class TerminalRenderState {
    var activeThread: Option<ThreadId>
    var welcomeRendered: bool
    var rendered: seq<Entry>
    var liveRegionHeight: nat
    var inputLineOffset: nat

    function View(): Render
      reads this
    {
      Render(activeThread, welcomeRendered, rendered, liveRegionHeight, inputLineOffset)
    }

    constructor ()
      ensures View() == Render(None, false, [], 0, 0)
    {
      activeThread, welcomeRendered, rendered, liveRegionHeight, inputLineOffset := None, false, [], 0, 0;
    }

    method SyncRenderProjection(thread: Option<ThreadId>, entries: seq<Entry>)
      modifies this
      ensures View() == Synced(old(View()), thread, entries)
    {
      if thread == activeThread {
        return;
      }
      var alreadyWritten := rendered == entries;
      activeThread := thread;
      welcomeRendered := false;
      if !alreadyWritten {
        rendered := [];
      }
    }

    method ClearLiveRegion(terminal: Terminal)
      modifies terminal
      ensures terminal.View() == RegionCleared(old(terminal.View()), liveRegionHeight, inputLineOffset)
    {
      if liveRegionHeight == 0 {
        return;
      }
      terminal.MoveUp(inputLineOffset);
      terminal.MoveToColumn(0);
      terminal.ClearFromCursorDown();
    }

    method ClearIncrementalLiveRegion(terminal: Terminal)
      modifies this, terminal
      ensures terminal.View() == RegionCleared(old(terminal.View()), old(liveRegionHeight), old(inputLineOffset))
      ensures View() == old(View()).(liveRegionHeight := 0, inputLineOffset := 0)
    {
      ClearLiveRegion(terminal);
      liveRegionHeight := 0;
      inputLineOffset := 0;
    }

    method WriteEntries(terminal: Terminal, f: Frame, from: nat)
      requires f.Valid() && from <= |f.entries|
      modifies terminal
      ensures terminal.View() == LinesWritten(old(terminal.View()), ItemLines(EntryItems(f, from, |f.entries|)))
    {
      var i := from;
      while i < |f.entries|
        invariant from <= i <= |f.entries|
        invariant terminal.View() == LinesWritten(old(terminal.View()), ItemLines(EntryItems(f, from, i)))
      {
        var lines := f.blocks[i] + [BLANK];
        ItemLinesSnoc(EntryItems(f, from, i), Written(f.entries[i], lines));
        WrittenConcat(old(terminal.View()), ItemLines(EntryItems(f, from, i)), lines);
        terminal.WriteScrollbackLines(lines);
        i := i + 1;
      }
    }

    method WriteWelcome(terminal: Terminal, f: Frame)
      modifies this, terminal
      ensures terminal.View() == LinesWritten(old(terminal.View()), ItemLines(WelcomeItems(old(View()), f)))
      ensures View() == old(View()).(welcomeRendered := old(View()).welcomeRendered || ShowsWelcome(old(View()), f))
    {
      if f.entries == [] && f.welcome.Some? && !welcomeRendered {
        ItemLinesSnoc([], Welcome(f.welcome.value));
        assert [] + [Welcome(f.welcome.value)] == [Welcome(f.welcome.value)];
        assert [] + f.welcome.value == f.welcome.value;
        terminal.WriteScrollbackLines(f.welcome.value);
        welcomeRendered := true;
      }
    }

    method RenderIncremental(terminal: Terminal, f: Frame)
      requires f.Valid()
      modifies this, terminal
      ensures View() == RenderAfter(old(View()), f)
      ensures terminal.View() == ScreenAfter(old(terminal.View()), old(View()), f)
    {
      ClearLiveRegion(terminal);
      ghost var cleared := terminal.View();
      SyncRenderProjection(f.thread, f.entries);
      ghost var welcome := WelcomeItems(View(), f);
      WriteWelcome(terminal, f);
      var common := CommonPrefix(rendered, f.entries);
      ghost var items := EntryItems(f, common, |f.entries|);
      ItemLinesConcat(welcome, items);
      WrittenConcat(cleared, ItemLines(welcome), ItemLines(items));
      WriteEntries(terminal, f, common);
      assert terminal.View() == LinesWritten(cleared, ItemLines(welcome + items));
      rendered := f.entries;
      terminal.WriteScrollbackLines(f.live);
      liveRegionHeight := |f.live| % U16_RANGE;
      inputLineOffset := InputLineOffset(f.live);
      MoveCursorToInput(terminal, f.cursorColumn);
    }

    method MoveCursorToInput(terminal: Terminal, column: nat)
      modifies terminal
      ensures terminal.View() == CursorAtInput(old(terminal.View()), View(), column)
    {
      if liveRegionHeight == 0 {
        return;
      }
      terminal.MoveUp(SaturatingSub(liveRegionHeight, inputLineOffset));
      terminal.MoveToColumn(column);
    }
  }

  lemma {:induction false} WrittenConcat(screen: Screen, a: seq<Line>, b: seq<Line>)
    ensures LinesWritten(screen, a + b) == LinesWritten(LinesWritten(screen, a), b)
  {
    if b == [] {
      assert a + b == a;
    } else {
      assert (a + b)[..|a + b| - 1] == a + b[..|b| - 1];
      WrittenConcat(screen, a, b[..|b| - 1]);
    }
  }

  lemma ItemLinesSnoc(items: seq<Item>, item: Item)
    ensures ItemLines(items + [item]) == ItemLines(items) + item.lines
  {
    assert (items + [item])[..|items|] == items;
  }

  lemma {:induction false} ItemLinesConcat(a: seq<Item>, b: seq<Item>)
    ensures ItemLines(a + b) == ItemLines(a) + ItemLines(b)
  {
    if b == [] {
      assert a + b == a;
    } else {
      assert (a + b)[..|a + b| - 1] == a + b[..|b| - 1];
      ItemLinesConcat(a, b[..|b| - 1]);
    }
  }

  // ---------------------------------------------------------------------------------------
  // Runs of frames
  // ---------------------------------------------------------------------------------------

  /** The renderer with its terminal, what is in the scrollback, and the live region on screen. */
  datatype World = World(screen: Screen, render: Render, scrollback: seq<Item>, live: seq<Line>)

  datatype Action = Draw(frame: Frame) | Clear

  function Start(rows: seq<Line>, zeroMovesOne: bool): World {
    World(Screen(rows, |rows|, 0, zeroMovesOne), Render(None, false, [], 0, 0), [], [])
  }

  function Step(w: World, a: Action): World
    requires a.Draw? ==> a.frame.Valid()
  {
    match a
    case Draw(f) =>
      World(ScreenAfter(w.screen, w.render, f), RenderAfter(w.render, f),
            w.scrollback + NewItems(Synced(w.render, f.thread, f.entries), f), f.live)
    case Clear =>
      World(RegionCleared(w.screen, w.render.liveRegionHeight, w.render.inputLineOffset),
            w.render.(liveRegionHeight := 0, inputLineOffset := 0), w.scrollback, [])
  }

  predicate Drawable(actions: seq<Action>) {
    forall a <- actions :: a.Draw? ==> a.frame.Valid()
  }

  function Run(w: World, actions: seq<Action>): World
    requires Drawable(actions)
  {
    if actions == [] then w
    else Step(Run(w, actions[..|actions| - 1]), actions[|actions| - 1])
  }

  /**
   The screen is the rows from before the session, the scrollback, and the live region; the
   cursor is at the live region's top plus the input line offset.
   */
  ghost predicate Anchored(w: World, base: seq<Line>) {
    var top := |base| + |ItemLines(w.scrollback)|;
    && w.screen.rows == base + ItemLines(w.scrollback) + w.live
    && w.render.liveRegionHeight == |w.live|
    && w.screen.row == top + w.render.inputLineOffset
    && (w.live == [] ==> w.render.inputLineOffset == 0)
    && (w.live != [] ==> w.render.inputLineOffset < |w.live|)
  }

  /** A live region whose clearing is exact on this terminal. */
  predicate Clearable(live: seq<Line>, zeroMovesOne: bool) {
    && |live| < U16_RANGE
    && (zeroMovesOne && live != [] ==> InputLineOffset(live) > 0)
  }

  lemma {:induction false} WritingAtTheEnd(screen: Screen, lines: seq<Line>)
    requires screen.row == |screen.rows|
    ensures var after := LinesWritten(screen, lines);
      && after.rows == screen.rows + lines && after.row == |after.rows|
      && after.zeroMovesOne == screen.zeroMovesOne
  {
    if lines != [] {
      WritingAtTheEnd(screen, lines[..|lines| - 1]);
      assert Blanks(0) == [];
      assert lines == lines[..|lines| - 1] + [lines[|lines| - 1]];
    }
  }

  /** Clearing takes away the live region and nothing else. */
  lemma ClearErasesExactlyTheLiveRegion(w: World, base: seq<Line>)
    requires Anchored(w, base) && (w.screen.zeroMovesOne && w.live != [] ==> w.render.inputLineOffset > 0)
    ensures var cleared := RegionCleared(w.screen, w.render.liveRegionHeight, w.render.inputLineOffset);
      && cleared.rows == base + ItemLines(w.scrollback)
      && cleared.row == |cleared.rows|
      && cleared.zeroMovesOne == w.screen.zeroMovesOne
  {
    var kept := base + ItemLines(w.scrollback);
    assert w.screen.rows[..|kept|] == kept;
    if w.live == [] {
      assert kept + [] == kept;
    }
  }

  lemma LiveRegionIsDrawn(screen: Screen, live: seq<Line>, r: Render, column: nat)
    requires screen.row == |screen.rows| && |live| < U16_RANGE
    requires r.liveRegionHeight == |live| && r.inputLineOffset == InputLineOffset(live)
    ensures var after := CursorAtInput(LinesWritten(screen, live), r, column);
      && after.rows == screen.rows + live
      && after.row == |screen.rows| + r.inputLineOffset
      && after.zeroMovesOne == screen.zeroMovesOne
    ensures if live == [] then r.inputLineOffset == 0 else r.inputLineOffset < |live|
  {
    WritingAtTheEnd(screen, live);
  }

  /** The screen after clearing and before the live region is drawn. */
  function Appended(w: World, items: seq<Item>): Screen {
    LinesWritten(RegionCleared(w.screen, w.render.liveRegionHeight, w.render.inputLineOffset), ItemLines(items))
  }

  lemma ScrollbackIsAppended(w: World, base: seq<Line>, items: seq<Item>)
    requires Anchored(w, base) && (w.screen.zeroMovesOne && w.live != [] ==> w.render.inputLineOffset > 0)
    ensures Appended(w, items).rows == base + ItemLines(w.scrollback + items)
    ensures Appended(w, items).row == |Appended(w, items).rows|
    ensures Appended(w, items).zeroMovesOne == w.screen.zeroMovesOne
  {
    ClearErasesExactlyTheLiveRegion(w, base);
    WritingAtTheEnd(RegionCleared(w.screen, w.render.liveRegionHeight, w.render.inputLineOffset), ItemLines(items));
    ItemLinesConcat(w.scrollback, items);
    assert base + ItemLines(w.scrollback) + ItemLines(items) == base + (ItemLines(w.scrollback) + ItemLines(items));
  }

  lemma DrawKeepsAnchor(w: World, base: seq<Line>, f: Frame)
    requires Anchored(w, base) && f.Valid() && |f.live| < U16_RANGE
    requires w.screen.zeroMovesOne && w.live != [] ==> w.render.inputLineOffset > 0
    ensures Anchored(Step(w, Draw(f)), base)
    ensures Step(w, Draw(f)).screen.zeroMovesOne == w.screen.zeroMovesOne
    ensures Step(w, Draw(f)).render.inputLineOffset == InputLineOffset(f.live)
  {
    var items := NewItems(Synced(w.render, f.thread, f.entries), f);
    ScrollbackIsAppended(w, base, items);
    LiveRegionIsDrawn(Appended(w, items), f.live, RenderAfter(w.render, f), f.cursorColumn);
  }

  ghost predicate RunClearable(actions: seq<Action>, zeroMovesOne: bool) {
    forall a <- actions | a.Draw? :: Clearable(a.frame.live, zeroMovesOne)
  }

  lemma {:induction false} RunKeepsAnchor(rows: seq<Line>, zeroMovesOne: bool, actions: seq<Action>)
    requires Drawable(actions) && RunClearable(actions, zeroMovesOne)
    ensures var w := Run(Start(rows, zeroMovesOne), actions);
      && Anchored(w, rows) && w.screen.zeroMovesOne == zeroMovesOne
      && (zeroMovesOne && w.live != [] ==> w.render.inputLineOffset > 0)
  {
    if actions == [] {
      assert rows + [] + [] == rows;
    } else {
      var front, a := actions[..|actions| - 1], actions[|actions| - 1];
      assert a in actions;
      RunKeepsAnchor(rows, zeroMovesOne, front);
      var w := Run(Start(rows, zeroMovesOne), front);
      ClearErasesExactlyTheLiveRegion(w, rows);
      if a.Draw? {
        DrawKeepsAnchor(w, rows, a.frame);
      } else {
        assert rows + ItemLines(w.scrollback) + [] == rows + ItemLines(w.scrollback);
      }
    }
  }

  // ---------------------------------------------------------------------------------------
  // When clearing is exact
  // ---------------------------------------------------------------------------------------

  /**
   Clearing leaves the scrollback alone exactly when the live region is empty, or the terminal
   takes a count of zero literally, or the input line is not the first live line, or there is
   nothing above. Otherwise it takes the last scrollback row with it.
   */
  lemma ClearIsExactIff(w: World, base: seq<Line>)
    requires Anchored(w, base)
    ensures var above := base + ItemLines(w.scrollback);
      var cleared := RegionCleared(w.screen, w.render.liveRegionHeight, w.render.inputLineOffset).rows;
      var exact := w.live == [] || !w.screen.zeroMovesOne || w.render.inputLineOffset > 0 || above == [];
      && (cleared == above <==> exact)
      && (!exact ==> cleared == above[..|above| - 1])
  {
    var above := base + ItemLines(w.scrollback);
    assert w.screen.rows[..|above|] == above;
    if w.live == [] {
      assert above + [] == above;
    } else if w.screen.zeroMovesOne && w.render.inputLineOffset == 0 && above != [] {
      assert w.screen.rows[..|above| - 1] == above[..|above| - 1];
    }
  }

  lemma RunTwo(w: World, a: Action, b: Action)
    requires Drawable([a, b])
    ensures Run(w, [a, b]) == Step(Step(w, a), b)
  {
    assert [a, b][..1] == [a] && [a][..0] == [];
    assert Run(w, [a]) == Step(w, a);
  }

  /** A reply being streamed in above the composer's rule, input line, rule and status line. */
  const PREVIEW: seq<Line> :=
    [["\U{25CF} ", PROMPT + "hi"], BLANK] + [["\U{2500}"], [PROMPT, "ask"], ["\U{2500}"], ["liz is replying", "/model"]]

  lemma PreviewShowsPrompt()
    ensures InputLineOffset(PREVIEW) == 0
  {
    assert PROMPT <= PROMPT + "hi";
    assert PREVIEW[0][1] in PREVIEW[0] && IsPrompt(PREVIEW[0]);
  }

  lemma StartIsAnchored(rows: seq<Line>, zeroMovesOne: bool)
    ensures Anchored(Start(rows, zeroMovesOne), rows)
  {
    assert rows + ItemLines([]) == rows && rows + [] == rows;
  }

  /** Clearing a drawn live region whose first line shows the prompt takes the last row above it along. */
  lemma PromptFirstErasesRow(rows: seq<Line>, f: Frame)
    requires f.Valid() && 0 < |f.live| < U16_RANGE && InputLineOffset(f.live) == 0
    requires rows + ItemLines(Step(Start(rows, true), Draw(f)).scrollback) != []
    ensures var above := rows + ItemLines(Step(Start(rows, true), Draw(f)).scrollback);
      Run(Start(rows, true), [Draw(f), Clear]).screen.rows == above[..|above| - 1]
  {
    var start := Start(rows, true);
    StartIsAnchored(rows, true);
    DrawKeepsAnchor(start, rows, f);
    ClearIsExactIff(Step(start, Draw(f)), rows);
    RunTwo(start, Draw(f), Clear);
  }

  /** On such a terminal, a reply that starts with the prompt glyph costs a scrollback row. */
  lemma PromptInPreviewErasesScrollback()
    ensures var f := Frame(None, [], [], None, PREVIEW, 2);
      Run(Start([["kept"]], true), [Draw(f), Clear]).screen.rows == []
  {
    var f := Frame(None, [], [], None, PREVIEW, 2);
    PreviewShowsPrompt();
    assert Step(Start([["kept"]], true), Draw(f)).scrollback == [];
    assert [["kept"]] + ItemLines([]) == [["kept"]];
    PromptFirstErasesRow([["kept"]], f);
  }

  /** A line shows the prompt if a segment starts with U+276F and a space. */
  lemma PromptIsTheGlyph(line: Line)
    ensures IsPrompt(line) <==>
      exists segment <- line :: |segment| >= 2 && segment[0] == '\U{276F}' && segment[1] == ' '
  {
    forall segment <- line
      ensures PROMPT <= segment <==> |segment| >= 2 && segment[0] == '\U{276F}' && segment[1] == ' '
    {
    }
  }

  /**
   The live region ends with the composer: a rule, the input line, a rule and the status. The
   cursor is put on the composer's input line exactly when no line above it shows the glyph.
   */
  lemma CursorIsOnComposerIff(above: seq<Line>, rule: Line, input: Line, status: Line)
    requires !IsPrompt(rule) && IsPrompt(input) && |above| + 4 < U16_RANGE
    ensures InputLineOffset(above + [rule, input, rule, status]) == |above| + 1
       <==> forall line <- above :: !IsPrompt(line)
  {
    var live := above + [rule, input, rule, status];
    var i := FirstPrompt(live);
    assert IsPrompt(live[|above| + 1]) && !IsPrompt(live[|above|]);
    assert forall k | 0 <= k < |above| :: live[k] == above[k];
  }

  /** Without a prompt glyph above the composer, clearing is exact on every terminal. */
  lemma ComposerIsClearable(above: seq<Line>, rule: Line, input: Line, status: Line, zeroMovesOne: bool)
    requires !IsPrompt(rule) && IsPrompt(input) && |above| + 4 < U16_RANGE
    requires forall line <- above :: !IsPrompt(line)
    ensures Clearable(above + [rule, input, rule, status], zeroMovesOne)
  {
    CursorIsOnComposerIff(above, rule, input, status);
  }

  // ---------------------------------------------------------------------------------------
  // Each entry is written once
  // ---------------------------------------------------------------------------------------

  function EntriesOf(items: seq<Item>): seq<Entry> {
    if items == [] then []
    else
      var last := items[|items| - 1];
      EntriesOf(items[..|items| - 1]) + if last.Written? then [last.entry] else []
  }

  lemma {:induction false} EntriesOfConcat(a: seq<Item>, b: seq<Item>)
    ensures EntriesOf(a + b) == EntriesOf(a) + EntriesOf(b)
  {
    if b == [] {
      assert a + b == a;
    } else {
      assert (a + b)[..|a + b| - 1] == a + b[..|b| - 1];
      EntriesOfConcat(a, b[..|b| - 1]);
    }
  }

  lemma EntriesOfSnoc(items: seq<Item>, item: Item)
    requires item.Written?
    ensures EntriesOf(items + [item]) == EntriesOf(items) + [item.entry]
  {
    assert (items + [item])[..|items|] == items;
  }

  lemma SliceSnoc<T>(s: seq<T>, from: nat, to: nat)
    requires from < to <= |s|
    ensures s[from..to] == s[from..to - 1] + [s[to - 1]]
  {
  }

  lemma OneMoreEntryItem(f: Frame, from: nat, to: nat)
    requires f.Valid() && from < to <= |f.entries|
    ensures EntriesOf(EntryItems(f, from, to)) == EntriesOf(EntryItems(f, from, to - 1)) + [f.entries[to - 1]]
  {
    EntriesOfSnoc(EntryItems(f, from, to - 1), Written(f.entries[to - 1], f.blocks[to - 1] + [BLANK]));
  }

  lemma {:induction false} EntriesOfEntryItems(f: Frame, from: nat, to: nat)
    requires f.Valid() && from <= to <= |f.entries|
    ensures EntriesOf(EntryItems(f, from, to)) == f.entries[from..to]
  {
    if from < to {
      EntriesOfEntryItems(f, from, to - 1);
      OneMoreEntryItem(f, from, to);
      SliceSnoc(f.entries, from, to);
    }
  }

  lemma WelcomesAreNoEntries(r: Render, f: Frame)
    ensures EntriesOf(WelcomeItems(r, f)) == []
  {
    if ShowsWelcome(r, f) {
      assert [Welcome(f.welcome.value)][..0] == [];
    }
  }

  /** A frame writes the entries behind the common prefix, after a welcome block at most. */
  lemma FrameWrites(r: Render, f: Frame)
    requires f.Valid()
    ensures EntriesOf(NewItems(r, f)) == f.entries[CommonPrefix(r.rendered, f.entries)..]
  {
    var from := CommonPrefix(r.rendered, f.entries);
    EntriesOfConcat(WelcomeItems(r, f), EntryItems(f, from, |f.entries|));
    EntriesOfEntryItems(f, from, |f.entries|);
    WelcomesAreNoEntries(r, f);
    assert [] + f.entries[from..] == f.entries[from..];
  }

  /** The transcript went on from what is written, in the same thread or as a renamed draft. */
  predicate Continues(r: Render, f: Frame) {
    r.rendered == [] || (r.rendered <= f.entries && (f.thread == r.activeThread || r.rendered == f.entries))
  }

  /** Writing behind the common prefix completes the entries exactly when all that was written is a prefix of them. */
  lemma CompletesIff(written: seq<Entry>, known: seq<Entry>, entries: seq<Entry>)
    requires known == written || known == []
    ensures written + entries[CommonPrefix(known, entries)..] == entries
       <==> written == [] || (known == written && written <= entries)
  {
    var from := CommonPrefix(known, entries);
    if written == [] {
      assert known == [] && from == 0 && written + entries[0..] == entries;
    } else if known == written && written <= entries {
      assert from == |written|;
    } else {
      assert (written + entries[from..])[..|written|] == written;
    }
  }

  lemma DrawAppends(w: World, f: Frame)
    requires f.Valid()
    ensures EntriesOf(Step(w, Draw(f)).scrollback)
         == EntriesOf(w.scrollback)
          + f.entries[CommonPrefix(Synced(w.render, f.thread, f.entries).rendered, f.entries)..]
  {
    var synced := Synced(w.render, f.thread, f.entries);
    FrameWrites(synced, f);
    EntriesOfConcat(w.scrollback, NewItems(synced, f));
  }

  /**
   If the scrollback holds what is marked as rendered, then after a frame it holds each entry
   of the transcript once and in order exactly when the transcript continued from there.
   */
  lemma EachEntryOnceIff(w: World, f: Frame)
    requires f.Valid() && EntriesOf(w.scrollback) == w.render.rendered
    ensures EntriesOf(Step(w, Draw(f)).scrollback) == f.entries <==> Continues(w.render, f)
  {
    DrawAppends(w, f);
    CompletesIff(w.render.rendered, Synced(w.render, f.thread, f.entries).rendered, f.entries);
  }

  /** The frames of a run, each continuing from the one before. */
  ghost predicate Continuing(w: World, actions: seq<Action>)
    requires Drawable(actions)
  {
    actions == []
    || (var front, a := actions[..|actions| - 1], actions[|actions| - 1];
        Continuing(w, front) && (a.Draw? ==> Continues(Run(w, front).render, a.frame)))
  }

  ghost predicate InSync(w: World) {
    EntriesOf(w.scrollback) == w.render.rendered
  }

  lemma StepKeepsInSync(w: World, a: Action)
    requires a.Draw? ==> a.frame.Valid() && Continues(w.render, a.frame)
    requires InSync(w)
    ensures InSync(Step(w, a))
  {
    if a.Draw? {
      EachEntryOnceIff(w, a.frame);
    }
  }

  lemma {:induction false} RunKeepsInSync(w: World, actions: seq<Action>)
    requires Drawable(actions) && InSync(w) && Continuing(w, actions)
    ensures InSync(Run(w, actions))
  {
    if actions != [] {
      var front, a := actions[..|actions| - 1], actions[|actions| - 1];
      assert a in actions;
      RunKeepsInSync(w, front);
      StepKeepsInSync(Run(w, front), a);
    }
  }

  /** Over a continuing run the scrollback holds every shown entry exactly once, in order. */
  lemma ScrollbackHoldsEachEntryOnce(rows: seq<Line>, zeroMovesOne: bool, actions: seq<Action>)
    requires Drawable(actions) && Continuing(Start(rows, zeroMovesOne), actions)
    ensures var w := Run(Start(rows, zeroMovesOne), actions);
      EntriesOf(w.scrollback) == w.render.rendered
  {
    RunKeepsInSync(Start(rows, zeroMovesOne), actions);
  }

  /**
   Over every run whose live regions are clearable, the screen is the old rows, the scrollback
   and the last live region, and the cursor is on the line that shows the prompt.
   */
  lemma ScreenIsScrollbackPlusLive(rows: seq<Line>, zeroMovesOne: bool, actions: seq<Action>)
    requires Drawable(actions) && RunClearable(actions, zeroMovesOne)
    ensures var w := Run(Start(rows, zeroMovesOne), actions);
      && w.screen.rows == rows + ItemLines(w.scrollback) + w.live
      && w.screen.row == |rows + ItemLines(w.scrollback)| + w.render.inputLineOffset
      && RegionCleared(w.screen, w.render.liveRegionHeight, w.render.inputLineOffset).rows
          == rows + ItemLines(w.scrollback)
  {
    RunKeepsAnchor(rows, zeroMovesOne, actions);
    ClearErasesExactlyTheLiveRegion(Run(Start(rows, zeroMovesOne), actions), rows);
  }
}
