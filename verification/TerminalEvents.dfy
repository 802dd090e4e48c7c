/**
 What a frame and a clear do to any renderer state: what is written, what is remembered, and where
 the cursor goes (crates/liz-cli/src/renderers.rs).
 */
module TerminalEvents {
  import opened Common
  import opened TerminalFrames

  /** The welcome of this thread is on the screen already. */
  predicate Welcomed(r: Render, f: Frame) {
    r.welcomeRendered && f.thread == r.activeThread
  }

  /** A frame without entries writes its welcome, once per thread. */
  predicate Welcomes(r: Render, f: Frame) {
    f.entries == [] && f.welcome.Some? && !Welcomed(r, f)
  }

  /** The entries that count as written: none of another thread's, unless they are the ones to show. */
  function WrittenSoFar(r: Render, f: Frame): seq<Entry> {
    if f.thread == r.activeThread || r.rendered == f.entries then r.rendered else []
  }

  /** How many entries two transcripts share at the front. */
  ghost predicate ShareExactly(a: seq<Entry>, b: seq<Entry>, n: nat) {
    && n <= |a| && n <= |b| && a[..n] == b[..n]
    && (n < |a| && n < |b| ==> a[n] != b[n])
  }

  lemma {:induction false} EntryItemsAt(f: Frame, from: nat, to: nat)
    requires f.Valid() && from <= to <= |f.entries|
    ensures |EntryItems(f, from, to)| == to - from
    ensures forall i | 0 <= i < to - from ::
      EntryItems(f, from, to)[i] == Written(f.entries[from + i], f.blocks[from + i] + [[]])
  {
    if from < to {
      EntryItemsAt(f, from, to - 1);
    }
  }

  lemma ItemsAre(r: Render, f: Frame, n: nat)
    requires f.Valid() && ShareExactly(WrittenSoFar(r, f), f.entries, n)
    ensures n <= |f.entries|
    ensures NewItems(Synced(r, f.thread, f.entries), f)
         == (if Welcomes(r, f) then [Welcome(f.welcome.value)] else []) + EntryItems(f, n, |f.entries|)
  {
    var synced := Synced(r, f.thread, f.entries);
    assert synced.rendered == WrittenSoFar(r, f);
    SharedIsCommon(synced.rendered, f.entries, n);
    assert ShowsWelcome(synced, f) <==> Welcomes(r, f);
  }

  /** What a frame adds to the scrollback: its welcome, or each new entry's lines and an empty one. */
  lemma DrawWrites(w: World, f: Frame, n: nat)
    requires f.Valid() && ShareExactly(WrittenSoFar(w.render, f), f.entries, n)
    ensures exists items :: IsNew(w.render, f, n, items) && Step(w, Draw(f)).scrollback == w.scrollback + items
  {
    var items := NewItems(Synced(w.render, f.thread, f.entries), f);
    ItemsAre(w.render, f, n);
    EntryItemsAt(f, n, |f.entries|);
    assert [] + EntryItems(f, n, |f.entries|) == EntryItems(f, n, |f.entries|);
    assert IsNew(w.render, f, n, items);
  }

  /** The welcome, or the blocks of the entries from the `n`-th on, each with an empty line behind. */
  ghost predicate IsNew(r: Render, f: Frame, n: nat, items: seq<Item>)
    requires f.Valid()
  {
    if Welcomes(r, f) then items == [Welcome(f.welcome.value)]
    else
      && n + |items| == |f.entries|
      && forall i | 0 <= i < |items| :: items[i] == Written(f.entries[n + i], f.blocks[n + i] + [[]])
  }

  lemma SharedIsCommon(a: seq<Entry>, b: seq<Entry>, n: nat)
    requires ShareExactly(a, b, n)
    ensures CommonPrefix(a, b) == n
  {
    var m := CommonPrefix(a, b);
    assert forall k | 0 <= k < n :: a[k] == a[..n][k] == b[..n][k] == b[k];
    assert forall k | 0 <= k < m :: a[k] == a[..m][k] == b[..m][k] == b[k];
  }

  /** What a frame remembers. */
  lemma DrawRemembers(w: World, f: Frame)
    requires f.Valid()
    ensures var y := Step(w, Draw(f));
      && y.live == f.live
      && y.render.activeThread == f.thread && y.render.rendered == f.entries
      && y.render.welcomeRendered == (Welcomed(w.render, f) || Welcomes(w.render, f))
      && y.render.liveRegionHeight == |f.live| % 0x1_0000
      && (forall k: nat | IsFirstPrompt(f.live, k) :: y.render.inputLineOffset == k % 0x1_0000)
      && ((forall line <- f.live :: !IsPrompt(line)) ==> y.render.inputLineOffset == 0)
  {
  }

  ghost predicate IsFirstPrompt(lines: seq<Line>, k: nat) {
    k < |lines| && IsPrompt(lines[k]) && forall j | 0 <= j < k :: !IsPrompt(lines[j])
  }

  /** Whatever is written, the cursor is at the start of the line behind it. */
  lemma WritingEndsLines(screen: Screen, lines: seq<Line>)
    requires lines != []
    ensures LinesWritten(screen, lines).column == 0
  {
  }

  /** Behind a live region the cursor ends in the column of the input. */
  lemma DrawPlacesCursor(w: World, f: Frame)
    requires f.Valid() && 0 < |f.live| < 0x1_0000
    ensures Step(w, Draw(f)).screen.column == f.cursorColumn
  {
  }

  /** Clearing puts the cursor in column zero and forgets the live region only. */
  lemma ClearForgets(w: World)
    ensures var y := Step(w, Clear);
      && y.scrollback == w.scrollback && y.live == []
      && y.render == w.render.(liveRegionHeight := 0, inputLineOffset := 0)
      && (w.render.liveRegionHeight > 0 ==> y.screen.column == 0)
      && (w.render.liveRegionHeight == 0 ==> y.screen == w.screen)
  {
  }
}
