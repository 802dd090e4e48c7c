/**
 The streamed preview of the terminal client (crates/liz-cli/src/view_model.rs). One buffer serves
 all threads: this file says what it holds after every run, and when that is one thread's own.
 */
module ViewModelPreviews {
  import opened Common
  import opened Threads
  import opened ViewModels
  import opened ViewModelRuns

  datatype Piece = Piece(id: ThreadId, chunk: string)

  function Joined(pieces: seq<Piece>): string {
    if pieces == [] then "" else Joined(pieces[..|pieces| - 1]) + pieces[|pieces| - 1].chunk
  }

  function Shown(pieces: seq<Piece>): Option<string> {
    if pieces == [] then None else Some(Joined(pieces))
  }

  /** The chunks of all threads since the last completion of any. */
  function Pieces(actions: seq<Action>): seq<Piece> {
    if actions == [] then []
    else
      var front, a := actions[..|actions| - 1], actions[|actions| - 1];
      if a.AssistantCompleted? then []
      else if a.AssistantChunk? then Pieces(front) + [Piece(a.id, a.chunk)]
      else Pieces(front)
  }

  /** The chunks of one thread since its own last completion. */
  function OwnPieces(actions: seq<Action>, id: ThreadId): seq<Piece> {
    if actions == [] then []
    else
      var front, a := actions[..|actions| - 1], actions[|actions| - 1];
      if a.AssistantCompleted? && a.id == id then []
      else if a.AssistantChunk? && a.id == id then OwnPieces(front, id) + [Piece(id, a.chunk)]
      else OwnPieces(front, id)
  }

  /** The thread's chunks that a completion of another thread took off the screen. */
  function Erased(actions: seq<Action>, id: ThreadId): seq<Piece> {
    if actions == [] then []
    else
      var front, a := actions[..|actions| - 1], actions[|actions| - 1];
      if !a.AssistantCompleted? then Erased(front, id)
      else if a.id == id then []
      else OwnPieces(front, id)
  }

  /** The pieces that belong to one thread. */
  function Of(pieces: seq<Piece>, id: ThreadId): seq<Piece> {
    if pieces == [] then []
    else
      var last := pieces[|pieces| - 1];
      Of(pieces[..|pieces| - 1], id) + if last.id == id then [last] else []
  }

  lemma JoinedSnoc(pieces: seq<Piece>, p: Piece)
    ensures Joined(pieces + [p]) == Joined(pieces) + p.chunk
  {
    assert (pieces + [p])[..|pieces|] == pieces;
  }

  lemma OfSnoc(pieces: seq<Piece>, p: Piece, id: ThreadId)
    ensures Of(pieces + [p], id) == if p.id == id then Of(pieces, id) + [p] else Of(pieces, id)
  {
    assert (pieces + [p])[..|pieces|] == pieces;
  }

  lemma StepOnPreview(v: View, a: Action)
    ensures Step(v, a).streaming
         == if a.AssistantCompleted? then None
            else if a.AssistantChunk? then Some(v.streaming.Or("") + a.chunk)
            else v.streaming
  {
  }

  /** Over every run the preview is the chunks of all threads since the last completion of any. */
  lemma {:induction false} PreviewIsTheChunks(actions: seq<Action>)
    ensures RunFrom(EMPTY, actions).streaming == Shown(Pieces(actions))
  {
    if actions != [] {
      var front, a := actions[..|actions| - 1], actions[|actions| - 1];
      PreviewIsTheChunks(front);
      StepOnPreview(RunFrom(EMPTY, front), a);
      if a.AssistantChunk? {
        JoinedSnoc(Pieces(front), Piece(a.id, a.chunk));
      }
    }
  }

  lemma {:induction false} OwnAreOwn(actions: seq<Action>, id: ThreadId)
    ensures forall p <- OwnPieces(actions, id) :: p.id == id
  {
    if actions != [] {
      OwnAreOwn(actions[..|actions| - 1], id);
    }
  }

  /** A thread's own chunks are those erased and those among what is shown, in this order. */
  lemma {:induction false} OwnAreErasedAndShown(actions: seq<Action>, id: ThreadId)
    ensures OwnPieces(actions, id) == Erased(actions, id) + Of(Pieces(actions), id)
  {
    if actions != [] {
      var front, a := actions[..|actions| - 1], actions[|actions| - 1];
      var erased, shown := Erased(front, id), Pieces(front);
      OwnAreErasedAndShown(front, id);
      if a.AssistantChunk? {
        var p := Piece(a.id, a.chunk);
        OfSnoc(shown, p, id);
        ConcatAssociates(erased, Of(shown, id), [p]);
        assert Pieces(actions) == shown + [p] && Erased(actions, id) == erased;
      } else if a.AssistantCompleted? {
        assert Pieces(actions) == [] && Erased(actions, id) + [] == Erased(actions, id);
      }
    }
  }

  lemma {:induction false} OfIsAllIff(pieces: seq<Piece>, id: ThreadId)
    ensures |Of(pieces, id)| <= |pieces| && forall p <- Of(pieces, id) :: p.id == id
    ensures Of(pieces, id) == pieces <==> forall p <- pieces :: p.id == id
  {
    if pieces != [] {
      var front, last := pieces[..|pieces| - 1], pieces[|pieces| - 1];
      OfIsAllIff(front, id);
      assert pieces == front + [last];
      if Of(pieces, id) == pieces {
        assert forall p <- pieces :: p in Of(pieces, id);
      }
    }
  }

  /**
   Over every run, what is shown is made of exactly a thread's own chunks if and only if no other
   thread has sent a chunk since the last completion and no completion of another thread erased one.
   */
  lemma PreviewIsOwnIff(actions: seq<Action>, id: ThreadId)
    ensures Pieces(actions) == OwnPieces(actions, id)
       <==> Erased(actions, id) == [] && forall p <- Pieces(actions) :: p.id == id
  {
    var pieces, erased := Pieces(actions), Erased(actions, id);
    OwnAreErasedAndShown(actions, id);
    OwnAreOwn(actions, id);
    OfIsAllIff(pieces, id);
    assert erased == [] ==> erased + pieces == pieces;
    if pieces == OwnPieces(actions, id) {
      assert |erased| + |pieces| == |pieces|;
    }
  }

  /** Then the preview is what a buffer of its own would show. */
  lemma OwnPreviewIsShown(actions: seq<Action>, id: ThreadId)
    requires Erased(actions, id) == [] && forall p <- Pieces(actions) :: p.id == id
    ensures RunFrom(EMPTY, actions).streaming == Shown(OwnPieces(actions, id))
  {
    PreviewIsTheChunks(actions);
    PreviewIsOwnIff(actions, id);
  }

  lemma TwoChunks(a: Action, b: Action)
    requires a.AssistantChunk? && b.AssistantChunk? && a.id != b.id
    ensures Pieces([a, b]) == [Piece(a.id, a.chunk), Piece(b.id, b.chunk)]
    ensures OwnPieces([a, b], a.id) == [Piece(a.id, a.chunk)]
  {
    assert [a, b][..1] == [a] && [a][..0] == [];
    assert Pieces([a]) == [Piece(a.id, a.chunk)] && OwnPieces([a], a.id) == [Piece(a.id, a.chunk)];
  }

  /** Chunks of two threads are shown as one text, and a completion of one erases the other's. */
  lemma PreviewCanMixThreads()
    ensures var first, second := AssistantChunk("a", "x"), AssistantChunk("b", "y");
      && RunFrom(EMPTY, [first, second]).streaming == Some("xy")
      && Shown(OwnPieces([first, second], "a")) == Some("x")
      && RunFrom(EMPTY, [first, second] + [AssistantCompleted("b", "y")]).streaming == None
      && Shown(OwnPieces([first, second] + [AssistantCompleted("b", "y")], "a")) == Some("x")
  {
    var first, second, done := AssistantChunk("a", "x"), AssistantChunk("b", "y"), AssistantCompleted("b", "y");
    var x, y := Piece("a", "x"), Piece("b", "y");
    TwoChunks(first, second);
    PreviewIsTheChunks([first, second]);
    var all := [first, second] + [done];
    PreviewIsTheChunks(all);
    assert all[..|all| - 1] == [first, second] && all[|all| - 1] == done;
    assert Pieces(all) == [] && OwnPieces(all, "a") == OwnPieces([first, second], "a");
    assert [x, y][..1] == [x] && [x][..0] == [];
    assert "" + "x" == "x" && "x" + "y" == "xy" && Joined([x]) == "x" && Joined([x, y]) == "xy";
  }
}
