/**
 Loading a session into a terminal transcript (crates/liz-cli/src/view_model.rs): the recorded
 history goes first and the entries stored before are pushed behind it, past the dedup window.
 Nothing is lost, but the order can change; this file says when it does.
 */
module ViewModelHistories {
  import opened Common
  import opened Threads
  import opened ViewModels
  import opened ViewModelRuns

  // ---------------------------------------------------------------------------------------
  // Which entries the push drops
  // ---------------------------------------------------------------------------------------

  /** The push leaves out entry `i`: it is blank, or among the last three by then. */
  predicate Dropped(history: seq<Entry>, stored: seq<Entry>, i: nat)
    requires i < |stored|
  {
    IsBlank(stored[i].body) || stored[i] in LastThree(PushAll(history, stored[..i]))
  }

  /** The entries the push appends, in order. */
  function Appended(history: seq<Entry>, stored: seq<Entry>): seq<Entry> {
    if stored == [] then []
    else
      var n := |stored| - 1;
      Appended(history, stored[..n]) + if Dropped(history, stored, n) then [] else [stored[n]]
  }

  lemma {:induction false} PushAllAppends(history: seq<Entry>, stored: seq<Entry>)
    ensures PushAll(history, stored) == history + Appended(history, stored)
  {
    if stored == [] {
      assert history + [] == history;
    } else {
      var front, last := stored[..|stored| - 1], stored[|stored| - 1];
      PushAllAppends(history, front);
      assert Appended(history, front) + [] == Appended(history, front);
      assert history + Appended(history, front) + [last] == history + (Appended(history, front) + [last]);
    }
  }

  lemma DroppedInFront(history: seq<Entry>, stored: seq<Entry>, n: nat, i: nat)
    requires i < n <= |stored|
    ensures Dropped(history, stored[..n], i) == Dropped(history, stored, i)
  {
    assert stored[..n][..i] == stored[..i];
  }

  /** Everything appended is an entry that was not dropped. */
  lemma {:induction false} AppendedIsKept(history: seq<Entry>, stored: seq<Entry>, e: Entry)
    requires e in Appended(history, stored)
    ensures exists j: nat | j < |stored| :: !Dropped(history, stored, j) && stored[j] == e
  {
    var n := |stored| - 1;
    if !Dropped(history, stored, n) && stored[n] == e {
    } else {
      AppendedIsKept(history, stored[..n], e);
      var j: nat :| j < n && !Dropped(history, stored[..n], j) && stored[..n][j] == e;
      DroppedInFront(history, stored, n, j);
    }
  }

  lemma SameSnocIff(s: seq<Entry>, t: seq<Entry>, x: Entry)
    ensures s + [x] == t + [x] <==> s == t
  {
    assert (s + [x])[..|s|] == s && (t + [x])[..|t|] == t;
  }

  lemma {:induction false} AppendedCount(history: seq<Entry>, stored: seq<Entry>)
    ensures |Appended(history, stored)| <= |stored|
    ensures Appended(history, stored) == stored <==> forall i: nat | i < |stored| :: !Dropped(history, stored, i)
  {
    if stored != [] {
      var n := |stored| - 1;
      var front := stored[..n];
      assert stored == front + [stored[n]];
      AppendedCount(history, front);
      forall i: nat | i < n ensures Dropped(history, front, i) == Dropped(history, stored, i) {
        DroppedInFront(history, stored, n, i);
      }
      SameSnocIff(Appended(history, front), front, stored[n]);
      assert Dropped(history, stored, n) ==> |Appended(history, stored)| < |stored|;
    }
  }

  /** The whole stored transcript is appended exactly when the push drops none of its entries. */
  lemma AllAppendedIff(history: seq<Entry>, stored: seq<Entry>)
    ensures PushAll(history, stored) == history + stored
       <==> forall i: nat | i < |stored| :: !Dropped(history, stored, i)
  {
    PushAllAppends(history, stored);
    AppendedCount(history, stored);
    assert (history + Appended(history, stored))[|history|..] == Appended(history, stored);
    assert (history + stored)[|history|..] == stored;
  }

  /** Entry `i` is not blank and not among the three entries before it, the end of the history counted in. */
  predicate PassesAt(history: seq<Entry>, stored: seq<Entry>, i: nat)
    requires i < |stored|
  {
    !IsBlank(stored[i].body) && stored[i] !in LastThree(history + stored[..i])
  }

  predicate PassesWindow(history: seq<Entry>, stored: seq<Entry>) {
    forall i: nat | i < |stored| :: PassesAt(history, stored, i)
  }

  lemma FrontPassesAt(history: seq<Entry>, stored: seq<Entry>, n: nat, i: nat)
    requires i < n <= |stored|
    ensures PassesAt(history, stored[..n], i) == PassesAt(history, stored, i)
  {
    assert stored[..n][..i] == stored[..i];
  }

  lemma {:induction false} PassingIsAppended(history: seq<Entry>, stored: seq<Entry>)
    requires PassesWindow(history, stored)
    ensures PushAll(history, stored) == history + stored
  {
    if stored != [] {
      var n := |stored| - 1;
      forall i: nat | i < n ensures PassesAt(history, stored[..n], i) {
        FrontPassesAt(history, stored, n, i);
      }
      PassingIsAppended(history, stored[..n]);
      assert PassesAt(history, stored, n);
      assert history + stored == history + stored[..n] + [stored[n]];
    }
  }

  /** The same read off the two lists: the push appends everything exactly when all of it passes the window. */
  lemma WindowIff(history: seq<Entry>, stored: seq<Entry>)
    ensures PushAll(history, stored) == history + stored <==> PassesWindow(history, stored)
  {
    if PassesWindow(history, stored) {
      PassingIsAppended(history, stored);
    }
    if PushAll(history, stored) == history + stored {
      AllAppendedIff(history, stored);
      forall i: nat | i < |stored| ensures PassesAt(history, stored, i) {
        assert !Dropped(history, stored, i);
        forall k: nat | k < i ensures !Dropped(history, stored[..i], k) {
          DroppedInFront(history, stored, i, k);
        }
        AllAppendedIff(history, stored[..i]);
      }
    }
  }

  // ---------------------------------------------------------------------------------------
  // When the order is kept
  // ---------------------------------------------------------------------------------------

  /** `s` is `t` with entries left out. */
  predicate IsPartOf(s: seq<Entry>, t: seq<Entry>)
    decreases |t|
  {
    s == []
    || (t != [] && (IsPartOf(s, t[..|t| - 1])
                    || (s[|s| - 1] == t[|t| - 1] && IsPartOf(s[..|s| - 1], t[..|t| - 1]))))
  }

  lemma PartOfSnoc(s: seq<Entry>, t: seq<Entry>, x: Entry)
    requires IsPartOf(s, t)
    ensures IsPartOf(s, t + [x]) && IsPartOf(s + [x], t + [x])
  {
    assert (t + [x])[..|t|] == t && (s + [x])[..|s|] == s;
  }

  lemma {:induction false} PartOfLonger(s: seq<Entry>, t: seq<Entry>, more: seq<Entry>)
    requires IsPartOf(s, t)
    ensures IsPartOf(s, t + more)
  {
    if more == [] {
      assert t + more == t;
    } else {
      var front, last := more[..|more| - 1], more[|more| - 1];
      PartOfLonger(s, t, front);
      PartOfSnoc(s, t + front, last);
      assert t + more == (t + front) + [last];
    }
  }

  lemma {:induction false} FrontIsPart(s: seq<Entry>, t: seq<Entry>)
    requires s != [] && IsPartOf(s, t)
    ensures IsPartOf(s[..|s| - 1], t)
    decreases |t|
  {
    var front := t[..|t| - 1];
    if IsPartOf(s, front) {
      FrontIsPart(s, front);
    }
    PartOfSnoc(s[..|s| - 1], front, t[|t| - 1]);
    assert t == front + [t[|t| - 1]];
  }

  lemma {:induction false} PrefixIsPart(s: seq<Entry>, t: seq<Entry>, k: nat)
    requires k <= |s| && IsPartOf(s, t)
    ensures IsPartOf(s[..k], t)
    decreases |s|
  {
    if k == |s| {
      assert s[..k] == s;
    } else {
      FrontIsPart(s, t);
      PrefixIsPart(s[..|s| - 1], t, k);
      assert s[..|s| - 1][..k] == s[..k];
    }
  }

  lemma {:induction false} PartHolds(s: seq<Entry>, t: seq<Entry>, e: Entry)
    requires IsPartOf(s, t) && e in s
    ensures e in t
    decreases |t|
  {
    if IsPartOf(s, t[..|t| - 1]) {
      PartHolds(s, t[..|t| - 1], e);
    } else if e != s[|s| - 1] {
      PartHolds(s[..|s| - 1], t[..|t| - 1], e);
    }
  }

  lemma {:induction false} PartsJoin(s: seq<Entry>, t: seq<Entry>, a: seq<Entry>, b: seq<Entry>)
    requires IsPartOf(s, a) && IsPartOf(t, b)
    ensures IsPartOf(s + t, a + b)
    decreases |b|
  {
    if t == [] {
      assert s + t == s;
      PartOfLonger(s, a, b);
    } else {
      var front, last := b[..|b| - 1], b[|b| - 1];
      assert a + b == (a + front) + [last];
      if IsPartOf(t, front) {
        PartsJoin(s, t, a, front);
        PartOfSnoc(s + t, a + front, last);
      } else {
        PartsJoin(s, t[..|t| - 1], a, front);
        PartOfSnoc(s + t[..|t| - 1], a + front, last);
        assert s + t == s + t[..|t| - 1] + [last];
      }
    }
  }

  lemma {:induction false} PartSplits(s: seq<Entry>, a: seq<Entry>, b: seq<Entry>) returns (k: nat)
    requires IsPartOf(s, a + b)
    ensures k <= |s| && IsPartOf(s[..k], a) && IsPartOf(s[k..], b)
    decreases |b|
  {
    if b == [] || s == [] {
      assert b == [] ==> a + b == a;
      k := |s|;
      assert s[..k] == s;
    } else {
      var front, last := b[..|b| - 1], b[|b| - 1];
      assert (a + b)[..|a + b| - 1] == a + front && b == front + [last];
      if IsPartOf(s, a + front) {
        k := PartSplits(s, a, front);
        PartOfSnoc(s[k..], front, last);
      } else {
        var short := s[..|s| - 1];
        k := PartSplits(short, a, front);
        PartOfSnoc(short[k..], front, last);
        assert s[k..] == short[k..] + [last] && s[..k] == short[..k];
      }
    }
  }

  /** A list is part of two others joined exactly when it is cut somewhere into a part of each. */
  lemma PartOfConcatIff(s: seq<Entry>, a: seq<Entry>, b: seq<Entry>)
    ensures IsPartOf(s, a + b) <==> exists k: nat | k <= |s| :: IsPartOf(s[..k], a) && IsPartOf(s[k..], b)
  {
    if IsPartOf(s, a + b) {
      var k := PartSplits(s, a, b);
    }
    forall k: nat | k <= |s| && IsPartOf(s[..k], a) && IsPartOf(s[k..], b) ensures IsPartOf(s, a + b) {
      PartsJoin(s[..k], s[k..], a, b);
      assert s[..k] + s[k..] == s;
    }
  }

  /** The history shows the transcript up to some place, and the push appends all that follows, in order. */
  ghost predicate HistoryTakesOver(history: seq<Entry>, stored: seq<Entry>) {
    exists k: nat | k <= |stored| :: IsPartOf(stored[..k], history) && IsPartOf(stored[k..], Appended(history, stored))
  }

  /** The stored transcript survives in order exactly then, whatever it repeats. */
  lemma OrderIsKeptIff(history: seq<Entry>, stored: seq<Entry>)
    ensures IsPartOf(stored, PushAll(history, stored)) <==> HistoryTakesOver(history, stored)
  {
    PushAllAppends(history, stored);
    PartOfConcatIff(stored, history, Appended(history, stored));
  }

  /** The loaded history shows each dropped entry, behind everything stored before it. */
  predicate HistoryCoversDropped(history: seq<Entry>, stored: seq<Entry>) {
    forall i: nat | i < |stored| && Dropped(history, stored, i) :: IsPartOf(stored[..i + 1], history)
  }

  /** That is enough for the stored transcript to survive in order. */
  lemma {:induction false} CoveredKeepsOrder(history: seq<Entry>, stored: seq<Entry>)
    requires HistoryCoversDropped(history, stored)
    ensures IsPartOf(stored, PushAll(history, stored))
  {
    if stored != [] {
      var n := |stored| - 1;
      var front := stored[..n];
      assert stored == front + [stored[n]];
      if Dropped(history, stored, n) {
        assert stored[..n + 1] == stored;
        PushAllAppends(history, stored);
        PartOfLonger(stored, history, Appended(history, stored));
      } else {
        forall i: nat | i < n && Dropped(history, front, i) ensures IsPartOf(front[..i + 1], history) {
          DroppedInFront(history, stored, n, i);
          assert front[..i + 1] == stored[..i + 1];
        }
        CoveredKeepsOrder(history, front);
        PartOfSnoc(front, PushAll(history, front), stored[n]);
      }
    }
  }

  lemma TakingOverCovers(history: seq<Entry>, stored: seq<Entry>)
    requires NoRepeats(stored) && HistoryTakesOver(history, stored)
    ensures HistoryCoversDropped(history, stored)
  {
    var k: nat :| k <= |stored| && IsPartOf(stored[..k], history)
      && IsPartOf(stored[k..], Appended(history, stored));
    forall i: nat | i < |stored| && Dropped(history, stored, i) ensures IsPartOf(stored[..i + 1], history) {
      if k <= i {
        assert stored[k..][i - k] == stored[i];
        PartHolds(stored[k..], Appended(history, stored), stored[i]);
        AppendedIsKept(history, stored, stored[i]);
        assert false;
      }
      PrefixIsPart(stored[..k], history, i + 1);
      assert stored[..k][..i + 1] == stored[..i + 1];
    }
  }

  /** Without repeated entries nothing less is. */
  lemma CoveredIff(history: seq<Entry>, stored: seq<Entry>)
    requires NoRepeats(stored)
    ensures HistoryTakesOver(history, stored) <==> HistoryCoversDropped(history, stored)
  {
    OrderIsKeptIff(history, stored);
    if HistoryCoversDropped(history, stored) {
      CoveredKeepsOrder(history, stored);
    }
    if HistoryTakesOver(history, stored) {
      TakingOverCovers(history, stored);
    }
  }

  lemma SessionStores(v: View, id: ThreadId, recent: seq<SessionEntry>)
    ensures Stored(Step(v, SessionOpened(id, recent)).transcripts, id)
        == PushAll(History(recent), Stored(v.transcripts, id))
  {
  }

  /**
   After any run, loading a session keeps the order of a stored transcript exactly when the
   history shows it up to some place and the push appends all that follows, in order.
   */
  lemma LoadedSessionKeepsOrderIff(actions: seq<Action>, id: ThreadId, recent: seq<SessionEntry>)
    ensures var v := RunFrom(EMPTY, actions);
      var stored := Stored(v.transcripts, id);
      IsPartOf(stored, Stored(Step(v, SessionOpened(id, recent)).transcripts, id))
      <==> HistoryTakesOver(History(recent), stored)
  {
    var v := RunFrom(EMPTY, actions);
    SessionStores(v, id, recent);
    OrderIsKeptIff(History(recent), Stored(v.transcripts, id));
  }

  /**
   For a transcript without repeated entries: exactly when the history shows each entry the push
   drops, behind everything stored before that entry.
   */
  lemma UnrepeatedKeepsOrderIff(actions: seq<Action>, id: ThreadId, recent: seq<SessionEntry>)
    requires NoRepeats(Stored(RunFrom(EMPTY, actions).transcripts, id))
    ensures var v := RunFrom(EMPTY, actions);
      var stored := Stored(v.transcripts, id);
      IsPartOf(stored, Stored(Step(v, SessionOpened(id, recent)).transcripts, id))
      <==> HistoryCoversDropped(History(recent), stored)
  {
    LoadedSessionKeepsOrderIff(actions, id, recent);
    CoveredIff(History(recent), Stored(RunFrom(EMPTY, actions).transcripts, id));
  }

  // ---------------------------------------------------------------------------------------
  // A run in which it changes
  // ---------------------------------------------------------------------------------------

  const A := Entry(Assistant, "a")

  const B := Entry(Assistant, "b")

  lemma TwoRepliesStored()
    ensures Stored(RunFrom(EMPTY, [AssistantCompleted("t", "b"), AssistantCompleted("t", "a")]).transcripts, "t")
        == [B, A]
  {
    var first, second := AssistantCompleted("t", "b"), AssistantCompleted("t", "a");
    RunFromSnoc(EMPTY, [], first);
    RunFromSnoc(EMPTY, [first], second);
    assert [] + [first] == [first] && [first] + [second] == [first, second];
    assert "a"[0] in "a" && "b"[0] in "b";
  }

  lemma HistoryOfTwo()
    ensures History([SessionEntry("turn_completed", "a"), SessionEntry("turn_completed", "b")]) == [A, B]
  {
    var first, second := SessionEntry("turn_completed", "a"), SessionEntry("turn_completed", "b");
    assert Trim("a") == "a" && Trim("b") == "b";
    assert [first, second][..1] == [first] && [first][..0] == [];
    assert History([first]) == [A];
  }

  /** Two replies stored in one order come out in the other when the session recorded them so. */
  lemma LoadedSessionCanReorder()
    ensures var v := RunFrom(EMPTY, [AssistantCompleted("t", "b"), AssistantCompleted("t", "a")]);
      var recent := [SessionEntry("turn_completed", "a"), SessionEntry("turn_completed", "b")];
      && Stored(v.transcripts, "t") == [B, A]
      && Stored(Step(v, SessionOpened("t", recent)).transcripts, "t") == [A, B]
  {
    TwoRepliesStored();
    HistoryOfTwo();
    assert [B, A][..1] == [B] && [B][..0] == [];
    assert PushAll([A, B], [B]) == [A, B];
    assert PushAll([A, B], [B, A]) == [A, B];
    SessionStores(RunFrom(EMPTY, [AssistantCompleted("t", "b"), AssistantCompleted("t", "a")]), "t",
                  [SessionEntry("turn_completed", "a"), SessionEntry("turn_completed", "b")]);
  }
}
