/**
 What each response and event writes into the transcripts of the terminal client
 (crates/liz-cli/src/view_model.rs).
 */
module ViewModelEvents {
  import opened Common
  import opened Threads
  import opened ViewModels
  import opened ViewModelRuns

  /** The transcript of a thread, nothing at first. */
  function TextOf(v: View, id: ThreadId): seq<Entry> {
    if id in v.transcripts then v.transcripts[id] else []
  }

  /** The entry goes last, unless it has no visible character or is one of the last three already. */
  ghost predicate Adds(before: seq<Entry>, after: seq<Entry>, e: Entry) {
    if (exists c <- e.body :: !IsSpace(c)) && !(exists k | |before| - 3 <= k < |before| && 0 <= k :: before[k] == e)
    then after == before + [e]
    else after == before
  }

  lemma PushAdds(before: seq<Entry>, e: Entry)
    ensures Adds(before, PushDeduped(before, e), e)
  {
    assert IsBlank(e.body) <==> !(exists c <- e.body :: !IsSpace(c));
    var n := |before|;
    var last := LastThree(before);
    if k :| n - 3 <= k < n && 0 <= k && before[k] == e {
      assert last[if n <= 3 then k else k - (n - 3)] == e;
    }
    if e in last {
      var j :| 0 <= j < |last| && last[j] == e;
      assert before[if n <= 3 then j else j + (n - 3)] == e;
    }
  }

  /** The entry is added to its thread and shown if that thread is active; nothing else changes. */
  ghost predicate Notes(v: View, w: View, id: ThreadId, e: Entry) {
    && id in w.transcripts && Adds(TextOf(v, id), w.transcripts[id], e)
    && w == v.(transcripts := v.transcripts[id := w.transcripts[id]],
               visible := if v.active == Some(id) then w.transcripts[id] else v.visible)
  }

  lemma PushNotes(v: View, id: ThreadId, e: Entry)
    ensures Notes(v, AfterPush(v, id, e), id, e)
  {
    PushAdds(TextOf(v, id), e);
  }

  lemma EntryIsNoted(v: View, a: Action, id: ThreadId, e: Entry)
    requires EventEntry(a) == Some(Pushed(id, e)) && !a.AssistantCompleted?
    ensures Notes(v, Step(v, a), id, e)
  {
    assert Step(v, a) == AfterPush(v, id, e);
    PushNotes(v, id, e);
  }

  lemma CompletionIsNoted(v: View, id: ThreadId, message: string)
    ensures Notes(v.(streaming := None), Step(v, AssistantCompleted(id, message)), id, Entry(Assistant, message))
  {
    assert Step(v, AssistantCompleted(id, message))
        == AfterPush(v.(streaming := None), id, Entry(Assistant, message));
    PushNotes(v.(streaming := None), id, Entry(Assistant, message));
  }

  /** The end of a turn, each with its own text; a completion also clears the preview. */
  lemma TurnEndsNote(v: View, id: ThreadId, message: string)
    ensures Notes(v, Step(v, TurnFailed(id, message)), id, Entry(System, "Turn failed: " + message))
    ensures Notes(v, Step(v, TurnCancelled(id)), id, Entry(System, "Turn interrupted"))
    ensures Notes(v.(streaming := None), Step(v, AssistantCompleted(id, message)), id, Entry(Assistant, message))
  {
    EntryIsNoted(v, TurnFailed(id, message), id, Entry(System, "Turn failed: " + message));
    EntryIsNoted(v, TurnCancelled(id), id, Entry(System, "Turn interrupted"));
    CompletionIsNoted(v, id, message);
  }

  /** What happens within a turn. */
  lemma WorkNotes(v: View, id: ThreadId, name: string, text: string)
    ensures Notes(v, Step(v, ToolFinished(id, name, text)), id, Entry(Tool, name + ": " + text))
    ensures Notes(v, Step(v, ApprovalRequested(id, name, text)), id, Entry(Approval, name + " needs approval: " + text))
  {
    EntryIsNoted(v, ToolFinished(id, name, text), id, Entry(Tool, name + ": " + text));
    EntryIsNoted(v, ApprovalRequested(id, name, text), id, Entry(Approval, name + " needs approval: " + text));
  }

  lemma ResultsNote(v: View, id: ThreadId, name: string, text: string)
    ensures Notes(v, Step(v, ApprovalResolved(id, name, text)), id,
                  Entry(System, "Approval " + name + " resolved as " + text))
    ensures Notes(v, Step(v, CompilationApplied(id, text)), id, Entry(System, "Memory updated: " + text))
  {
    EntryIsNoted(v, ApprovalResolved(id, name, text), id, Entry(System, "Approval " + name + " resolved as " + text));
    EntryIsNoted(v, CompilationApplied(id, text), id, Entry(System, "Memory updated: " + text));
  }

  /** A started turn shows its goal, if it has one with a visible character. */
  lemma TurnStartNotes(v: View, id: ThreadId, goal: Option<string>)
    ensures var w := Step(v, TurnStarted(id, goal));
      if goal.Some? && exists c <- goal.value :: !IsSpace(c) then Notes(v, w, id, Entry(User, goal.value))
      else w == v
  {
    if goal.Some? {
      assert IsBlank(goal.value) <==> !(exists c <- goal.value :: !IsSpace(c));
      PushNotes(v, id, Entry(User, goal.value));
    }
  }

  /** What the user and the client say goes to the active thread, or to the screen if there is none. */
  lemma SelectedNote(v: View, message: string)
    ensures SaysSelected(v, Step(v, UserMessage(message)), Entry(User, message))
    ensures SaysSelected(v, Step(v, SystemMessage(message)), Entry(System, message))
    ensures SaysSelected(v, Step(v, ErrorResponse(message)), Entry(System, message))
  {
    SelectedPushNotes(v, Entry(User, message));
    SelectedPushNotes(v, Entry(System, message));
  }

  ghost predicate SaysSelected(v: View, w: View, e: Entry) {
    if v.active.Some? then Notes(v, w, v.active.value, e)
    else w == v.(visible := w.visible) && Adds(v.visible, w.visible, e)
  }

  lemma SelectedPushNotes(v: View, e: Entry)
    ensures SaysSelected(v, AfterPushSelected(v, e), e)
  {
    PushAdds(v.visible, e);
    if v.active.Some? {
      PushNotes(v, v.active.value, e);
    }
  }

  /** A first message waits in the draft, which is shown. */
  lemma PendingDoes(v: View, message: string)
    ensures var w := Step(v, PendingStart(message));
      && w == v.(pendingStart := w.pendingStart, visible := w.pendingStart)
      && Adds(v.pendingStart, w.pendingStart, Entry(User, message))
  {
    PushAdds(v.pendingStart, Entry(User, message));
  }

  /** A record of a session, by its kind; one without a visible character is left out. */
  lemma RecordsRead(e: SessionEntry)
    ensures var body := Trim(e.summary);
      EntryFromSession(e)
      == if body == "" then None
         else if e.event == "turn_started" then
           Some(Entry(User, if "Started turn for: " <= body then body[18..] else body))
         else if e.event == "turn_completed" then Some(Entry(Assistant, body))
         else if e.event == "tool_completed" then Some(Entry(Tool, body))
         else if e.event == "approval_wait" then Some(Entry(Approval, body))
         else if e.event == "turn_cancelled" then Some(Entry(System, "Interrupted: " + body))
         else if e.event == "turn_failed" then Some(Entry(System, "Turn failed: " + body))
         else Some(Entry(System, body))
  {
  }

  ghost predicate Trimmed(s: string, i: nat, j: nat) {
    && i <= j <= |s|
    && (forall k | 0 <= k < i :: IsSpace(s[k])) && (forall k | j <= k < |s| :: IsSpace(s[k]))
    && (i < j ==> !IsSpace(s[i]) && !IsSpace(s[j - 1]))
  }

  lemma {:induction false} TrimStartDoes(s: string) returns (i: nat)
    ensures i <= |s| && TrimStart(s) == s[i..]
    ensures (forall k | 0 <= k < i :: IsSpace(s[k])) && (i < |s| ==> !IsSpace(s[i]))
  {
    if s != "" && IsSpace(s[0]) {
      var rest := s[1..];
      i := TrimStartDoes(rest);
      assert forall k | 0 < k < i + 1 :: s[k] == rest[k - 1];
      assert rest[i..] == s[i + 1..];
      i := i + 1;
    } else {
      i := 0;
      assert s[0..] == s;
    }
  }

  lemma {:induction false} TrimEndDoes(s: string) returns (n: nat)
    ensures n <= |s| && TrimEnd(s) == s[..n]
    ensures (forall k | n <= k < |s| :: IsSpace(s[k])) && (n > 0 ==> !IsSpace(s[n - 1]))
  {
    if s != "" && IsSpace(s[|s| - 1]) {
      var front := s[..|s| - 1];
      n := TrimEndDoes(front);
      assert front[..n] == s[..n];
      assert forall k | n <= k < |front| :: s[k] == front[k];
    } else {
      n := |s|;
      assert s[..|s|] == s;
    }
  }

  /** Trimming takes the white space off both ends and nothing else. */
  lemma TrimDoes(s: string) returns (i: nat, j: nat)
    ensures Trimmed(s, i, j) && Trim(s) == s[i..j]
  {
    i := TrimStartDoes(s);
    var t := s[i..];
    var n := TrimEndDoes(t);
    j := i + n;
    assert t[..n] == s[i..j];
    forall k | j <= k < |s| ensures IsSpace(s[k]) {
      assert t[k - i] == s[k];
    }
    assert n > 0 ==> s[j - 1] == t[n - 1];
  }
}
