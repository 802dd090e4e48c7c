/**
 Runs of the CLI view model (crates/liz-cli/src/view_model.rs): responses, events and user
 input in any order, and what the derived fields owe to their sources after each of them.
 */
module ViewModelRuns {
  import opened Common
  import opened StableSort
  import opened Threads
  import opened ViewModels

  datatype Action =
    // responses
    | ThreadStart(thread: Thread)
    | ThreadResume(thread: Thread)
    | ThreadFork(thread: Thread)
    | ThreadList(threads: seq<Thread>)
    | SessionOpened(id: ThreadId, recent: seq<SessionEntry>)
    | ErrorResponse(message: string)
    // events
    | ThreadEvent(thread: Thread)
    | TurnStarted(id: ThreadId, goal: Option<string>)
    | TurnFailed(id: ThreadId, message: string)
    | TurnCancelled(id: ThreadId)
    | AssistantChunk(id: ThreadId, chunk: string)
    | AssistantCompleted(id: ThreadId, message: string)
    | ToolFinished(id: ThreadId, tool: string, summary: string)
    | ApprovalRequested(id: ThreadId, approval: string, reason: string)
    | ApprovalResolved(id: ThreadId, approval: string, decision: string)
    | CompilationApplied(id: ThreadId, summary: string)
    // the user
    | UserMessage(message: string)
    | SystemMessage(message: string)
    | PendingStart(message: string)
    | PickPrevious
    | PickNext
    | Activate

  datatype Pushed = Pushed(id: ThreadId, entry: Entry)

  /** The entry an event appends to its thread's transcript. */
  function EventEntry(a: Action): Option<Pushed> {
    match a
    case TurnStarted(id, goal) =>
      if goal.Some? && !IsBlank(goal.value) then Some(Pushed(id, Entry(User, goal.value))) else None
    case TurnFailed(id, message) => Some(Pushed(id, Entry(System, "Turn failed: " + message)))
    case TurnCancelled(id) => Some(Pushed(id, Entry(System, "Turn interrupted")))
    case AssistantCompleted(id, message) => Some(Pushed(id, Entry(Assistant, message)))
    case ToolFinished(id, tool, summary) => Some(Pushed(id, Entry(Tool, tool + ": " + summary)))
    case ApprovalRequested(id, approval, reason) =>
      Some(Pushed(id, Entry(Approval, approval + " needs approval: " + reason)))
    case ApprovalResolved(id, approval, decision) =>
      Some(Pushed(id, Entry(System, "Approval " + approval + " resolved as " + decision)))
    case CompilationApplied(id, summary) => Some(Pushed(id, Entry(System, "Memory updated: " + summary)))
    case _ => None
  }

  /** The entry appended to the selected thread, or to the visible transcript if there is none. */
  function SelectedEntry(a: Action): Option<Entry> {
    match a
    case ErrorResponse(message) => Some(Entry(System, message))
    case UserMessage(message) => Some(Entry(User, message))
    case SystemMessage(message) => Some(Entry(System, message))
    case _ => None
  }

  function Step(v: View, a: Action): View {
    var event, selected := EventEntry(a), SelectedEntry(a);
    if event.Some? then
      if a.AssistantCompleted? then AfterCompletion(v, a.id, a.message)
      else AfterPush(v, event.value.id, event.value.entry)
    else if selected.Some? then AfterPushSelected(v, selected.value)
    else Changed(v, a)
  }

  /** The actions that append no entry of their own. */
  function Changed(v: View, a: Action): View {
    match a
    case ThreadStart(thread) => AfterStart(v, thread)
    case ThreadResume(thread) => AfterOpen(v, thread)
    case ThreadFork(thread) => AfterOpen(v, thread)
    case ThreadList(threads) => AfterList(v, threads)
    case SessionOpened(id, recent) => AfterHistory(v, id, recent)
    case ThreadEvent(thread) => AfterUpsert(v, thread)
    case AssistantChunk(_, chunk) => AfterChunk(v, chunk)
    case PendingStart(message) => AfterPending(v, message)
    case PickPrevious => AfterPickPrevious(v)
    case PickNext => AfterPickNext(v)
    case Activate => AfterActivate(v)
    case _ => v
  }

  function RunFrom(v: View, actions: seq<Action>): View {
    if actions == [] then v else Step(RunFrom(v, actions[..|actions| - 1]), actions[|actions| - 1])
  }

  // ---------------------------------------------------------------------------------------
  // The visible transcript
  // ---------------------------------------------------------------------------------------

  ghost predicate VisibleIsStored(v: View) {
    v.active.Some? ==> v.visible == Stored(v.transcripts, v.active.value)
  }

  lemma ChangeKeepsVisible(v: View, a: Action)
    requires VisibleIsStored(v) && !a.PendingStart?
    ensures VisibleIsStored(Changed(v, a))
  {
  }

  /** No thread is active, or the draft with the message added is what the active thread has stored. */
  predicate DraftMayShow(v: View, message: string) {
    v.active.None? || PushDeduped(v.pendingStart, Entry(User, message)) == Stored(v.transcripts, v.active.value)
  }

  /** A pending first message leaves the stored transcript on screen exactly if that held before it. */
  lemma PendingStartKeepsVisibleIff(v: View, message: string)
    ensures VisibleIsStored(Step(v, PendingStart(message))) <==> DraftMayShow(v, message)
  {
  }

  lemma StepKeepsVisible(v: View, a: Action)
    requires VisibleIsStored(v) && (a.PendingStart? ==> DraftMayShow(v, a.message))
    ensures VisibleIsStored(Step(v, a))
  {
    if a.PendingStart? {
      PendingStartKeepsVisibleIff(v, a.message);
    } else {
      ChangeKeepsVisible(v, a);
    }
  }

  /** Every pending first message of the run comes when its draft may show. */
  predicate DraftsMayShow(actions: seq<Action>) {
    actions == []
    || (var front, a := actions[..|actions| - 1], actions[|actions| - 1];
        DraftsMayShow(front) && (a.PendingStart? ==> DraftMayShow(RunFrom(EMPTY, front), a.message)))
  }

  /**
   Whenever a thread is active the visible transcript is that thread's stored one, and empty if
   none is stored: over every run whose pending first messages come when no thread is active, as
   at the start of a conversation, or when the draft shows the same.
   */
  lemma {:induction false} VisibleTranscriptIsStored(actions: seq<Action>)
    requires DraftsMayShow(actions)
    ensures VisibleIsStored(RunFrom(EMPTY, actions))
  {
    if actions != [] {
      VisibleTranscriptIsStored(actions[..|actions| - 1]);
      StepKeepsVisible(RunFrom(EMPTY, actions[..|actions| - 1]), actions[|actions| - 1]);
    }
  }

  lemma RunFromSnoc(v: View, actions: seq<Action>, a: Action)
    ensures RunFrom(v, actions + [a]) == Step(RunFrom(v, actions), a)
  {
    assert (actions + [a])[..|actions|] == actions;
  }

  /** A first message for a new thread hides the transcript of the thread that is still active. */
  lemma PendingStartCanHideStored(t: Thread)
    ensures var v := RunFrom(EMPTY, [ThreadStart(t), PendingStart("hi")]);
      v.active == Some(t.id) && Stored(v.transcripts, t.id) == [] && v.visible == [Entry(User, "hi")]
  {
    RunFromSnoc(EMPTY, [], ThreadStart(t));
    RunFromSnoc(EMPTY, [ThreadStart(t)], PendingStart("hi"));
    assert [] + [ThreadStart(t)] == [ThreadStart(t)];
    assert [ThreadStart(t)] + [PendingStart("hi")] == [ThreadStart(t), PendingStart("hi")];
    assert "hi"[0] in "hi";
  }

  ghost predicate VisibleIsStoredOrDraft(v: View) {
    VisibleIsStored(v) || v.visible == v.pendingStart
  }

  lemma ChangeKeepsStoredOrDraft(v: View, a: Action)
    requires VisibleIsStoredOrDraft(v)
    ensures VisibleIsStoredOrDraft(Changed(v, a))
  {
  }

  /** Over every run at all, the visible transcript is the stored one or the pending draft. */
  lemma {:induction false} VisibleTranscriptIsStoredOrDraft(actions: seq<Action>)
    ensures VisibleIsStoredOrDraft(RunFrom(EMPTY, actions))
  {
    if actions != [] {
      VisibleTranscriptIsStoredOrDraft(actions[..|actions| - 1]);
      ChangeKeepsStoredOrDraft(RunFrom(EMPTY, actions[..|actions| - 1]), actions[|actions| - 1]);
    }
  }

  // ---------------------------------------------------------------------------------------
  // The thread list, the status map and the picker
  // ---------------------------------------------------------------------------------------

  lemma EntriesLeaveTheList(v: View, a: Action)
    requires EventEntry(a).Some? || SelectedEntry(a).Some?
    ensures var w := Step(v, a);
      w.threads == v.threads && w.statuses == v.statuses && w.selected == v.selected && w.active == v.active
  {
  }

  lemma SmallChangesLeaveTheList(v: View, a: Action)
    requires a.SessionOpened? || a.AssistantChunk? || a.PendingStart?
    ensures var w := Changed(v, a);
      w.threads == v.threads && w.statuses == v.statuses && w.selected == v.selected && w.active == v.active
  {
  }

  lemma OpeningActionsKeepListInv(v: View, a: Action)
    requires ListInv(v) && (a.ThreadStart? || a.ThreadResume? || a.ThreadFork?)
    ensures ListInv(Changed(v, a))
  {
    var after := if a.ThreadStart? then AfterStart(v, a.thread) else AfterOpen(v, a.thread);
    assert Changed(v, a) == after;
    assert ListInv(after) by {
      OpeningKeepsListInv(v, a.thread);
    }
  }

  lemma ThreadEventKeepsListInv(v: View, a: Action)
    requires ListInv(v) && a.ThreadEvent?
    ensures ListInv(Changed(v, a))
  {
    assert Changed(v, a) == AfterUpsert(v, a.thread);
    UpsertKeepsListInv(v, a.thread);
  }

  lemma PickingActionsKeepListInv(v: View, a: Action)
    requires ListInv(v) && (a.PickPrevious? || a.PickNext? || a.Activate?)
    ensures ListInv(Changed(v, a))
  {
    PickingKeepsListInv(v);
  }

  lemma ListingActionKeepsListInv(v: View, a: Action)
    requires a.ThreadList? && UniqueBy(a.threads, IdOf)
    ensures ListInv(Changed(v, a))
  {
    ListingKeepsListInv(v, a.threads);
  }

  lemma SmallActionsKeepListInv(v: View, a: Action)
    requires ListInv(v) && (a.SessionOpened? || a.AssistantChunk? || a.PendingStart?)
    ensures ListInv(Changed(v, a))
  {
    SmallChangesLeaveTheList(v, a);
  }

  lemma ChangeKeepsListInv(v: View, a: Action)
    requires ListInv(v) && (a.ThreadList? ==> UniqueBy(a.threads, IdOf))
    ensures ListInv(Changed(v, a))
  {
    if a.ThreadEvent? {
      ThreadEventKeepsListInv(v, a);
    } else if a.ThreadStart? || a.ThreadResume? || a.ThreadFork? {
      OpeningActionsKeepListInv(v, a);
    } else if a.PickPrevious? || a.PickNext? || a.Activate? {
      PickingActionsKeepListInv(v, a);
    } else if a.ThreadList? {
      ListingActionKeepsListInv(v, a);
    } else if a.SessionOpened? || a.AssistantChunk? || a.PendingStart? {
      SmallActionsKeepListInv(v, a);
    }
  }

  lemma StepKeepsListInv(v: View, a: Action)
    requires ListInv(v) && (a.ThreadList? ==> UniqueBy(a.threads, IdOf))
    ensures ListInv(Step(v, a))
  {
    if EventEntry(a).Some? || SelectedEntry(a).Some? {
      EntriesLeaveTheList(v, a);
    } else {
      ChangeKeepsListInv(v, a);
    }
  }

  /**
   With unique ids in every server list: over every run the ids in the list are unique, the
   status map is exactly the list's, the picker is in range, and an active thread is listed.
   */
  lemma {:induction false} ListFieldsAgree(actions: seq<Action>)
    requires forall a <- actions | a.ThreadList? :: UniqueBy(a.threads, IdOf)
    ensures ListInv(RunFrom(EMPTY, actions))
  {
    if actions != [] {
      assert actions[|actions| - 1] in actions;
      ListFieldsAgree(actions[..|actions| - 1]);
      StepKeepsListInv(RunFrom(EMPTY, actions[..|actions| - 1]), actions[|actions| - 1]);
    }
  }

  // ---------------------------------------------------------------------------------------
  // No message is lost
  // ---------------------------------------------------------------------------------------

  lemma {:induction false} TrimEndEndsInNonSpace(s: string)
    ensures TrimEnd(s) != "" ==> !IsSpace(TrimEnd(s)[|TrimEnd(s)| - 1])
  {
    if s != "" && IsSpace(s[|s| - 1]) {
      TrimEndEndsInNonSpace(s[..|s| - 1]);
    }
  }

  /** Whatever comes before it, a text that ends in a visible character is not blank. */
  lemma VisibleEndIsNotBlank(prefix: string, body: string)
    requires body != "" && !IsSpace(body[|body| - 1])
    ensures !IsBlank(prefix + body)
  {
    assert body[|body| - 1] == (prefix + body)[|prefix + body| - 1];
  }

  /** A trimmed text keeps its visible end when the prefix "Started turn for: " is taken off. */
  lemma StrippedIsNotBlank(body: string)
    requires body != "" && !IsSpace(body[|body| - 1])
    ensures !IsBlank(StripPrefix(body, "Started turn for: "))
  {
    var prefix := "Started turn for: ";
    assert prefix[|prefix| - 1] == ' ';
    var shown := StripPrefix(body, prefix);
    if prefix <= body {
      assert body[|prefix| - 1] == ' ';
      assert shown[|shown| - 1] == body[|body| - 1];
    }
    assert "" + shown == shown;
    VisibleEndIsNotBlank("", shown);
  }

  lemma SessionEntriesAreNotBlank(e: SessionEntry)
    ensures EntryFromSession(e).Some? ==> !IsBlank(EntryFromSession(e).value.body)
  {
    var body := Trim(e.summary);
    TrimEndEndsInNonSpace(TrimStart(e.summary));
    if body != "" {
      if e.event == "turn_started" {
        StrippedIsNotBlank(body);
      } else {
        assert "" + body == body;
        VisibleEndIsNotBlank("", body);
        VisibleEndIsNotBlank("Interrupted: ", body);
        VisibleEndIsNotBlank("Turn failed: ", body);
      }
    }
  }

  ghost predicate NoneBlank(entries: seq<Entry>) {
    forall e <- entries :: !IsBlank(e.body)
  }

  lemma {:induction false} HistoryIsNotBlank(recent: seq<SessionEntry>)
    ensures NoneBlank(History(recent))
  {
    if recent != [] {
      HistoryIsNotBlank(recent[..|recent| - 1]);
      SessionEntriesAreNotBlank(recent[|recent| - 1]);
    }
  }

  /** Pushing a list keeps what was there as a prefix and leaves every pushed entry present. */
  lemma {:induction false} PushAllKeepsAll(entries: seq<Entry>, more: seq<Entry>)
    requires NoneBlank(more)
    ensures entries <= PushAll(entries, more)
    ensures forall e <- more :: e in PushAll(entries, more)
    ensures NoneBlank(entries) ==> NoneBlank(PushAll(entries, more))
  {
    if more != [] {
      var front, last := more[..|more| - 1], more[|more| - 1];
      assert more == front + [last];
      PushAllKeepsAll(entries, front);
      var sofar := PushAll(entries, front);
      assert last in LastThree(sofar) ==> last in sofar;
    }
  }

  ghost predicate TranscriptsInv(v: View) {
    (forall id <- v.transcripts :: NoneBlank(v.transcripts[id])) && NoneBlank(v.pendingStart)
  }

  lemma PushKeepsTranscriptsInv(v: View, id: ThreadId, entry: Entry)
    requires TranscriptsInv(v)
    ensures TranscriptsInv(AfterPush(v, id, entry))
  {
  }

  lemma OtherChangesKeepTranscripts(v: View, a: Action)
    requires !a.ThreadStart? && !a.SessionOpened?
    ensures Changed(v, a).transcripts == v.transcripts
    ensures !a.PendingStart? ==> Changed(v, a).pendingStart == v.pendingStart
  {
  }

  lemma StartKeepsTranscriptsInv(v: View, thread: Thread)
    requires TranscriptsInv(v)
    ensures TranscriptsInv(AfterStart(v, thread))
  {
    PushAllKeepsAll(Stored(v.transcripts, thread.id), v.pendingStart);
  }

  lemma HistoryKeepsTranscriptsInv(v: View, id: ThreadId, recent: seq<SessionEntry>)
    requires TranscriptsInv(v)
    ensures TranscriptsInv(AfterHistory(v, id, recent))
  {
    HistoryIsNotBlank(recent);
    PushAllKeepsAll(History(recent), Stored(v.transcripts, id));
  }

  lemma ChangeKeepsTranscriptsInv(v: View, a: Action)
    requires TranscriptsInv(v)
    ensures TranscriptsInv(Changed(v, a))
  {
    if a.ThreadStart? {
      StartKeepsTranscriptsInv(v, a.thread);
    } else if a.SessionOpened? {
      HistoryKeepsTranscriptsInv(v, a.id, a.recent);
    } else {
      OtherChangesKeepTranscripts(v, a);
    }
  }

  lemma StepKeepsTranscriptsInv(v: View, a: Action)
    requires TranscriptsInv(v)
    ensures TranscriptsInv(Step(v, a))
  {
    var event, selected := EventEntry(a), SelectedEntry(a);
    if event.Some? {
      PushKeepsTranscriptsInv(
        if a.AssistantCompleted? then v.(streaming := None) else v, event.value.id, event.value.entry);
    } else if selected.Some? {
      if v.active.Some? {
        PushKeepsTranscriptsInv(v, v.active.value, selected.value);
      }
    } else {
      ChangeKeepsTranscriptsInv(v, a);
    }
  }

  lemma {:induction false} RunKeepsTranscriptsInv(actions: seq<Action>)
    ensures TranscriptsInv(RunFrom(EMPTY, actions))
  {
    if actions != [] {
      RunKeepsTranscriptsInv(actions[..|actions| - 1]);
      StepKeepsTranscriptsInv(RunFrom(EMPTY, actions[..|actions| - 1]), actions[|actions| - 1]);
    }
  }

  lemma PushGrows(v: View, at: ThreadId, entry: Entry, id: ThreadId)
    ensures Stored(v.transcripts, id) <= Stored(AfterPush(v, at, entry).transcripts, id)
  {
  }

  lemma StartGrows(v: View, thread: Thread, id: ThreadId)
    requires TranscriptsInv(v)
    ensures Stored(v.transcripts, id) <= Stored(AfterStart(v, thread).transcripts, id)
  {
    PushAllKeepsAll(Stored(v.transcripts, thread.id), v.pendingStart);
  }

  /** Every action but a loaded session leaves each stored transcript as a prefix of itself. */
  lemma TranscriptsOnlyGrow(v: View, a: Action, id: ThreadId)
    requires TranscriptsInv(v) && !a.SessionOpened?
    ensures Stored(v.transcripts, id) <= Stored(Step(v, a).transcripts, id)
  {
    var event, selected := EventEntry(a), SelectedEntry(a);
    if event.Some? {
      PushGrows(if a.AssistantCompleted? then v.(streaming := None) else v, event.value.id, event.value.entry, id);
    } else if selected.Some? {
      if v.active.Some? {
        PushGrows(v, v.active.value, selected.value, id);
      }
    } else if a.ThreadStart? {
      StartGrows(v, a.thread, id);
    } else {
      OtherChangesKeepTranscripts(v, a);
    }
  }

  lemma HistoryLosesNothing(v: View, loaded: ThreadId, recent: seq<SessionEntry>, id: ThreadId, e: Entry)
    requires TranscriptsInv(v) && e in Stored(v.transcripts, id)
    ensures e in Stored(AfterHistory(v, loaded, recent).transcripts, id)
  {
    if loaded == id {
      PushAllKeepsAll(History(recent), Stored(v.transcripts, id));
    }
  }

  lemma PrefixKeepsMember(s: seq<Entry>, t: seq<Entry>, e: Entry)
    requires s <= t && e in s
    ensures e in t
  {
    var i :| 0 <= i < |s| && s[i] == e;
    assert t[i] == e;
  }

  lemma StepLosesNothing(v: View, a: Action, id: ThreadId, e: Entry)
    requires TranscriptsInv(v) && e in Stored(v.transcripts, id)
    ensures e in Stored(Step(v, a).transcripts, id)
  {
    if a.SessionOpened? {
      HistoryLosesNothing(v, a.id, a.recent, id, e);
    } else {
      TranscriptsOnlyGrow(v, a, id);
      PrefixKeepsMember(Stored(v.transcripts, id), Stored(Step(v, a).transcripts, id), e);
    }
  }

  lemma {:induction false} RunFromLosesNothing(v: View, more: seq<Action>, id: ThreadId, e: Entry)
    requires TranscriptsInv(v) && e in Stored(v.transcripts, id)
    ensures TranscriptsInv(RunFrom(v, more)) && e in Stored(RunFrom(v, more).transcripts, id)
  {
    if more != [] {
      RunFromLosesNothing(v, more[..|more| - 1], id, e);
      var w := RunFrom(v, more[..|more| - 1]);
      StepKeepsTranscriptsInv(w, more[|more| - 1]);
      StepLosesNothing(w, more[|more| - 1], id, e);
    }
  }

  /** An entry once stored in a thread's transcript is there after any further run. */
  lemma StoredEntriesStay(actions: seq<Action>, more: seq<Action>, id: ThreadId, e: Entry)
    requires e in Stored(RunFrom(EMPTY, actions).transcripts, id)
    ensures e in Stored(RunFrom(RunFrom(EMPTY, actions), more).transcripts, id)
  {
    RunKeepsTranscriptsInv(actions);
    RunFromLosesNothing(RunFrom(EMPTY, actions), more, id, e);
  }

  /** After the thread started, all its pending first messages are in it and on screen. */
  lemma ThreadStartDeliversPending(actions: seq<Action>, t: Thread)
    ensures var v := RunFrom(EMPTY, actions);
      var w := Step(v, ThreadStart(t));
      && (forall e <- v.pendingStart :: e in Stored(w.transcripts, t.id))
      && w.pendingStart == [] && w.active == Some(t.id)
      && w.visible == Stored(w.transcripts, t.id)
  {
    RunKeepsTranscriptsInv(actions);
    var v := RunFrom(EMPTY, actions);
    PushAllKeepsAll(Stored(v.transcripts, t.id), v.pendingStart);
  }

  /** A message with a visible character is stored and shown in the active thread. */
  lemma UserMessageIsShown(actions: seq<Action>, message: string)
    requires RunFrom(EMPTY, actions).active.Some? && !IsBlank(message)
    ensures var w := Step(RunFrom(EMPTY, actions), UserMessage(message));
      && w.active == RunFrom(EMPTY, actions).active
      && Entry(User, message) in Stored(w.transcripts, w.active.value)
      && Entry(User, message) in w.visible
  {
    var v := RunFrom(EMPTY, actions);
    var stored := Stored(v.transcripts, v.active.value);
    assert Entry(User, message) in LastThree(stored) ==> Entry(User, message) in stored;
  }

  // ---------------------------------------------------------------------------------------
  // Where the picker and the active thread go
  // ---------------------------------------------------------------------------------------

  lemma PickingOnlyMoves(v: View)
    ensures Step(v, PickNext) == AfterPickNext(v) == v.(selected := AfterPickNext(v).selected)
    ensures Step(v, PickPrevious) == AfterPickPrevious(v) == v.(selected := AfterPickPrevious(v).selected)
  {
  }

  lemma PickerSteps(v: View)
    requires v.selected < |v.threads|
    ensures AfterPickNext(v).selected == if v.selected == |v.threads| - 1 then 0 else v.selected + 1
    ensures AfterPickPrevious(v).selected == if v.selected == 0 then |v.threads| - 1 else v.selected - 1
  {
  }

  lemma PickerIsInRange(actions: seq<Action>)
    requires forall a <- actions | a.ThreadList? :: UniqueBy(a.threads, IdOf)
    ensures var v := RunFrom(EMPTY, actions); v.threads != [] ==> v.selected < |v.threads|
  {
    ListFieldsAgree(actions);
  }

  /** The picker moves one thread down or up, around the ends, and nothing else changes. */
  lemma PickerMovesOne(actions: seq<Action>)
    requires forall a <- actions | a.ThreadList? :: UniqueBy(a.threads, IdOf)
    ensures var v := RunFrom(EMPTY, actions);
      var n := |v.threads|;
      && var next, previous := Step(v, PickNext), Step(v, PickPrevious);
      && next == v.(selected := next.selected) && previous == v.(selected := previous.selected)
      && (n > 0 ==>
            && v.selected < n
            && next.selected == (if v.selected == n - 1 then 0 else v.selected + 1)
            && previous.selected == (if v.selected == 0 then n - 1 else v.selected - 1))
  {
    var v := RunFrom(EMPTY, actions);
    PickerIsInRange(actions);
    PickingOnlyMoves(v);
    if v.threads != [] {
      PickerSteps(v);
    }
  }

  /** Activating makes the thread under the picker the active one and shows its transcript. */
  lemma ActivateTakesThePicked(actions: seq<Action>)
    requires forall a <- actions | a.ThreadList? :: UniqueBy(a.threads, IdOf)
    ensures var v := RunFrom(EMPTY, actions);
      var w := Step(v, Activate);
      && w == v.(active := w.active, visible := w.visible)
      && (v.threads == [] ==> w == v)
      && (v.threads != [] ==>
            && v.selected < |v.threads| && w.active == Some(v.threads[v.selected].id)
            && w.visible == Stored(v.transcripts, v.threads[v.selected].id))
  {
    PickerIsInRange(actions);
  }

  /** A started, resumed or forked thread is listed, becomes the active one, and its transcript is shown. */
  lemma OpeningActivates(v: View, t: Thread, a: Action)
    requires a == ThreadStart(t) || a == ThreadResume(t) || a == ThreadFork(t)
    ensures var w := Step(v, a);
      && w.active == Some(t.id) && w.visible == Stored(w.transcripts, t.id)
      && t.id in w.statuses && w.statuses[t.id] == t.status
      && (!a.ThreadStart? ==> w.transcripts == v.transcripts && w.pendingStart == v.pendingStart)
  {
  }

  /** A thread that an event brings becomes active only if none is. */
  lemma EventActivatesIf(v: View, t: Thread)
    ensures var w := Step(v, ThreadEvent(t));
      && w.active == (if v.active.Some? then v.active else Some(t.id))
      && w.visible == Stored(w.transcripts, w.active.value)
      && w.transcripts == v.transcripts
  {
  }

  /** A thread list keeps the active thread and the picked one if it still holds them. */
  lemma ListKeepsWhatItHolds(v: View, threads: seq<Thread>)
    ensures var w := Step(v, ThreadList(threads));
      && w.threads == threads && w.transcripts == v.transcripts
      && w.active == (if v.active.Some? && exists t <- threads :: t.id == v.active.value then v.active else None)
      && (v.selected < |v.threads| && (exists t <- threads :: t.id == v.threads[v.selected].id) ==>
            w.selected < |threads| && threads[w.selected].id == v.threads[v.selected].id)
      && (v.selected < |v.threads| && !(exists t <- threads :: t.id == v.threads[v.selected].id) ==> w.selected == 0)
      && (v.selected >= |v.threads| ==> w.selected == 0)
  {
    if v.selected < |v.threads| {
      PositionFinds(threads, v.threads[v.selected].id);
    }
  }
}
