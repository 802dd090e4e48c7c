/**
 What each action and server event does to any state of the web client's reducer, entry by entry and
 field by field (apps/liz-web/src/state/workbench.ts).
 */
module WorkbenchEvents {
  import opened Common
  import opened StableSort
  import opened Threads
  import opened Workbenches
  import opened WorkbenchRecords
  import opened WorkbenchLists

  // ---------------------------------------------------------------------------------------
  // Transcripts, entry by entry
  // ---------------------------------------------------------------------------------------

  /** What a thread shows, nothing at first. */
  function Shown(s: Workbench, t: ThreadId): seq<Entry> {
    At(s.transcripts, t).Or([])
  }

  /** An assistant entry for the turn. */
  predicate Answers(e: Entry, turn: Option<TurnId>) {
    e.Assistant? && e.turnId == turn
  }

  predicate Answered(entries: seq<Entry>, turn: Option<TurnId>) {
    exists e <- entries :: Answers(e, turn)
  }

  /** The entries are kept in place, each as `change` makes it. */
  ghost predicate ChangedInPlace(before: seq<Entry>, after: seq<Entry>, change: Entry -> Entry) {
    |before| <= |after| && forall i | 0 <= i < |before| :: after[i] == change(before[i])
  }

  lemma {:induction false} MapEntriesAt(entries: seq<Entry>, f: Entry -> Entry)
    ensures |MapEntries(entries, f)| == |entries|
    ensures forall i | 0 <= i < |entries| :: MapEntries(entries, f)[i] == f(entries[i])
  {
    if entries != [] {
      MapEntriesAt(entries[..|entries| - 1], f);
    }
  }

  lemma ShownIsTranscript(s: Workbench, t: ThreadId)
    ensures TranscriptOf(s, t) == Shown(s, t)
  {
  }

  lemma EnsuredEntry(entries: seq<Entry>, t: ThreadId, turn: Option<TurnId>, at: Time)
    ensures EnsureReply(entries, t, turn, at)
         == if Answered(entries, turn) then entries
            else entries + [Assistant("assistant:" + (if turn.Some? then turn.value else at.text), t, turn, "", at,
                                      Streaming)]
  {
    assert (exists e <- entries :: IsReply(e, turn)) <==> Answered(entries, turn) by {
      assert forall e :: IsReply(e, turn) <==> Answers(e, turn);
    }
  }

  /** A pending message goes out with the turn; anything else stays. */
  function SentWith(turn: TurnId): Entry -> Entry {
    (e: Entry) => if e.User? && e.sent == Pending then e.(sent := Sent, turnId := Some(turn)) else e
  }

  lemma SentAnswers(before: seq<Entry>, after: seq<Entry>, turn: TurnId, u: Option<TurnId>)
    requires |after| == |before| && ChangedInPlace(before, after, SentWith(turn))
    ensures Answered(after, u) <==> Answered(before, u)
  {
    if e :| e in before && Answers(e, u) {
      var i :| 0 <= i < |before| && before[i] == e;
      assert after[i] == e && after[i] in after;
    }
    if e :| e in after && Answers(e, u) {
      var i :| 0 <= i < |after| && after[i] == e;
      assert before[i] == e && before[i] in before;
    }
  }

  lemma StartDoes(s: Workbench, turn: Turn)
    ensures var t := turn.threadId;
      var w := StartTurn(s, turn);
      && t in w.transcripts
      && w == s.(transcripts := s.transcripts[t := w.transcripts[t]],
                 runtimes := s.runtimes[t := Runtime(Some(turn.id), None)])
      && ChangedInPlace(Shown(s, t), w.transcripts[t], SentWith(turn.id))
      && w.transcripts[t][|Shown(s, t)|..]
         == if Answered(Shown(s, t), Some(turn.id)) then []
            else [Assistant("assistant:" + turn.id, t, Some(turn.id), "", turn.startedAt, Streaming)]
  {
    var before := Shown(s, turn.threadId);
    var after := MapEntries(before, SendPending(turn.id));
    ShownIsTranscript(s, turn.threadId);
    MapEntriesAt(before, SendPending(turn.id));
    SentAnswers(before, after, turn.id, Some(turn.id));
    EnsuredEntry(after, turn.threadId, Some(turn.id), turn.startedAt);
  }

  /**
   A started turn: pending messages are sent with it, its reply is there, the turn is the active one
   and the last error is gone. The action and the server event do the same.
   */
  lemma TurnStartDoes(s: Workbench, turn: Turn, e: Event)
    requires e.payload == TurnEvent(turn, Started)
    ensures var t := turn.threadId;
      var w := Step(s, TurnStarted(turn));
      && Step(s, ServerEvent(e)) == w
      && t in w.transcripts
      && w == s.(transcripts := s.transcripts[t := w.transcripts[t]],
                 runtimes := s.runtimes[t := Runtime(Some(turn.id), None)])
      && ChangedInPlace(Shown(s, t), w.transcripts[t], SentWith(turn.id))
      && w.transcripts[t][|Shown(s, t)|..]
         == if Answered(Shown(s, t), Some(turn.id)) then []
            else [Assistant("assistant:" + turn.id, t, Some(turn.id), "", turn.startedAt, Streaming)]
  {
    StartDoes(s, turn);
  }

  /** A reply to the turn gets the status; anything else stays. */
  function EndedWith(turn: TurnId, status: ReplyStatus): Entry -> Entry {
    (e: Entry) => if Answers(e, Some(turn)) then e.(status := status) else e
  }

  /** The end of a turn: its replies get the status, no turn is active, and a failure leaves a note. */
  lemma TurnEndDoes(s: Workbench, turn: Turn, change: TurnPayload, e: Event)
    requires e.payload == TurnEvent(turn, change) && !change.Started?
    ensures var t := turn.threadId;
      var w := Step(s, ServerEvent(e));
      && t in w.transcripts
      && w == s.(transcripts := s.transcripts[t := w.transcripts[t]],
                 runtimes := s.runtimes[t := Runtime(None, None)])
      && ChangedInPlace(Shown(s, t), w.transcripts[t],
                        EndedWith(turn.id, if change.Finished? then change.status else Faulted))
      && w.transcripts[t][|Shown(s, t)|..]
         == if change.Finished? then []
            else [System("turn-failed:" + turn.id, t, Some(turn.id), change.message,
                         if turn.endedAt.Some? then turn.endedAt.value else change.now, Error)]
  {
    var status := if change.Finished? then change.status else Faulted;
    var before := Shown(s, turn.threadId);
    ShownIsTranscript(s, turn.threadId);
    MapEntriesAt(before, OnReply(Some(turn.id), SetStatus(status)));
  }

  /** A reply to the turn takes the text; anything else stays. */
  function Amended(turn: Option<TurnId>, p: ReplyPayload): Entry -> Entry {
    (e: Entry) =>
      if !Answers(e, turn) then e
      else
        match p
        case Chunk(chunk, isFinal) =>
          e.(content := e.content + chunk, status := if isFinal then Complete else e.status)
        case Message(message) =>
          e.(content := if message == "" then e.content else message, status := Complete)
  }

  lemma AmendedIs(turn: Option<TurnId>, p: ReplyPayload, e: Entry)
    ensures OnReply(turn, Amend(p))(e) == Amended(turn, p)(e)
  {
  }

  /** What a turn's first text starts from. */
  function Unwritten(t: ThreadId, turn: Option<TurnId>, at: Time): Entry {
    Assistant("assistant:" + (if turn.Some? then turn.value else at.text), t, turn, "", at, Streaming)
  }

  lemma RepliesAreAmended(before: seq<Entry>, t: ThreadId, turn: Option<TurnId>, at: Time, p: ReplyPayload)
    ensures var after := MapEntries(EnsureReply(before, t, turn, at), OnReply(turn, Amend(p)));
      && ChangedInPlace(before, after, Amended(turn, p))
      && after[|before|..] == if Answered(before, turn) then [] else [Amended(turn, p)(Unwritten(t, turn, at))]
  {
    EnsuredEntry(before, t, turn, at);
    MapEntriesAt(EnsureReply(before, t, turn, at), OnReply(turn, Amend(p)));
    forall x ensures OnReply(turn, Amend(p))(x) == Amended(turn, p)(x) {
      AmendedIs(turn, p, x);
    }
  }

  /** Text for a turn: all its replies take it, and a new one if it has none. */
  lemma ReplyDoes(s: Workbench, e: Event, p: ReplyPayload)
    requires e.payload == ReplyEvent(p)
    ensures var t := e.threadId;
      var w := Step(s, ServerEvent(e));
      && t in w.transcripts
      && w == s.(transcripts := s.transcripts[t := w.transcripts[t]])
      && ChangedInPlace(Shown(s, t), w.transcripts[t], Amended(e.turnId, p))
      && w.transcripts[t][|Shown(s, t)|..]
         == if Answered(Shown(s, t), e.turnId) then []
            else [Amended(e.turnId, p)(Unwritten(t, e.turnId, e.createdAt))]
  {
    ShownIsTranscript(s, e.threadId);
    RepliesAreAmended(Shown(s, e.threadId), e.threadId, e.turnId, e.createdAt, p);
  }

  /** A message is added as pending, an error as a note that leaves the active turn alone. */
  lemma MessagesDo(s: Workbench, t: ThreadId, content: string, at: Time)
    ensures Step(s, UserMessageAdded(t, content, at))
         == s.(transcripts := s.transcripts[t := Shown(s, t)
                + [User("user:" + at.text + ":" + Decimal(|Shown(s, t)|), t, None, content, at, Pending)]])
    ensures Step(s, ThreadError(t, content, at))
         == s.(runtimes := s.runtimes[t := Runtime(if t in s.runtimes then s.runtimes[t].activeTurnId else None,
                                                   Some(content))],
               transcripts := s.transcripts[t := Shown(s, t)
                 + [System("error:" + at.text, t, None, content, at, Error)]])
  {
    ShownIsTranscript(s, t);
  }

  /** A session entry, by the kind of its record. */
  lemma RecordsBecomeEntries(e: SessionEntry, t: ThreadId)
    ensures var entry := ProjectSession(e, t);
      && entry.id == "session:" + e.event + ":" + (if e.turnId.Some? then e.turnId.value else e.recordedAt.text)
                     + ":" + e.recordedAt.text
      && entry.threadId == t && entry.turnId == e.turnId && entry.content == e.summary
      && entry.createdAt == e.recordedAt
      && (entry.User? <==> e.event == "turn_started") && (entry.User? ==> entry.sent == Sent)
      && (entry.Assistant? <==> e.event == "turn_completed" || e.event == "turn_cancelled" || e.event == "turn_failed")
      && (entry.Assistant? ==>
            && (e.event == "turn_completed" ==> entry.status == Complete)
            && (e.event == "turn_cancelled" ==> entry.status == Cancelled)
            && (e.event == "turn_failed" ==> entry.status == Faulted))
      && (entry.System? ==> entry.tone == Info)
  {
  }

  // ---------------------------------------------------------------------------------------
  // Threads, approvals and memory
  // ---------------------------------------------------------------------------------------

  predicate IsThread(threads: seq<Thread>, t: ThreadId) {
    exists thread <- threads :: thread.id == t
  }

  /** A loaded list keeps the active thread if it holds it, else the first one becomes active. */
  lemma LoadDoes(s: Workbench, loaded: seq<Thread>)
    ensures var w := Step(s, ThreadsLoaded(loaded));
      && w == s.(threads := w.threads, active := w.active)
      && multiset(w.threads) == multiset(loaded)
      && (forall i, j | 0 <= i < j < |w.threads| :: w.threads[i].updatedAt >= w.threads[j].updatedAt)
      && (forall k :: WithKey(w.threads, Staleness, k) == WithKey(loaded, Staleness, k))
      && w.active == if s.active.Some? && s.active.value != "" && IsThread(loaded, s.active.value) then s.active
                     else if loaded == [] then None
                     else Some(loaded[0].id)
  {
    SortIsStableSort(loaded, Staleness);
    var w := Step(s, ThreadsLoaded(loaded));
    forall i, j | 0 <= i < j < |w.threads| ensures w.threads[i].updatedAt >= w.threads[j].updatedAt {
      assert Staleness(w.threads[i]) <= Staleness(w.threads[j]);
    }
  }

  /** An upserted thread replaces the one with its id and stands first among those updated at the same time. */
  lemma UpsertDoes(s: Workbench, thread: Thread)
    ensures var w := Step(s, ThreadUpsert(thread, false));
      && (forall u :: u in w.threads <==> u == thread || (u in s.threads && u.id != thread.id))
      && (forall i, j | 0 <= i < j < |w.threads| :: w.threads[i].updatedAt >= w.threads[j].updatedAt)
      && (forall k :: WithKey(w.threads, Staleness, k)
                      == WithKey([thread] + Workbenches.Without(s.threads, IdOf, thread.id), Staleness, k))
  {
    var others := Workbenches.Without(s.threads, IdOf, thread.id);
    var w := Step(s, ThreadUpsert(thread, false));
    SortIsStableSort([thread] + others, Staleness);
    forall u ensures u in w.threads <==> u == thread || (u in s.threads && u.id != thread.id) {
      WithoutElement(s.threads, IdOf, thread.id, u);
      assert u in w.threads <==> u in multiset(w.threads);
      assert u in [thread] + others <==> u in multiset([thread] + others);
    }
    forall i, j | 0 <= i < j < |w.threads| ensures w.threads[i].updatedAt >= w.threads[j].updatedAt {
      assert Staleness(w.threads[i]) <= Staleness(w.threads[j]);
    }
  }

  /** The fields that an action replaces outright, and nothing else. */
  lemma ReplacingActionsDo(s: Workbench, active: Option<ThreadId>, thread: Thread, t: ThreadId, resume: Resume,
      call: Option<CallId>)
    ensures Step(s, ActiveThreadSet(active)) == s.(active := active)
    ensures Step(s, ThreadUpsert(thread, true)) == Step(s, ThreadUpsert(thread, false)).(active := Some(thread.id))
    ensures Step(s, ThreadUpsert(thread, false)) == s.(threads := Step(s, ThreadUpsert(thread, false)).threads)
    ensures Step(s, ResumeSummarySet(t, resume)) == s.(resumes := s.resumes[t := resume])
    ensures Step(s, ToolSelected(call)) == s.(selectedCall := call)
  {
  }

  /** A thread event does what the action does, and leaves the active thread alone. */
  lemma ThreadEventDoes(s: Workbench, e: Event, thread: Thread)
    requires e.payload == ThreadChanged(thread)
    ensures Step(s, ServerEvent(e)) == Step(s, ThreadUpsert(thread, false))
    ensures Step(s, ServerEvent(e.(payload := Unknown))) == s
  {
  }

  /** The new value goes first, the others follow as they were. */
  ghost predicate PutFirst(before: seq<Approval>, after: seq<Approval>, a: Approval) {
    && after != [] && after[0] == a
    && (forall b :: b in after[1..] <==> b in before && b.id != a.id)
    && ((forall b <- before :: b.id != a.id) ==> after[1..] == before)
  }

  lemma {:induction false} NothingTaken<T>(s: seq<T>, id: T -> string, x: string)
    requires forall y <- s :: id(y) != x
    ensures Workbenches.Without(s, id, x) == s
  {
    if s != [] {
      var front, last := s[..|s| - 1], s[|s| - 1];
      assert s == front + [last] && last in s;
      NothingTaken(front, id, x);
    }
  }

  lemma ApprovalGoesFirst(s: Workbench, a: Approval)
    ensures var w := UpsertApproval(s, a);
      && a.threadId in w.approvals
      && w == s.(approvals := s.approvals[a.threadId := w.approvals[a.threadId]])
      && PutFirst(At(s.approvals, a.threadId).Or([]), w.approvals[a.threadId], a)
  {
    var before := At(s.approvals, a.threadId).Or([]);
    var w := UpsertApproval(s, a);
    assert w.approvals[a.threadId] == [a] + Workbenches.Without(before, ApprovalId, a.id);
    assert w.approvals[a.threadId][1..] == Workbenches.Without(before, ApprovalId, a.id);
    forall b ensures b in w.approvals[a.threadId][1..] <==> b in before && b.id != a.id {
      WithoutElement(before, ApprovalId, a.id, b);
    }
    if forall b <- before :: b.id != a.id {
      NothingTaken(before, ApprovalId, a.id);
    }
  }

  /** An approval is put first in its thread's list; a requested or resolved one is noted as well. */
  lemma ApprovalDoes(s: Workbench, a: Approval, resolved: bool, e: Event)
    requires e.payload == ApprovalEvent(a, resolved)
    ensures var t := a.threadId;
      var w := Step(s, ApprovalUpsert(a));
      && t in w.approvals && w == s.(approvals := s.approvals[t := w.approvals[t]])
      && PutFirst(At(s.approvals, t).Or([]), w.approvals[t], a)
      && Step(s, ServerEvent(e))
         == w.(transcripts := s.transcripts[t := Shown(s, t)
              + [System("approval:" + a.id + (if resolved then ":resolved" else ":requested"), t, Some(a.turnId),
                        if resolved then "Approval " + a.status + ": " + a.actionType + "."
                        else "Approval required: " + a.actionType + " (" + a.riskLevel + "). " + a.reason,
                        e.createdAt, Info)]])
  {
    ApprovalGoesFirst(s, a);
    ShownIsTranscript(s, a.threadId);
    assert "approval:" + a.id + ":" + "resolved" == "approval:" + a.id + ":resolved";
    assert "approval:" + a.id + ":" + "requested" == "approval:" + a.id + ":requested";
  }

  /** The memory of a thread, empty at first, takes what is loaded; a loaded wake-up clears the conversation. */
  lemma MemoryDoes(s: Workbench, t: ThreadId, wakeup: string, recent: Option<string>, compilation: string, e: Event)
    ensures var m := if t in s.memories then s.memories[t] else Memory(None, None, None);
      && Step(s, MemoryWakeupSet(t, wakeup, recent))
         == s.(memories := s.memories[t := Memory(Some(wakeup), recent, m.compilation)])
      && Step(s, MemoryCompilationSet(t, compilation))
         == s.(memories := s.memories[t := Memory(m.wakeup, m.recentConversation, Some(compilation))])
    ensures e.payload == MemoryEvent(WakeupLoaded(wakeup)) ==>
      Step(s, ServerEvent(e)) == Step(s, MemoryWakeupSet(e.threadId, wakeup, None))
    ensures e.payload == MemoryEvent(Compiled(compilation)) ==>
      Step(s, ServerEvent(e)) == Step(s, MemoryCompilationSet(e.threadId, compilation))
  {
  }

  // ---------------------------------------------------------------------------------------
  // Tool calls
  // ---------------------------------------------------------------------------------------

  function Calls(s: Workbench, t: ThreadId): seq<ToolCall> {
    At(s.calls, t).Or([])
  }

  lemma CallsSorted(calls: seq<ToolCall>, c: ToolCall)
    ensures c in Sort(calls, Created) <==> c in calls
    ensures forall i, j | 0 <= i < j < |Sort(calls, Created)| ::
      Sort(calls, Created)[i].createdAt.rank <= Sort(calls, Created)[j].createdAt.rank
  {
    var sorted := Sort(calls, Created);
    SortIsStableSort(calls, Created);
    assert c in sorted <==> c in multiset(sorted);
    assert c in calls <==> c in multiset(calls);
    forall i, j | 0 <= i < j < |sorted| ensures sorted[i].createdAt.rank <= sorted[j].createdAt.rank {
      assert Created(sorted[i]) <= Created(sorted[j]);
    }
  }

  /** A started call, and the calls with other ids. */
  ghost predicate HoldsStarted(before: seq<ToolCall>, after: seq<ToolCall>, call: ToolCall) {
    && (forall c :: c in after <==> c == call || (c in before && c.callId != call.callId))
    && (forall i, j | 0 <= i < j < |after| :: after[i].createdAt.rank <= after[j].createdAt.rank)
  }

  lemma StartedIsHeld(before: seq<ToolCall>, call: ToolCall)
    ensures HoldsStarted(before, Sort(Workbenches.Without(before, CallIdOf, call.callId) + [call], Created), call)
  {
    var all := Workbenches.Without(before, CallIdOf, call.callId) + [call];
    forall c ensures c in Sort(all, Created) <==> c == call || (c in before && c.callId != call.callId) {
      WithoutElement(before, CallIdOf, call.callId, c);
      CallsSorted(all, c);
    }
    CallsSorted(all, call);
  }

  /** A started call replaces one with its id, and is selected if no call was. */
  lemma CallStartDoes(s: Workbench, e: Event, id: CallId, tool: string, summary: string)
    requires e.payload == ToolEvent(ToolCallStarted(id, tool, summary))
    ensures var t := e.threadId;
      var w := Step(s, ServerEvent(e));
      && t in w.calls && w == s.(calls := s.calls[t := w.calls[t]], selectedCall := w.selectedCall)
      && w.selectedCall == (if s.selectedCall.Some? then s.selectedCall else Some(id))
      && HoldsStarted(Calls(s, t), w.calls[t],
           ToolCall(id, t, e.turnId, tool, summary, Forming, None, None, None, [], [], e.createdAt, e.createdAt))
  {
    StartedIsHeld(Calls(s, e.threadId), NewCall(e, id, tool, summary));
  }

  lemma SortKeepsTies(calls: seq<ToolCall>, k: int)
    ensures WithKey(Sort(calls, Created), Created, k) == WithKey(calls, Created, k)
  {
    SortIsStableSort(calls, Created);
  }

  /** It stands last among the calls created at the same time. */
  lemma StartedCallIsLast(s: Workbench, e: Event, id: CallId, tool: string, summary: string, k: int)
    requires e.payload == ToolEvent(ToolCallStarted(id, tool, summary))
    ensures var call := NewCall(e, id, tool, summary);
      var others := Workbenches.Without(Calls(s, e.threadId), CallIdOf, id);
      WithKey(Calls(Step(s, ServerEvent(e)), e.threadId), Created, k) == WithKey(others + [call], Created, k)
  {
    var all := Workbenches.Without(Calls(s, e.threadId), CallIdOf, id) + [NewCall(e, id, tool, summary)];
    assert Calls(Step(s, ServerEvent(e)), e.threadId) == Sort(all, Created);
    SortKeepsTies(all, k);
  }

  /** Every call with the id is changed in place, and nothing else; an empty id is nobody's. */
  ghost predicate ChangesCall(s: Workbench, w: Workbench, t: ThreadId, id: CallId, change: ToolCall -> ToolCall) {
    if id == "" then w == s
    else
      && t in w.calls && w == s.(calls := s.calls[t := w.calls[t]])
      && |w.calls[t]| == |Calls(s, t)|
      && forall i | 0 <= i < |Calls(s, t)| ::
           w.calls[t][i] == if Calls(s, t)[i].callId == id then change(Calls(s, t)[i]) else Calls(s, t)[i]
  }

  lemma UpdatedInPlace(s: Workbench, t: ThreadId, id: CallId, f: ToolCall -> ToolCall, change: ToolCall -> ToolCall)
    requires forall c :: f(c) == change(c)
    ensures ChangesCall(s, UpdateCall(s, t, Some(id), f), t, id, change)
  {
  }

  /** Progress on a call: its tool, summary and preview. */
  lemma CallUpdateDoes(s: Workbench, e: Event, id: CallId, tool: string, delta: string, preview: Option<string>)
    requires e.payload == ToolEvent(ToolCallUpdated(id, tool, delta, preview))
    ensures ChangesCall(s, Step(s, ServerEvent(e)), e.threadId, id,
      (c: ToolCall) => c.(toolName := tool, summary := delta, preview := preview, updatedAt := e.createdAt))
  {
    UpdatedInPlace(s, e.threadId, id, Revise(e.payload.tool, e.createdAt),
      (c: ToolCall) => c.(toolName := tool, summary := delta, preview := preview, updatedAt := e.createdAt));
  }

  /** A committed call: its tool, arguments and risk, and that it is committed. */
  lemma CallCommitDoes(s: Workbench, e: Event, id: CallId, tool: string, arguments: string, risk: Option<string>)
    requires e.payload == ToolEvent(ToolCallCommitted(id, tool, arguments, risk))
    ensures ChangesCall(s, Step(s, ServerEvent(e)), e.threadId, id,
      (c: ToolCall) => c.(toolName := tool, status := Committed, argumentsSummary := Some(arguments), riskHint := risk,
                          updatedAt := e.createdAt))
  {
    UpdatedInPlace(s, e.threadId, id, Revise(e.payload.tool, e.createdAt),
      (c: ToolCall) => c.(toolName := tool, status := Committed, argumentsSummary := Some(arguments), riskHint := risk,
                          updatedAt := e.createdAt));
  }

  /** A call of the turn that is forming or committed, and of the tool if one is named. */
  predicate Unfinished(c: ToolCall, turn: Option<TurnId>, tool: Option<string>) {
    c.turnId == turn && (c.status == Forming || c.status == Committed) && (tool.None? || tool == Some(c.toolName))
  }

  ghost predicate LastUnfinished(calls: seq<ToolCall>, turn: Option<TurnId>, tool: Option<string>, k: nat) {
    && k < |calls| && Unfinished(calls[k], turn, tool)
    && forall j | k < j < |calls| :: !Unfinished(calls[j], turn, tool)
  }

  lemma UnfinishedIsOpen(c: ToolCall, turn: Option<TurnId>, tool: Option<string>)
    ensures Unfinished(c, turn, tool) <==> IsOpen(c, turn, tool)
  {
  }

  lemma LastUnfinishedIsMeant(calls: seq<ToolCall>, turn: Option<TurnId>, tool: Option<string>)
    ensures forall k: nat | LastUnfinished(calls, turn, tool, k) ::
      ResolveCall(calls, turn, tool) == Some(calls[k].callId)
    ensures (forall c <- calls :: !Unfinished(c, turn, tool)) ==> ResolveCall(calls, turn, tool) == None
  {
    forall c ensures Unfinished(c, turn, tool) <==> IsOpen(c, turn, tool) {
      UnfinishedIsOpen(c, turn, tool);
    }
    ResolveIsLastOpen(calls, turn, tool);
    forall k: nat | LastUnfinished(calls, turn, tool, k)
      ensures ResolveCall(calls, turn, tool) == Some(calls[k].callId)
    {
      assert IsLastOpen(calls, turn, tool, k);
    }
  }

  /** What a result makes of the call it belongs to. */
  function Resulted(p: ToolPayload, at: Time): ToolCall -> ToolCall
    requires p.ToolCompleted? || p.ToolFailed? || p.ExecutorOutput?
  {
    (c: ToolCall) =>
      if p.ToolCompleted? then c.(status := Done, summary := p.summary, artifactIds := p.artifactIds, updatedAt := at)
      else if p.ToolFailed? then c.(status := Broken, summary := p.summary, updatedAt := at)
      else if p.ExecutorOutput? then c.(output := c.output + [p.output], updatedAt := at)
      else c
  }

  /** A result goes to the last unfinished call of its turn and tool, output to the last one of its turn. */
  lemma ResultDoes(s: Workbench, e: Event, p: ToolPayload, k: nat)
    requires e.payload == ToolEvent(p) && (p.ToolCompleted? || p.ToolFailed? || p.ExecutorOutput?)
    ensures var tool := if p.ExecutorOutput? then None else Some(p.toolName);
      var calls := Calls(s, e.threadId);
      && (LastUnfinished(calls, e.turnId, tool, k) ==>
            ChangesCall(s, Step(s, ServerEvent(e)), e.threadId, calls[k].callId, Resulted(p, e.createdAt)))
      && ((forall c <- calls :: !Unfinished(c, e.turnId, tool)) ==> Step(s, ServerEvent(e)) == s)
  {
    var tool := if p.ExecutorOutput? then None else Some(p.toolName);
    var calls := Calls(s, e.threadId);
    LastUnfinishedIsMeant(calls, e.turnId, tool);
    assert CallMeant(CallsOf(s, e.threadId), e.turnId, p) == ResolveCall(calls, e.turnId, tool);
    if LastUnfinished(calls, e.turnId, tool, k) {
      UpdatedInPlace(s, e.threadId, calls[k].callId, Revise(p, e.createdAt), Resulted(p, e.createdAt));
    }
  }
}
