/**
 The web client's state reducer (apps/liz-web/src/state/workbench.ts): a pure projection of
 actions and server events onto records keyed by thread.
 */
module Workbenches {
  import opened Common
  import opened StableSort
  import opened Threads

  type TurnId = string
  type CallId = string

  /** A timestamp: its text, and its place in the order of `localeCompare`. */
  datatype Time = Time(text: string, rank: int)

  datatype UserStatus = Sent | Pending

  datatype ReplyStatus = Streaming | Complete | Cancelled | Faulted

  datatype Tone = Info | Error

  datatype Entry =
    | User(id: string, threadId: ThreadId, turnId: Option<TurnId>, content: string, createdAt: Time, sent: UserStatus)
    | Assistant(id: string, threadId: ThreadId, turnId: Option<TurnId>, content: string, createdAt: Time,
        status: ReplyStatus)
    | System(id: string, threadId: ThreadId, turnId: Option<TurnId>, content: string, createdAt: Time, tone: Tone)

  datatype Runtime = Runtime(activeTurnId: Option<TurnId>, lastError: Option<string>)

  datatype CallStatus = Forming | Committed | Done | Broken

  datatype Output = Output(executorTaskId: string, stderr: bool, chunk: string)

  datatype ToolCall = ToolCall(
    callId: CallId, threadId: ThreadId, turnId: Option<TurnId>, toolName: string, summary: string, status: CallStatus,
    argumentsSummary: Option<string>, preview: Option<string>, riskHint: Option<string>, artifactIds: seq<string>,
    output: seq<Output>, createdAt: Time, updatedAt: Time)

  datatype Approval = Approval(
    id: string, threadId: ThreadId, turnId: TurnId, actionType: string, riskLevel: string, reason: string,
        status: string)

  datatype Memory = Memory(wakeup: Option<string>, recentConversation: Option<string>, compilation: Option<string>)

  const NO_MEMORY := Memory(None, None, None)

  datatype Resume = Resume(headline: string, activeSummary: Option<string>, commitments: seq<string>,
      lastInterruption: Option<string>)

  datatype Workbench = Workbench(
    threads: seq<Thread>,
    active: Option<ThreadId>,
    transcripts: map<ThreadId, seq<Entry>>,
    runtimes: map<ThreadId, Runtime>,
    calls: map<ThreadId, seq<ToolCall>>,
    approvals: map<ThreadId, seq<Approval>>,
    memories: map<ThreadId, Memory>,
    resumes: map<ThreadId, Resume>,
    selectedCall: Option<CallId>)

  const INITIAL := Workbench([], None, map[], map[], map[], map[], map[], map[], None)

  function At<V>(m: map<ThreadId, V>, t: ThreadId): Option<V> {
    if t in m then Some(m[t]) else None
  }

  datatype Records = Records(
    transcript: Option<seq<Entry>>, runtime: Option<Runtime>, calls: Option<seq<ToolCall>>,
    approvals: Option<seq<Approval>>, memory: Option<Memory>, resume: Option<Resume>)

  /** Everything kept for one thread. */
  function RecordsAt(s: Workbench, t: ThreadId): Records {
    Records(At(s.transcripts, t), At(s.runtimes, t), At(s.calls, t), At(s.approvals, t), At(s.memories, t),
        At(s.resumes, t))
  }

  datatype Turn = Turn(id: TurnId, threadId: ThreadId, startedAt: Time, endedAt: Option<Time>)

  /** `summary` is the recorded summary with its lead-in stripped. */
  datatype SessionEntry = SessionEntry(recordedAt: Time, event: string, summary: string, turnId: Option<TurnId>)

  datatype ToolPayload =
    | ToolCallStarted(callId: CallId, toolName: string, summary: string)
    | ToolCallUpdated(callId: CallId, toolName: string, deltaSummary: string, preview: Option<string>)
    | ToolCallCommitted(callId: CallId, toolName: string, argumentsSummary: string, riskHint: Option<string>)
    | ToolCompleted(toolName: string, summary: string, artifactIds: seq<string>)
    | ToolFailed(toolName: string, summary: string)
    | ExecutorOutput(output: Output)

  datatype TurnPayload = Started | Finished(status: ReplyStatus) | FailedWith(message: string, now: Time)

  datatype ReplyPayload = Chunk(chunk: string, isFinal: bool) | Message(message: string)

  datatype MemoryPayload = WakeupLoaded(wakeup: string) | Compiled(compilation: string)

  /** Event types, grouped by what they are about. `Finished` covers completed and cancelled turns. */
  datatype Payload =
    | ThreadChanged(thread: Thread)
    | TurnEvent(turn: Turn, change: TurnPayload)
    | ReplyEvent(reply: ReplyPayload)
    | ToolEvent(tool: ToolPayload)
    | ApprovalEvent(approval: Approval, resolved: bool)
    | MemoryEvent(memory: MemoryPayload)
    | Unknown

  datatype Event = Event(threadId: ThreadId, turnId: Option<TurnId>, createdAt: Time, payload: Payload)

  datatype Action =
    | ThreadsLoaded(loaded: seq<Thread>)
    | ThreadUpsert(thread: Thread, activate: bool)
    | ActiveThreadSet(active: Option<ThreadId>)
    | UserMessageAdded(threadId: ThreadId, content: string, createdAt: Time)
    | TurnStarted(turn: Turn)
    | ServerEvent(event: Event)
    | ResumeSummarySet(threadId: ThreadId, resume: Resume)
    | SessionLoaded(threadId: ThreadId, entries: seq<SessionEntry>)
    | ThreadError(threadId: ThreadId, message: string, now: Time)
    | ToolSelected(call: Option<CallId>)
    | ApprovalUpsert(approval: Approval)
    | MemoryWakeupSet(threadId: ThreadId, wakeup: string, recentConversation: Option<string>)
    | MemoryCompilationSet(threadId: ThreadId, compilation: string)

  // ---------------------------------------------------------------------------------------
  // Transcripts
  // ---------------------------------------------------------------------------------------

  /** The assistant's entry for a turn. */
  predicate IsReply(e: Entry, turn: Option<TurnId>) {
    e.Assistant? && e.turnId == turn
  }

  function MapEntries(entries: seq<Entry>, f: Entry -> Entry): seq<Entry> {
    if entries == [] then [] else MapEntries(entries[..|entries| - 1], f) + [f(entries[|entries| - 1])]
  }

  function NewReply(thread: ThreadId, turn: Option<TurnId>, at: Time): Entry {
    Assistant("assistant:" + turn.Or(at.text), thread, turn, "", at, Streaming)
  }

  function EnsureReply(entries: seq<Entry>, thread: ThreadId, turn: Option<TurnId>, at: Time): seq<Entry> {
    if exists e <- entries :: IsReply(e, turn) then entries else entries + [NewReply(thread, turn, at)]
  }

  function SendPending(turn: TurnId): Entry -> Entry {
    (e: Entry) => if e.User? && e.sent == Pending then e.(turnId := Some(turn), sent := Sent) else e
  }

  function OnReply(turn: Option<TurnId>, f: Entry -> Entry): Entry -> Entry {
    (e: Entry) => if IsReply(e, turn) then f(e) else e
  }

  function AddChunk(chunk: string, isFinal: bool): Entry -> Entry {
    (e: Entry) =>
      if e.Assistant? then e.(content := e.content + chunk, status := if isFinal then Complete else e.status)
      else e
  }

  function SetMessage(message: string): Entry -> Entry {
    (e: Entry) =>
      if e.Assistant? then e.(content := if message != "" then message else e.content, status := Complete)
      else e
  }

  function SetStatus(status: ReplyStatus): Entry -> Entry {
    (e: Entry) => if e.Assistant? then e.(status := status) else e
  }

  function ProjectSession(e: SessionEntry, thread: ThreadId): Entry {
    var id := "session:" + e.event + ":" + e.turnId.Or(e.recordedAt.text) + ":" + e.recordedAt.text;
    if e.event == "turn_started" then User(id, thread, e.turnId, e.summary, e.recordedAt, Sent)
    else if e.event == "turn_completed" then Assistant(id, thread, e.turnId, e.summary, e.recordedAt, Complete)
    else if e.event == "turn_cancelled" then Assistant(id, thread, e.turnId, e.summary, e.recordedAt, Cancelled)
    else if e.event == "turn_failed" then Assistant(id, thread, e.turnId, e.summary, e.recordedAt, Faulted)
    else System(id, thread, e.turnId, e.summary, e.recordedAt, Info)
  }

  predicate HasEntry(entries: seq<Entry>, id: string) {
    exists e <- entries :: e.id == id
  }

  /** The projected entries whose id `existing` does not hold. */
  function Unknowns(existing: seq<Entry>, session: seq<SessionEntry>, thread: ThreadId): seq<Entry> {
    if session == [] then []
    else
      var e := ProjectSession(session[|session| - 1], thread);
      Unknowns(existing, session[..|session| - 1], thread) + if HasEntry(existing, e.id) then [] else [e]
  }

  function MergeSession(existing: seq<Entry>, session: seq<SessionEntry>, thread: ThreadId): seq<Entry> {
    existing + Unknowns(existing, session, thread)
  }

  function TranscriptOf(s: Workbench, t: ThreadId): seq<Entry> {
    if t in s.transcripts then s.transcripts[t] else []
  }

  function WithTranscript(s: Workbench, t: ThreadId, entries: seq<Entry>): Workbench {
    s.(transcripts := s.transcripts[t := entries])
  }

  function AppendEntry(s: Workbench, t: ThreadId, e: Entry): Workbench {
    WithTranscript(s, t, TranscriptOf(s, t) + [e])
  }

  // ---------------------------------------------------------------------------------------
  // Keyed lists
  // ---------------------------------------------------------------------------------------

  function Without<T>(s: seq<T>, id: T -> string, x: string): seq<T> {
    if s == [] then []
    else Without(s[..|s| - 1], id, x) + if id(s[|s| - 1]) == x then [] else [s[|s| - 1]]
  }

  function SortThreads(threads: seq<Thread>): seq<Thread> {
    Sort(threads, Staleness)
  }

  function UpsertThread(threads: seq<Thread>, thread: Thread): seq<Thread> {
    SortThreads([thread] + Without(threads, IdOf, thread.id))
  }

  function ApprovalId(a: Approval): string {
    a.id
  }

  function ApprovalsOf(s: Workbench, t: ThreadId): seq<Approval> {
    if t in s.approvals then s.approvals[t] else []
  }

  function UpsertApproval(s: Workbench, a: Approval): Workbench {
    s.(approvals := s.approvals[a.threadId := [a] + Without(ApprovalsOf(s, a.threadId), ApprovalId, a.id)])
  }

  function CallIdOf(c: ToolCall): string {
    c.callId
  }

  function Created(c: ToolCall): int {
    c.createdAt.rank
  }

  function CallsOf(s: Workbench, t: ThreadId): seq<ToolCall> {
    if t in s.calls then s.calls[t] else []
  }

  /** A call replaces the one with its id; every field of the new projection is set. */
  function UpsertCall(s: Workbench, t: ThreadId, c: ToolCall): Workbench {
    s.(selectedCall := if s.selectedCall.Some? then s.selectedCall else Some(c.callId),
       calls := s.calls[t := Sort(Without(CallsOf(s, t), CallIdOf, c.callId) + [c], Created)])
  }

  function MapCall(calls: seq<ToolCall>, id: CallId, f: ToolCall -> ToolCall): seq<ToolCall> {
    seq(|calls|, i requires 0 <= i < |calls| => if calls[i].callId == id then f(calls[i]) else calls[i])
  }

  /** No id, or an empty one, names no call. */
  function UpdateCall(s: Workbench, t: ThreadId, id: Option<CallId>, f: ToolCall -> ToolCall): Workbench {
    if id.Or("") == "" then s else s.(calls := s.calls[t := MapCall(CallsOf(s, t), id.value, f)])
  }

  predicate IsOpen(c: ToolCall, turn: Option<TurnId>, tool: Option<string>) {
    && (tool.Some? ==> c.toolName == tool.value)
    && c.turnId == turn && (c.status == Forming || c.status == Committed)
  }

  /** The last open call of a turn, of one tool or of any. */
  function ResolveCall(calls: seq<ToolCall>, turn: Option<TurnId>, tool: Option<string>): Option<CallId> {
    if calls == [] then None
    else if IsOpen(calls[|calls| - 1], turn, tool) then Some(calls[|calls| - 1].callId)
    else ResolveCall(calls[..|calls| - 1], turn, tool)
  }

  function UserMessage(t: ThreadId, content: string, at: Time, position: nat): Entry {
    User("user:" + at.text + ":" + Decimal(position), t, None, content, at, Pending)
  }

  function ErrorNote(t: ThreadId, message: string, now: Time): Entry {
    System("error:" + now.text, t, None, message, now, Error)
  }

  // ---------------------------------------------------------------------------------------
  // The reducer
  // ---------------------------------------------------------------------------------------

  function StartTurn(s: Workbench, turn: Turn): Workbench {
    var t := turn.threadId;
    var entries := MapEntries(TranscriptOf(s, t), SendPending(turn.id));
    WithTranscript(s, t, EnsureReply(entries, t, Some(turn.id), turn.startedAt))
      .(runtimes := s.runtimes[t := Runtime(Some(turn.id), None)])
  }

  /** Make sure the event's turn has a reply, then change it. */
  function ChangeReply(s: Workbench, e: Event, f: Entry -> Entry): Workbench {
    var entries := EnsureReply(TranscriptOf(s, e.threadId), e.threadId, e.turnId, e.createdAt);
    WithTranscript(s, e.threadId, MapEntries(entries, OnReply(e.turnId, f)))
  }

  function FinishTurn(s: Workbench, turn: Turn, status: ReplyStatus): Workbench {
    var t := turn.threadId;
    WithTranscript(s, t, MapEntries(TranscriptOf(s, t), OnReply(Some(turn.id), SetStatus(status))))
      .(runtimes := s.runtimes[t := Runtime(None, None)])
  }

  function FailureNote(turn: Turn, message: string, now: Time): Entry {
    System("turn-failed:" + turn.id, turn.threadId, Some(turn.id), message, turn.endedAt.Or(now), Error)
  }

  function FailTurn(s: Workbench, turn: Turn, message: string, now: Time): Workbench {
    AppendEntry(FinishTurn(s, turn, Faulted), turn.threadId, FailureNote(turn, message, now))
  }

  function MemoryOf(s: Workbench, t: ThreadId): Memory {
    if t in s.memories then s.memories[t] else NO_MEMORY
  }

  function SetWakeup(s: Workbench, t: ThreadId, wakeup: string, recent: Option<string>): Workbench {
    s.(memories := s.memories[t := MemoryOf(s, t).(wakeup := Some(wakeup), recentConversation := recent)])
  }

  function SetCompilation(s: Workbench, t: ThreadId, compilation: string): Workbench {
    s.(memories := s.memories[t := MemoryOf(s, t).(compilation := Some(compilation))])
  }

  function ApprovalNote(a: Approval, at: Time, resolved: bool): Entry {
    var stage := if resolved then "resolved" else "requested";
    var content :=
      if resolved then "Approval " + a.status + ": " + a.actionType + "."
      else "Approval required: " + a.actionType + " (" + a.riskLevel + "). " + a.reason;
    System("approval:" + a.id + ":" + stage, a.threadId, Some(a.turnId), content, at, Info)
  }

  function NoteApproval(s: Workbench, a: Approval, at: Time, resolved: bool): Workbench {
    AppendEntry(UpsertApproval(s, a), a.threadId, ApprovalNote(a, at, resolved))
  }

  function NewCall(e: Event, callId: CallId, toolName: string, summary: string): ToolCall {
    ToolCall(callId, e.threadId, e.turnId, toolName, summary, Forming, None, None, None, [], [], e.createdAt,
        e.createdAt)
  }

  /** What an event does to the call it is about. */
  function Revise(p: ToolPayload, at: Time): ToolCall -> ToolCall {
    (c: ToolCall) =>
      match p
      case ToolCallStarted(_, _, _) => c
      case ToolCallUpdated(_, toolName, delta, preview) =>
        c.(toolName := toolName, summary := delta, preview := preview, updatedAt := at)
      case ToolCallCommitted(_, toolName, arguments, risk) =>
        c.(toolName := toolName, status := Committed, argumentsSummary := Some(arguments), riskHint := risk,
            updatedAt := at)
      case ToolCompleted(_, summary, artifacts) => c.(status := Done, summary := summary, artifactIds := artifacts,
          updatedAt := at)
      case ToolFailed(_, summary) => c.(status := Broken, summary := summary, updatedAt := at)
      case ExecutorOutput(output) => c.(output := c.output + [output], updatedAt := at)
  }

  /** The call an event is about: named outright, or the last open one it fits. */
  function CallMeant(calls: seq<ToolCall>, turn: Option<TurnId>, p: ToolPayload): Option<CallId> {
    match p
    case ToolCallStarted(callId, _, _) => Some(callId)
    case ToolCallUpdated(callId, _, _, _) => Some(callId)
    case ToolCallCommitted(callId, _, _, _) => Some(callId)
    case ToolCompleted(toolName, _, _) => ResolveCall(calls, turn, Some(toolName))
    case ToolFailed(toolName, _) => ResolveCall(calls, turn, Some(toolName))
    case ExecutorOutput(_) => ResolveCall(calls, turn, None)
  }

  function ProjectTool(s: Workbench, e: Event, p: ToolPayload): (r: Workbench)
    ensures r == s.(calls := r.calls, selectedCall := r.selectedCall)
    ensures forall x | x != e.threadId :: RecordsAt(r, x) == RecordsAt(s, x)
  {
    match p
    case ToolCallStarted(callId, toolName, summary) => UpsertCall(s, e.threadId, NewCall(e, callId, toolName, summary))
    case _ => UpdateCall(s, e.threadId, CallMeant(CallsOf(s, e.threadId), e.turnId, p), Revise(p, e.createdAt))
  }

  function ProjectTurn(s: Workbench, turn: Turn, change: TurnPayload): (r: Workbench)
    ensures r == s.(transcripts := r.transcripts, runtimes := r.runtimes)
    ensures forall x | x != turn.threadId :: RecordsAt(r, x) == RecordsAt(s, x)
  {
    match change
    case Started => StartTurn(s, turn)
    case Finished(status) => FinishTurn(s, turn, status)
    case FailedWith(message, now) => FailTurn(s, turn, message, now)
  }

  /** What an assistant event does to its turn's reply. */
  function Amend(p: ReplyPayload): Entry -> Entry {
    match p
    case Chunk(chunk, isFinal) => AddChunk(chunk, isFinal)
    case Message(message) => SetMessage(message)
  }

  function ProjectReply(s: Workbench, e: Event, p: ReplyPayload): (r: Workbench)
    ensures r == s.(transcripts := r.transcripts)
    ensures forall x | x != e.threadId :: RecordsAt(r, x) == RecordsAt(s, x)
  {
    ChangeReply(s, e, Amend(p))
  }

  function ProjectApproval(s: Workbench, a: Approval, at: Time, resolved: bool): (r: Workbench)
    ensures r == s.(transcripts := r.transcripts, approvals := r.approvals)
    ensures forall x | x != a.threadId :: RecordsAt(r, x) == RecordsAt(s, x)
  {
    NoteApproval(s, a, at, resolved)
  }

  function ProjectMemory(s: Workbench, t: ThreadId, p: MemoryPayload): (r: Workbench)
    ensures r == s.(memories := r.memories)
    ensures forall x | x != t :: RecordsAt(r, x) == RecordsAt(s, x)
  {
    match p
    case WakeupLoaded(wakeup) => SetWakeup(s, t, wakeup, None)
    case Compiled(compilation) => SetCompilation(s, t, compilation)
  }

  function ProjectEvent(s: Workbench, e: Event): Workbench {
    match e.payload
    case ThreadChanged(thread) => s.(threads := UpsertThread(s.threads, thread))
    case TurnEvent(turn, change) => ProjectTurn(s, turn, change)
    case ReplyEvent(reply) => ProjectReply(s, e, reply)
    case ToolEvent(tool) => ProjectTool(s, e, tool)
    case ApprovalEvent(approval, resolved) => ProjectApproval(s, approval, e.createdAt, resolved)
    case MemoryEvent(memory) => ProjectMemory(s, e.threadId, memory)
    case Unknown => s
  }

  /** The active thread stays if it is named and loaded; else it is the first one as loaded. */
  function ActiveAfterLoad(active: Option<ThreadId>, loaded: seq<Thread>): Option<ThreadId> {
    if active.Or("") != "" && HasId(loaded, active.value) then active
    else if loaded == [] then None
    else Some(loaded[0].id)
  }

  function Step(s: Workbench, a: Action): Workbench {
    match a
    case ThreadsLoaded(loaded) => s.(active := ActiveAfterLoad(s.active, loaded), threads := SortThreads(loaded))
    case ThreadUpsert(thread, activate) =>
      s.(active := if activate then Some(thread.id) else s.active, threads := UpsertThread(s.threads, thread))
    case ActiveThreadSet(active) => s.(active := active)
    case UserMessageAdded(t, content, at) =>
      AppendEntry(s, t, UserMessage(t, content, at, |TranscriptOf(s, t)|))
    case TurnStarted(turn) => StartTurn(s, turn)
    case ServerEvent(event) => ProjectEvent(s, event)
    case ResumeSummarySet(t, resume) => s.(resumes := s.resumes[t := resume])
    case SessionLoaded(t, entries) => WithTranscript(s, t, MergeSession(TranscriptOf(s, t), entries, t))
    case ThreadError(t, message, now) =>
      var active := if t in s.runtimes then s.runtimes[t].activeTurnId else None;
      AppendEntry(s.(runtimes := s.runtimes[t := Runtime(active, Some(message))]), t, ErrorNote(t, message, now))
    case ToolSelected(call) => s.(selectedCall := call)
    case ApprovalUpsert(approval) => UpsertApproval(s, approval)
    case MemoryWakeupSet(t, wakeup, recent) => SetWakeup(s, t, wakeup, recent)
    case MemoryCompilationSet(t, compilation) => SetCompilation(s, t, compilation)
  }

  function Run(actions: seq<Action>): Workbench {
    if actions == [] then INITIAL else Step(Run(actions[..|actions| - 1]), actions[|actions| - 1])
  }
}
