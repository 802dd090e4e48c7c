/**
 Threads of the web client's reducer do not interfere: over every run the records of a thread are
 those of the run of its own actions alone.
 */
module WorkbenchRecords {
  import opened Common
  import opened Threads
  import opened Workbenches

  // ---------------------------------------------------------------------------------------
  // Threads do not interfere
  // ---------------------------------------------------------------------------------------

  /** The thread whose records an event is about. */
  function EventTarget(e: Event): Option<ThreadId> {
    match e.payload
    case ThreadChanged(_) => None
    case TurnEvent(turn, _) => Some(turn.threadId)
    case ApprovalEvent(approval, _) => Some(approval.threadId)
    case Unknown => None
    case _ => Some(e.threadId)
  }

  function Target(a: Action): Option<ThreadId> {
    match a
    case UserMessageAdded(t, _, _) => Some(t)
    case TurnStarted(turn) => Some(turn.threadId)
    case ServerEvent(e) => EventTarget(e)
    case ResumeSummarySet(t, _) => Some(t)
    case SessionLoaded(t, _) => Some(t)
    case ThreadError(t, _, _) => Some(t)
    case ApprovalUpsert(approval) => Some(approval.threadId)
    case MemoryWakeupSet(t, _, _) => Some(t)
    case MemoryCompilationSet(t, _) => Some(t)
    case _ => None
  }

  lemma EventElsewhere(s: Workbench, e: Event, t: ThreadId)
    requires EventTarget(e) != Some(t)
    ensures RecordsAt(ProjectEvent(s, e), t) == RecordsAt(s, t)
  {
  }

  /** A step leaves the records of every thread it is not about as they were. */
  lemma StepElsewhere(s: Workbench, a: Action, t: ThreadId)
    requires Target(a) != Some(t)
    ensures RecordsAt(Step(s, a), t) == RecordsAt(s, t)
  {
    if a.ServerEvent? {
      EventElsewhere(s, a.event, t);
    }
  }

  lemma SameRecordsRead(s: Workbench, s': Workbench, t: ThreadId)
    requires RecordsAt(s, t) == RecordsAt(s', t)
    ensures TranscriptOf(s, t) == TranscriptOf(s', t) && CallsOf(s, t) == CallsOf(s', t)
    ensures ApprovalsOf(s, t) == ApprovalsOf(s', t) && MemoryOf(s, t) == MemoryOf(s', t)
    ensures At(s.runtimes, t) == At(s'.runtimes, t) && At(s.calls, t) == At(s'.calls, t)
  {
    assert At(s.transcripts, t) == At(s'.transcripts, t) && At(s.calls, t) == At(s'.calls, t);
    assert At(s.approvals, t) == At(s'.approvals, t) && At(s.memories, t) == At(s'.memories, t);
  }

  lemma FinishRespects(s: Workbench, s': Workbench, turn: Turn, status: ReplyStatus, t: ThreadId)
    requires RecordsAt(s, t) == RecordsAt(s', t) && turn.threadId == t
    ensures RecordsAt(FinishTurn(s, turn, status), t) == RecordsAt(FinishTurn(s', turn, status), t)
  {
    SameRecordsRead(s, s', t);
  }

  lemma TurnRespects(s: Workbench, s': Workbench, turn: Turn, change: TurnPayload, t: ThreadId)
    requires RecordsAt(s, t) == RecordsAt(s', t) && turn.threadId == t
    ensures RecordsAt(ProjectTurn(s, turn, change), t) == RecordsAt(ProjectTurn(s', turn, change), t)
  {
    SameRecordsRead(s, s', t);
    if change.FailedWith? {
      FinishRespects(s, s', turn, Faulted, t);
      SameRecordsRead(FinishTurn(s, turn, Faulted), FinishTurn(s', turn, Faulted), t);
    }
  }

  lemma ReplyRespects(s: Workbench, s': Workbench, e: Event, p: ReplyPayload, t: ThreadId)
    requires RecordsAt(s, t) == RecordsAt(s', t) && e.threadId == t
    ensures RecordsAt(ProjectReply(s, e, p), t) == RecordsAt(ProjectReply(s', e, p), t)
  {
    SameRecordsRead(s, s', t);
  }

  lemma ApprovalRespects(s: Workbench, s': Workbench, a: Approval, at: Time, resolved: bool, t: ThreadId)
    requires RecordsAt(s, t) == RecordsAt(s', t) && a.threadId == t
    ensures RecordsAt(ProjectApproval(s, a, at, resolved), t) == RecordsAt(ProjectApproval(s', a, at, resolved), t)
  {
    SameRecordsRead(s, s', t);
  }

  lemma ToolRespects(s: Workbench, s': Workbench, e: Event, p: ToolPayload, t: ThreadId)
    requires RecordsAt(s, t) == RecordsAt(s', t) && e.threadId == t
    ensures RecordsAt(ProjectTool(s, e, p), t) == RecordsAt(ProjectTool(s', e, p), t)
  {
    SameRecordsRead(s, s', t);
  }

  lemma MemoryRespects(s: Workbench, s': Workbench, p: MemoryPayload, t: ThreadId)
    requires RecordsAt(s, t) == RecordsAt(s', t)
    ensures RecordsAt(ProjectMemory(s, t, p), t) == RecordsAt(ProjectMemory(s', t, p), t)
  {
    SameRecordsRead(s, s', t);
  }

  lemma EventRespects(s: Workbench, s': Workbench, e: Event, t: ThreadId)
    requires EventTarget(e) == Some(t) && RecordsAt(s, t) == RecordsAt(s', t)
    ensures RecordsAt(ProjectEvent(s, e), t) == RecordsAt(ProjectEvent(s', e), t)
  {
    match e.payload
    case TurnEvent(turn, change) => TurnRespects(s, s', turn, change, t);
    case ReplyEvent(reply) => ReplyRespects(s, s', e, reply, t);
    case ToolEvent(tool) => ToolRespects(s, s', e, tool, t);
    case ApprovalEvent(approval, resolved) => ApprovalRespects(s, s', approval, e.createdAt, resolved, t);
    case MemoryEvent(memory) => MemoryRespects(s, s', memory, t);
  }

  /** A step's effect on the thread it is about depends on that thread's records only. */
  lemma StepRespects(s: Workbench, s': Workbench, a: Action, t: ThreadId)
    requires Target(a) == Some(t) && RecordsAt(s, t) == RecordsAt(s', t)
    ensures RecordsAt(Step(s, a), t) == RecordsAt(Step(s', a), t)
  {
    if a.ServerEvent? {
      EventRespects(s, s', a.event, t);
    } else {
      SameRecordsRead(s, s', t);
    }
  }

  /** The actions of a run that are about one thread. */
  function About(actions: seq<Action>, t: ThreadId): seq<Action> {
    if actions == [] then []
    else
      var last := actions[|actions| - 1];
      About(actions[..|actions| - 1], t) + if Target(last) == Some(t) then [last] else []
  }

  /** A thread's records after a run are those of the run of its own actions alone. */
  lemma {:induction false} ThreadsDoNotInterfere(actions: seq<Action>, t: ThreadId)
    ensures RecordsAt(Run(actions), t) == RecordsAt(Run(About(actions, t)), t)
  {
    if actions != [] {
      var front, last := actions[..|actions| - 1], actions[|actions| - 1];
      ThreadsDoNotInterfere(front, t);
      var own := About(front, t);
      if Target(last) == Some(t) {
        assert (own + [last])[..|own|] == own;
        StepRespects(Run(front), Run(own), last, t);
      } else {
        assert About(actions, t) == own;
        StepElsewhere(Run(front), last, t);
      }
    }
  }
}
