/** The web client's transcripts over whole runs: nothing shown is dropped or reordered. */
module WorkbenchGrowth {
  import opened Common
  import opened Threads
  import opened Workbenches
  import opened WorkbenchRecords

  /** The same entry, perhaps further along: only a reply's text and a message's turn may change. */
  predicate SameEntry(e: Entry, f: Entry) {
    && f.id == e.id && f.threadId == e.threadId && f.createdAt == e.createdAt
    && (e.User? ==> f.User? && f.content == e.content && (e.sent == Sent ==> f == e))
    && (e.Assistant? ==> f.Assistant? && f.turnId == e.turnId)
    && (e.System? ==> f == e)
  }

  predicate Extends(before: seq<Entry>, after: seq<Entry>) {
    && |before| <= |after|
    && (forall i | 0 <= i < |before| :: SameEntry(before[i], after[i]))
  }

  lemma {:induction false} MapExtends(entries: seq<Entry>, f: Entry -> Entry)
    requires forall e :: SameEntry(e, f(e))
    ensures Extends(entries, MapEntries(entries, f)) && |MapEntries(entries, f)| == |entries|
  {
    if entries != [] {
      MapExtends(entries[..|entries| - 1], f);
    }
  }

  lemma EnsureExtends(before: seq<Entry>, entries: seq<Entry>, t: ThreadId, u: Option<TurnId>, at: Time)
    requires Extends(before, entries)
    ensures Extends(before, EnsureReply(entries, t, u, at))
  {
  }

  lemma StartExtends(s: Workbench, turn: Turn)
    ensures Extends(TranscriptOf(s, turn.threadId), TranscriptOf(StartTurn(s, turn), turn.threadId))
  {
    var entries := TranscriptOf(s, turn.threadId);
    var sent := MapEntries(entries, SendPending(turn.id));
    MapExtends(entries, SendPending(turn.id));
    EnsureExtends(entries, sent, turn.threadId, Some(turn.id), turn.startedAt);
  }

  lemma FinishExtends(s: Workbench, turn: Turn, status: ReplyStatus)
    ensures Extends(TranscriptOf(s, turn.threadId), TranscriptOf(FinishTurn(s, turn, status), turn.threadId))
  {
    MapExtends(TranscriptOf(s, turn.threadId), OnReply(Some(turn.id), SetStatus(status)));
  }

  lemma TurnExtends(s: Workbench, turn: Turn, change: TurnPayload)
    ensures Extends(TranscriptOf(s, turn.threadId), TranscriptOf(ProjectTurn(s, turn, change), turn.threadId))
  {
    match change
    case Started => StartExtends(s, turn);
    case Finished(status) => FinishExtends(s, turn, status);
    case FailedWith(_, _) => FinishExtends(s, turn, Faulted);
  }

  lemma ReplyExtends(s: Workbench, e: Event, p: ReplyPayload)
    ensures Extends(TranscriptOf(s, e.threadId), TranscriptOf(ProjectReply(s, e, p), e.threadId))
  {
    var entries := TranscriptOf(s, e.threadId);
    var ensured := EnsureReply(entries, e.threadId, e.turnId, e.createdAt);
    MapExtends(ensured, OnReply(e.turnId, Amend(p)));
  }

  lemma ApprovalExtends(s: Workbench, a: Approval, at: Time, resolved: bool)
    ensures Extends(TranscriptOf(s, a.threadId), TranscriptOf(ProjectApproval(s, a, at, resolved), a.threadId))
  {
  }

  lemma ExtendsTrans(a: seq<Entry>, b: seq<Entry>, c: seq<Entry>)
    requires Extends(a, b) && Extends(b, c)
    ensures Extends(a, c)
  {
  }

  lemma EventExtends(s: Workbench, e: Event, t: ThreadId)
    requires EventTarget(e) == Some(t)
    ensures Extends(TranscriptOf(s, t), TranscriptOf(ProjectEvent(s, e), t))
  {
    match e.payload
    case TurnEvent(turn, change) =>
      assert ProjectEvent(s, e) == ProjectTurn(s, turn, change);
      TurnExtends(s, turn, change);
    case ReplyEvent(reply) =>
      assert ProjectEvent(s, e) == ProjectReply(s, e, reply);
      ReplyExtends(s, e, reply);
    case ApprovalEvent(approval, resolved) =>
      assert ProjectEvent(s, e) == ProjectApproval(s, approval, e.createdAt, resolved);
      ApprovalExtends(s, approval, e.createdAt, resolved);
    case _ =>
  }

  lemma StepExtends(s: Workbench, a: Action, t: ThreadId)
    ensures Extends(TranscriptOf(s, t), TranscriptOf(Step(s, a), t))
  {
    if Target(a) != Some(t) {
      StepElsewhere(s, a, t);
      SameRecordsRead(s, Step(s, a), t);
    } else if a.ServerEvent? {
      EventExtends(s, a.event, t);
    } else if a.TurnStarted? {
      StartExtends(s, a.turn);
    }
  }

  /**
   However a run goes on, every transcript entry stays where it is: messages keep their text and
   are sent at most once, replies keep their turn, notes do not change.
   */
  lemma {:induction false} TranscriptsOnlyGrow(actions: seq<Action>, more: seq<Action>, t: ThreadId)
    ensures Extends(TranscriptOf(Run(actions), t), TranscriptOf(Run(actions + more), t))
  {
    if more == [] {
      assert actions + more == actions;
    } else {
      var front, last := more[..|more| - 1], more[|more| - 1];
      assert (actions + more)[..|actions + more| - 1] == actions + front;
      TranscriptsOnlyGrow(actions, front, t);
      StepExtends(Run(actions + front), last, t);
      ExtendsTrans(TranscriptOf(Run(actions), t), TranscriptOf(Run(actions + front), t),
          TranscriptOf(Run(actions + more), t));
    }
  }

  // ---------------------------------------------------------------------------------------
  // Loading a session
  // ---------------------------------------------------------------------------------------

  lemma {:induction false} NothingUnknown(existing: seq<Entry>, session: seq<SessionEntry>, t: ThreadId)
    requires forall e <- session :: HasEntry(existing, ProjectSession(e, t).id)
    ensures Unknowns(existing, session, t) == []
  {
    if session != [] {
      NothingUnknown(existing, session[..|session| - 1], t);
      assert session[|session| - 1] in session;
    }
  }

  lemma {:induction false} UnknownsAreAdded(existing: seq<Entry>, session: seq<SessionEntry>, t: ThreadId,
      e: SessionEntry)
    requires e in session
    ensures HasEntry(existing + Unknowns(existing, session, t), ProjectSession(e, t).id)
  {
    var front, last := session[..|session| - 1], session[|session| - 1];
    var id := ProjectSession(e, t).id;
    if HasEntry(existing, id) {
      var x :| x in existing && x.id == id;
      assert x in existing + Unknowns(existing, session, t);
    } else if e == last {
      assert ProjectSession(e, t) in existing + Unknowns(existing, session, t);
    } else {
      assert session == front + [last];
      UnknownsAreAdded(existing, front, t, e);
      var x :| x in existing + Unknowns(existing, front, t) && x.id == id;
      assert x in existing + Unknowns(existing, session, t);
    }
  }

  /**
   Loading a session keeps what is shown in front, adds every recorded entry whose id is not
   there, and loading it again changes nothing.
   */
  lemma MergeIsIdempotent(existing: seq<Entry>, session: seq<SessionEntry>, t: ThreadId)
    ensures var merged := MergeSession(existing, session, t);
      && existing <= merged
      && (forall e <- session :: HasEntry(merged, ProjectSession(e, t).id))
      && MergeSession(merged, session, t) == merged
  {
    var merged := MergeSession(existing, session, t);
    forall e | e in session ensures HasEntry(merged, ProjectSession(e, t).id) {
      UnknownsAreAdded(existing, session, t, e);
    }
    NothingUnknown(merged, session, t);
  }
}
