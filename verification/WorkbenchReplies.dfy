/**
 Replies in the web client (apps/liz-web/src/state/workbench.ts): whatever else is interleaved,
 a turn has one reply and it is the fold of that turn's own events, unless a loaded session
 records a second one. When that happens is stated exactly.
 */
module WorkbenchReplies {
  import opened Common
  import opened Threads
  import opened WorkbenchGrowth
  import opened Workbenches

  /** The replies to one turn in a transcript. */
  function RepliesOf(entries: seq<Entry>, u: Option<TurnId>): seq<Entry> {
    if entries == [] then []
    else RepliesOf(entries[..|entries| - 1], u) + if IsReply(entries[|entries| - 1], u) then [entries[|entries| - 1]]
        else []
  }

  // ---------------------------------------------------------------------------------------
  // The reference: one turn on its own
  // ---------------------------------------------------------------------------------------

  /** What one action contributes to the reply of one turn. */
  datatype Part =
    | Starts(at: Time)
    | Says(text: string, isFinal: bool, at: Time)
    | Completes(message: string, at: Time)
    | Ends(status: ReplyStatus)
    | Recalls(entry: Entry)

  function TurnPart(turn: Turn, t: ThreadId, u: Option<TurnId>, p: Part): Option<Part> {
    if turn.threadId == t && u == Some(turn.id) then Some(p) else None
  }

  function ChangePart(turn: Turn, change: TurnPayload): Part {
    match change
    case Started => Starts(turn.startedAt)
    case Finished(status) => Ends(status)
    case FailedWith(_, _) => Ends(Faulted)
  }

  function SaidPart(reply: ReplyPayload, at: Time): Part {
    match reply
    case Chunk(chunk, isFinal) => Says(chunk, isFinal, at)
    case Message(message) => Completes(message, at)
  }

  function EventPart(e: Event, t: ThreadId, u: Option<TurnId>): Option<Part> {
    match e.payload
    case TurnEvent(turn, change) => TurnPart(turn, t, u, ChangePart(turn, change))
    case ReplyEvent(reply) => if e.threadId == t && e.turnId == u then Some(SaidPart(reply, e.createdAt)) else None
    case _ => None
  }

  /** The replies to a turn that a session records under ids the transcript does not hold. */
  function NewReplies(existing: seq<Entry>, session: seq<SessionEntry>, t: ThreadId, u: Option<TurnId>): seq<Entry> {
    if session == [] then []
    else
      var e := ProjectSession(session[|session| - 1], t);
      NewReplies(existing, session[..|session| - 1], t, u)
      + if IsReply(e, u) && !HasEntry(existing, e.id) then [e] else []
  }

  function SessionReplies(s: Workbench, a: Action, t: ThreadId, u: Option<TurnId>): seq<Entry> {
    if a.SessionLoaded? && a.threadId == t then NewReplies(TranscriptOf(s, t), a.entries, t, u) else []
  }

  function RecallOf(added: seq<Entry>): Option<Part> {
    if added == [] then None else Some(Recalls(added[0]))
  }

  function PartOf(s: Workbench, a: Action, t: ThreadId, u: Option<TurnId>): Option<Part> {
    match a
    case TurnStarted(turn) => TurnPart(turn, t, u, Starts(turn.startedAt))
    case ServerEvent(e) => EventPart(e, t, u)
    case SessionLoaded(_, _) => RecallOf(SessionReplies(s, a, t, u))
    case _ => None
  }

  /** One turn's own parts of a run, in order. */
  function Parts(actions: seq<Action>, t: ThreadId, u: Option<TurnId>): seq<Part> {
    if actions == [] then []
    else
      var front := actions[..|actions| - 1];
      var p := PartOf(Run(front), actions[|actions| - 1], t, u);
      Parts(front, t, u) + if p.Some? then [p.value] else []
  }

  function AfterPart(r: Option<Entry>, p: Part, t: ThreadId, u: Option<TurnId>): Option<Entry> {
    match p
    case Starts(at) => Some(r.Or(NewReply(t, u, at)))
    case Says(text, isFinal, at) => Some(AddChunk(text, isFinal)(r.Or(NewReply(t, u, at))))
    case Completes(message, at) => Some(SetMessage(message)(r.Or(NewReply(t, u, at))))
    case Ends(status) => if r.Some? then Some(SetStatus(status)(r.value)) else None
    case Recalls(e) => if r.None? && IsReply(e, u) then Some(e) else r
  }

  function ReplyOf(parts: seq<Part>, t: ThreadId, u: Option<TurnId>): (r: Option<Entry>)
    ensures r.Some? ==> IsReply(r.value, u)
  {
    if parts == [] then None else AfterPart(ReplyOf(parts[..|parts| - 1], t, u), parts[|parts| - 1], t, u)
  }

  function Listed(r: Option<Entry>): seq<Entry> {
    if r.Some? then [r.value] else []
  }

  // ---------------------------------------------------------------------------------------
  // Transcripts and one turn's replies
  // ---------------------------------------------------------------------------------------

  lemma RepliesSnoc(entries: seq<Entry>, e: Entry, u: Option<TurnId>)
    ensures RepliesOf(entries + [e], u) == RepliesOf(entries, u) + if IsReply(e, u) then [e] else []
  {
    assert (entries + [e])[..|entries|] == entries;
  }

  lemma {:induction false} RepliesConcat(a: seq<Entry>, b: seq<Entry>, u: Option<TurnId>)
    ensures RepliesOf(a + b, u) == RepliesOf(a, u) + RepliesOf(b, u)
  {
    if b == [] {
      assert a + b == a;
    } else {
      var front, last := b[..|b| - 1], b[|b| - 1];
      assert a + b == (a + front) + [last];
      RepliesSnoc(a + front, last, u);
      RepliesConcat(a, front, u);
    }
  }

  lemma {:induction false} NoRepliesIff(entries: seq<Entry>, u: Option<TurnId>)
    ensures RepliesOf(entries, u) == [] <==> !exists e <- entries :: IsReply(e, u)
  {
    if entries != [] {
      var front, last := entries[..|entries| - 1], entries[|entries| - 1];
      assert entries == front + [last];
      NoRepliesIff(front, u);
    }
  }

  lemma {:induction false} RepliesMapped(entries: seq<Entry>, f: Entry -> Entry, u: Option<TurnId>)
    requires forall e :: IsReply(f(e), u) <==> IsReply(e, u)
    ensures RepliesOf(MapEntries(entries, f), u) == MapEntries(RepliesOf(entries, u), f)
  {
    if entries != [] {
      var front, last := entries[..|entries| - 1], entries[|entries| - 1];
      RepliesMapped(front, f, u);
      RepliesSnoc(MapEntries(front, f), f(last), u);
      MapSnoc(RepliesOf(front, u), last, f);
      assert RepliesOf(front, u) + [] == RepliesOf(front, u);
    }
  }

  lemma MapSnoc(entries: seq<Entry>, e: Entry, f: Entry -> Entry)
    ensures MapEntries(entries + [e], f) == MapEntries(entries, f) + [f(e)]
  {
    assert (entries + [e])[..|entries|] == entries;
  }

  lemma MapListed(r: Option<Entry>, f: Entry -> Entry)
    ensures MapEntries(Listed(r), f) == if r.Some? then [f(r.value)] else []
  {
    if r.Some? {
      assert Listed(r)[..0] == [];
    }
  }

  lemma EnsuredReplies(entries: seq<Entry>, t: ThreadId, v: Option<TurnId>, at: Time, u: Option<TurnId>,
      r: Option<Entry>)
    requires RepliesOf(entries, u) == Listed(r)
    ensures RepliesOf(EnsureReply(entries, t, v, at), u) == Listed(if v == u then Some(r.Or(NewReply(t, u, at))) else r)
  {
    NoRepliesIff(entries, u);
    RepliesSnoc(entries, NewReply(t, v, at), u);
  }

  /** A change that neither makes nor unmakes a reply to any turn. */
  ghost predicate KeepsReplies(f: Entry -> Entry) {
    forall e, w :: IsReply(f(e), w) <==> IsReply(e, w)
  }

  lemma StatusKeepsReplies(status: ReplyStatus)
    ensures KeepsReplies(SetStatus(status))
  {
  }

  lemma AmendKeepsReplies(p: ReplyPayload)
    ensures KeepsReplies(Amend(p))
  {
  }

  /** A change made to the replies of turn `v` is a change to turn `u` only if they are the same. */
  lemma ChangedReplies(entries: seq<Entry>, v: Option<TurnId>, f: Entry -> Entry, u: Option<TurnId>, r: Option<Entry>)
    requires KeepsReplies(f)
    requires RepliesOf(entries, u) == Listed(r)
    ensures RepliesOf(MapEntries(entries, OnReply(v, f)), u)
         == Listed(if v == u && r.Some? then Some(f(r.value)) else r)
  {
    var g := OnReply(v, f);
    assert forall e :: IsReply(g(e), u) <==> IsReply(e, u);
    RepliesMapped(entries, g, u);
    MapListed(r, g);
    if r.Some? {
      NoRepliesIff(entries, u);
      assert IsReply(Listed(r)[0], u) by { RepliesAreReplies(entries, u); }
    }
  }

  lemma {:induction false} RepliesAreReplies(entries: seq<Entry>, u: Option<TurnId>)
    ensures forall e <- RepliesOf(entries, u) :: IsReply(e, u)
  {
    if entries != [] {
      RepliesAreReplies(entries[..|entries| - 1], u);
    }
  }

  // ---------------------------------------------------------------------------------------
  // One step
  // ---------------------------------------------------------------------------------------

  function NextReply(r: Option<Entry>, p: Option<Part>, t: ThreadId, u: Option<TurnId>): Option<Entry> {
    if p.Some? then AfterPart(r, p.value, t, u) else r
  }

  lemma {:induction false} SentReplies(entries: seq<Entry>, v: TurnId, u: Option<TurnId>)
    ensures RepliesOf(MapEntries(entries, SendPending(v)), u) == RepliesOf(entries, u)
  {
    if entries != [] {
      var front, last := entries[..|entries| - 1], entries[|entries| - 1];
      SentReplies(front, v, u);
      RepliesSnoc(MapEntries(front, SendPending(v)), SendPending(v)(last), u);
    }
  }

  lemma StartOnReplies(s: Workbench, turn: Turn, t: ThreadId, u: Option<TurnId>, r: Option<Entry>)
    requires RepliesOf(TranscriptOf(s, t), u) == Listed(r)
    ensures RepliesOf(TranscriptOf(StartTurn(s, turn), t), u)
         == Listed(NextReply(r, TurnPart(turn, t, u, Starts(turn.startedAt)), t, u))
  {
    if turn.threadId == t {
      var entries := TranscriptOf(s, t);
      SentReplies(entries, turn.id, u);
      EnsuredReplies(MapEntries(entries, SendPending(turn.id)), t, Some(turn.id), turn.startedAt, u, r);
    }
  }

  lemma ChangeOnReplies(s: Workbench, e: Event, f: Entry -> Entry, t: ThreadId, u: Option<TurnId>, r: Option<Entry>)
    requires KeepsReplies(f)
    requires RepliesOf(TranscriptOf(s, t), u) == Listed(r)
    ensures RepliesOf(TranscriptOf(ChangeReply(s, e, f), t), u)
         == Listed(if e.threadId == t && e.turnId == u then Some(f(r.Or(NewReply(t, u, e.createdAt)))) else r)
  {
    if e.threadId == t {
      var entries := TranscriptOf(s, t);
      var ensured := if e.turnId == u then Some(r.Or(NewReply(t, u, e.createdAt))) else r;
      EnsuredReplies(entries, t, e.turnId, e.createdAt, u, r);
      ChangedReplies(EnsureReply(entries, t, e.turnId, e.createdAt), e.turnId, f, u, ensured);
    }
  }

  lemma FinishOnReplies(s: Workbench, turn: Turn, status: ReplyStatus, t: ThreadId, u: Option<TurnId>, r: Option<Entry>)
    requires RepliesOf(TranscriptOf(s, t), u) == Listed(r)
    ensures RepliesOf(TranscriptOf(FinishTurn(s, turn, status), t), u)
         == Listed(NextReply(r, TurnPart(turn, t, u, Ends(status)), t, u))
  {
    StatusKeepsReplies(status);
    if turn.threadId == t {
      ChangedReplies(TranscriptOf(s, t), Some(turn.id), SetStatus(status), u, r);
    }
  }

  lemma AppendOnReplies(s: Workbench, x: ThreadId, e: Entry, t: ThreadId, u: Option<TurnId>)
    requires !e.Assistant?
    ensures RepliesOf(TranscriptOf(AppendEntry(s, x, e), t), u) == RepliesOf(TranscriptOf(s, t), u)
  {
    RepliesSnoc(TranscriptOf(s, x), e, u);
  }

  lemma TurnOnReplies(s: Workbench, turn: Turn, change: TurnPayload, t: ThreadId, u: Option<TurnId>, r: Option<Entry>)
    requires RepliesOf(TranscriptOf(s, t), u) == Listed(r)
    ensures RepliesOf(TranscriptOf(ProjectTurn(s, turn, change), t), u)
         == Listed(NextReply(r, TurnPart(turn, t, u, ChangePart(turn, change)), t, u))
  {
    match change
    case Started => StartOnReplies(s, turn, t, u, r);
    case Finished(status) => FinishOnReplies(s, turn, status, t, u, r);
    case FailedWith(message, now) =>
      FinishOnReplies(s, turn, Faulted, t, u, r);
      AppendOnReplies(FinishTurn(s, turn, Faulted), turn.threadId, FailureNote(turn, message, now), t, u);
  }

  lemma AmendOnReplies(s: Workbench, e: Event, p: ReplyPayload, t: ThreadId, u: Option<TurnId>, r: Option<Entry>)
    requires RepliesOf(TranscriptOf(s, t), u) == Listed(r)
    ensures RepliesOf(TranscriptOf(ProjectReply(s, e, p), t), u)
         == Listed(if e.threadId == t && e.turnId == u then AfterPart(r, SaidPart(p, e.createdAt), t, u) else r)
  {
    AmendKeepsReplies(p);
    match p
    case Chunk(chunk, isFinal) => ChangeOnReplies(s, e, AddChunk(chunk, isFinal), t, u, r);
    case Message(message) => ChangeOnReplies(s, e, SetMessage(message), t, u, r);
  }

  lemma ApprovalOnReplies(s: Workbench, a: Approval, at: Time, resolved: bool, t: ThreadId, u: Option<TurnId>)
    ensures RepliesOf(TranscriptOf(ProjectApproval(s, a, at, resolved), t), u) == RepliesOf(TranscriptOf(s, t), u)
  {
    AppendOnReplies(UpsertApproval(s, a), a.threadId, ApprovalNote(a, at, resolved), t, u);
  }

  lemma QuietEvents(s: Workbench, e: Event, t: ThreadId, u: Option<TurnId>)
    requires !e.payload.TurnEvent? && !e.payload.ReplyEvent? && !e.payload.ApprovalEvent?
    ensures TranscriptOf(ProjectEvent(s, e), t) == TranscriptOf(s, t) && EventPart(e, t, u) == None
  {
  }

  lemma EventOnReplies(s: Workbench, e: Event, t: ThreadId, u: Option<TurnId>, r: Option<Entry>)
    requires RepliesOf(TranscriptOf(s, t), u) == Listed(r)
    ensures RepliesOf(TranscriptOf(ProjectEvent(s, e), t), u) == Listed(NextReply(r, EventPart(e, t, u), t, u))
  {
    match e.payload
    case TurnEvent(turn, change) =>
      assert ProjectEvent(s, e) == ProjectTurn(s, turn, change);
      TurnOnReplies(s, turn, change, t, u, r);
    case ReplyEvent(reply) =>
      assert ProjectEvent(s, e) == ProjectReply(s, e, reply);
      AmendOnReplies(s, e, reply, t, u, r);
    case ApprovalEvent(approval, resolved) =>
      assert ProjectEvent(s, e) == ProjectApproval(s, approval, e.createdAt, resolved);
      ApprovalOnReplies(s, approval, e.createdAt, resolved, t, u);
    case _ =>
      QuietEvents(s, e, t, u);
  }

  lemma {:induction false} UnknownReplies(existing: seq<Entry>, session: seq<SessionEntry>, t: ThreadId,
      u: Option<TurnId>)
    ensures RepliesOf(Unknowns(existing, session, t), u) == NewReplies(existing, session, t, u)
  {
    if session != [] {
      var front, e := session[..|session| - 1], ProjectSession(session[|session| - 1], t);
      UnknownReplies(existing, front, t, u);
      RepliesSnoc(Unknowns(existing, front, t), e, u);
      assert Unknowns(existing, front, t) + [] == Unknowns(existing, front, t);
    }
  }

  /** A loaded session adds exactly the replies it records under unknown ids, behind those already there. */
  lemma RepliesAfterSession(existing: seq<Entry>, session: seq<SessionEntry>, t: ThreadId, u: Option<TurnId>)
    ensures RepliesOf(MergeSession(existing, session, t), u)
        == RepliesOf(existing, u) + NewReplies(existing, session, t, u)
  {
    RepliesConcat(existing, Unknowns(existing, session, t), u);
    UnknownReplies(existing, session, t, u);
  }

  /** The step leaves at most one reply: those there before and those a session adds are at most one. */
  predicate LeavesOneReply(s: Workbench, a: Action, t: ThreadId, u: Option<TurnId>) {
    |RepliesOf(TranscriptOf(s, t), u)| + |SessionReplies(s, a, t, u)| <= 1
  }

  lemma SessionOnReplies(s: Workbench, a: Action, t: ThreadId, u: Option<TurnId>)
    requires a.SessionLoaded?
    ensures RepliesOf(TranscriptOf(Step(s, a), t), u) == RepliesOf(TranscriptOf(s, t), u) + SessionReplies(s, a, t, u)
  {
    if a.threadId == t {
      RepliesAfterSession(TranscriptOf(s, t), a.entries, t, u);
      assert TranscriptOf(Step(s, a), t) == MergeSession(TranscriptOf(s, t), a.entries, t);
    } else {
      assert TranscriptOf(Step(s, a), t) == TranscriptOf(s, t);
    }
  }

  lemma {:induction false} NewRepliesAreReplies(existing: seq<Entry>, session: seq<SessionEntry>, t: ThreadId,
      u: Option<TurnId>)
    ensures forall e <- NewReplies(existing, session, t, u) :: IsReply(e, u)
  {
    if session != [] {
      NewRepliesAreReplies(existing, session[..|session| - 1], t, u);
    }
  }

  lemma LoadedOnReplies(s: Workbench, a: Action, t: ThreadId, u: Option<TurnId>, r: Option<Entry>)
    requires RepliesOf(TranscriptOf(s, t), u) == Listed(r) && a.SessionLoaded? && LeavesOneReply(s, a, t, u)
    ensures RepliesOf(TranscriptOf(Step(s, a), t), u) == Listed(NextReply(r, PartOf(s, a, t, u), t, u))
  {
    var added := SessionReplies(s, a, t, u);
    SessionOnReplies(s, a, t, u);
    SessionRepliesAreReplies(s, a, t, u);
    OneMoreReply(r, added, t, u);
    assert PartOf(s, a, t, u) == RecallOf(added);
  }

  lemma SessionRepliesAreReplies(s: Workbench, a: Action, t: ThreadId, u: Option<TurnId>)
    ensures forall e <- SessionReplies(s, a, t, u) :: IsReply(e, u)
  {
    if a.SessionLoaded? && a.threadId == t {
      NewRepliesAreReplies(TranscriptOf(s, t), a.entries, t, u);
    }
  }

  lemma OneMoreReply(r: Option<Entry>, added: seq<Entry>, t: ThreadId, u: Option<TurnId>)
    requires |Listed(r)| + |added| <= 1 && forall e <- added :: IsReply(e, u)
    ensures Listed(r) + added == Listed(NextReply(r, RecallOf(added), t, u))
  {
    assert added != [] ==> added[0] in added;
  }

  lemma UserMessageOnReplies(s: Workbench, x: ThreadId, content: string, at: Time, t: ThreadId, u: Option<TurnId>)
    ensures RepliesOf(TranscriptOf(Step(s, UserMessageAdded(x, content, at)), t), u) == RepliesOf(TranscriptOf(s, t), u)
  {
    AppendOnReplies(s, x, UserMessage(x, content, at, |TranscriptOf(s, x)|), t, u);
  }

  lemma ErrorOnReplies(s: Workbench, x: ThreadId, message: string, now: Time, t: ThreadId, u: Option<TurnId>)
    ensures RepliesOf(TranscriptOf(Step(s, ThreadError(x, message, now)), t), u) == RepliesOf(TranscriptOf(s, t), u)
  {
    var active := if x in s.runtimes then s.runtimes[x].activeTurnId else None;
    AppendOnReplies(s.(runtimes := s.runtimes[x := Runtime(active, Some(message))]), x, ErrorNote(x, message, now),
        t, u);
  }

  lemma StepOnReplies(s: Workbench, a: Action, t: ThreadId, u: Option<TurnId>, r: Option<Entry>)
    requires RepliesOf(TranscriptOf(s, t), u) == Listed(r) && LeavesOneReply(s, a, t, u)
    ensures RepliesOf(TranscriptOf(Step(s, a), t), u) == Listed(NextReply(r, PartOf(s, a, t, u), t, u))
  {
    match a
    case TurnStarted(turn) => StartOnReplies(s, turn, t, u, r);
    case ServerEvent(e) => EventOnReplies(s, e, t, u, r);
    case UserMessageAdded(x, content, at) => UserMessageOnReplies(s, x, content, at, t, u);
    case ThreadError(x, message, now) => ErrorOnReplies(s, x, message, now, t, u);
    case SessionLoaded(_, _) => LoadedOnReplies(s, a, t, u, r);
    case _ =>
  }

  // ---------------------------------------------------------------------------------------
  // Whole runs
  // ---------------------------------------------------------------------------------------

  /** No loaded session of the run adds a reply to a turn that has one, or two at once. */
  predicate SessionsLeaveOne(actions: seq<Action>, t: ThreadId, u: Option<TurnId>) {
    actions == []
    || (var front, a := actions[..|actions| - 1], actions[|actions| - 1];
        SessionsLeaveOne(front, t, u) && (a.SessionLoaded? ==> LeavesOneReply(Run(front), a, t, u)))
  }

  /**
   However the events of other turns and threads are interleaved, a turn has at most one reply,
   and it is the fold of that turn's own events. A loaded session that adds a reply to one that
   is there is the only exception; see `AtMostOneReplyIff` and `SessionCanAddASecondReply`.
   */
  lemma {:induction false} ReplyIsTheFoldOfItsTurn(actions: seq<Action>, t: ThreadId, u: Option<TurnId>)
    requires SessionsLeaveOne(actions, t, u)
    ensures RepliesOf(TranscriptOf(Run(actions), t), u) == Listed(ReplyOf(Parts(actions, t, u), t, u))
  {
    if actions != [] {
      var front, last := actions[..|actions| - 1], actions[|actions| - 1];
      ReplyIsTheFoldOfItsTurn(front, t, u);
      var parts := Parts(front, t, u);
      StepOnReplies(Run(front), last, t, u, ReplyOf(parts, t, u));
      var p := PartOf(Run(front), last, t, u);
      if p.Some? {
        assert (parts + [p.value])[..|parts|] == parts;
      } else {
        assert Parts(actions, t, u) == parts;
      }
    }
  }

  lemma {:induction false} SameRepliesCount(a: seq<Entry>, b: seq<Entry>, u: Option<TurnId>)
    requires |a| == |b| && forall i | 0 <= i < |a| :: IsReply(a[i], u) <==> IsReply(b[i], u)
    ensures |RepliesOf(a, u)| == |RepliesOf(b, u)|
  {
    if a != [] {
      SameRepliesCount(a[..|a| - 1], b[..|b| - 1], u);
    }
  }

  lemma RepliesExtend(before: seq<Entry>, after: seq<Entry>, u: Option<TurnId>)
    requires Extends(before, after)
    ensures |RepliesOf(before, u)| <= |RepliesOf(after, u)|
  {
    var kept := after[..|before|];
    assert after == kept + after[|before|..];
    RepliesConcat(kept, after[|before|..], u);
    SameRepliesCount(before, kept, u);
  }

  /** No step takes a reply away. */
  lemma RepliesStay(s: Workbench, a: Action, t: ThreadId, u: Option<TurnId>)
    ensures |RepliesOf(TranscriptOf(s, t), u)| <= |RepliesOf(TranscriptOf(Step(s, a), t), u)|
  {
    StepExtends(s, a, t);
    RepliesExtend(TranscriptOf(s, t), TranscriptOf(Step(s, a), t), u);
  }

  /** In every run, a turn has at most one reply exactly when every loaded session left at most one. */
  lemma {:induction false} AtMostOneReplyIff(actions: seq<Action>, t: ThreadId, u: Option<TurnId>)
    ensures |RepliesOf(TranscriptOf(Run(actions), t), u)| <= 1 <==> SessionsLeaveOne(actions, t, u)
  {
    if actions != [] {
      var front, last := actions[..|actions| - 1], actions[|actions| - 1];
      AtMostOneReplyIff(front, t, u);
      RepliesStay(Run(front), last, t, u);
      if SessionsLeaveOne(actions, t, u) {
        ReplyIsTheFoldOfItsTurn(actions, t, u);
      } else if last.SessionLoaded? {
        SessionOnReplies(Run(front), last, t, u);
      }
    }
  }

  /** Two runs with the same events of a turn, in the same order, show the same reply to it. */
  lemma OtherTurnsDoNotMatter(a: seq<Action>, b: seq<Action>, t: ThreadId, u: Option<TurnId>)
    requires SessionsLeaveOne(a, t, u) && SessionsLeaveOne(b, t, u)
    requires Parts(a, t, u) == Parts(b, t, u)
    ensures RepliesOf(TranscriptOf(Run(a), t), u) == RepliesOf(TranscriptOf(Run(b), t), u)
  {
    ReplyIsTheFoldOfItsTurn(a, t, u);
    ReplyIsTheFoldOfItsTurn(b, t, u);
  }

  /** The chunks said, joined. */
  function Said(parts: seq<Part>): string {
    if parts == [] then ""
    else Said(parts[..|parts| - 1]) + if parts[|parts| - 1].Says? then parts[|parts| - 1].text else ""
  }

  /** No completion with a message of its own, and no recorded reply. */
  predicate OnlyStreams(parts: seq<Part>) {
    forall p <- parts :: !p.Recalls? && (p.Completes? ==> p.message == "")
  }

  /** Every recorded part is a reply to the turn, as it is in the parts of a run. */
  predicate RecallsReplies(parts: seq<Part>, u: Option<TurnId>) {
    forall p <- parts :: p.Recalls? ==> IsReply(p.entry, u)
  }

  /** A turn has a reply once anything but its end was seen. */
  lemma {:induction false} ReplyExistsIff(parts: seq<Part>, t: ThreadId, u: Option<TurnId>)
    requires RecallsReplies(parts, u)
    ensures ReplyOf(parts, t, u).Some? <==> exists p <- parts :: !p.Ends?
  {
    if parts != [] {
      var front, last := parts[..|parts| - 1], parts[|parts| - 1];
      assert parts == front + [last];
      assert (exists p <- parts :: !p.Ends?) <==> (exists p <- front :: !p.Ends?) || !last.Ends?;
      ReplyExistsIff(front, t, u);
      assert last in parts;
    }
  }

  function ContentOf(r: Option<Entry>): string {
    if r.Some? then r.value.content else ""
  }

  lemma PartIsAppended(r: Option<Entry>, p: Part, t: ThreadId, u: Option<TurnId>)
    requires !p.Recalls? && (p.Completes? ==> p.message == "") && (r.Some? ==> IsReply(r.value, u))
    ensures ContentOf(AfterPart(r, p, t, u)) == ContentOf(r) + if p.Says? then p.text else ""
    ensures r.Some? ==> AfterPart(r, p, t, u).Some?
  {
  }

  lemma ReplySnoc(parts: seq<Part>, p: Part, t: ThreadId, u: Option<TurnId>)
    ensures ReplyOf(parts + [p], t, u) == AfterPart(ReplyOf(parts, t, u), p, t, u)
  {
    assert (parts + [p])[..|parts|] == parts;
  }

  /** What streams in is appended to whatever the reply was. */
  lemma {:induction false} StreamIsAppended(before: seq<Part>, after: seq<Part>, t: ThreadId, u: Option<TurnId>)
    requires OnlyStreams(after)
    ensures ContentOf(ReplyOf(before + after, t, u)) == ContentOf(ReplyOf(before, t, u)) + Said(after)
    ensures ReplyOf(before, t, u).Some? ==> ReplyOf(before + after, t, u).Some?
    decreases |after|
  {
    if after == [] {
      assert before + after == before;
    } else {
      var front, last := after[..|after| - 1], after[|after| - 1];
      assert before + after == (before + front) + [last];
      assert last in after;
      StreamIsAppended(before, front, t, u);
      ReplySnoc(before + front, last, t, u);
      PartIsAppended(ReplyOf(before + front, t, u), last, t, u);
      ConcatAssociates(ContentOf(ReplyOf(before, t, u)), Said(front), if last.Says? then last.text else "");
    }
  }

  /** Until a completion brings its own message, the reply is the turn's chunks in order. */
  lemma StreamedReplyIsItsChunks(parts: seq<Part>, t: ThreadId, u: Option<TurnId>)
    requires OnlyStreams(parts)
    ensures ContentOf(ReplyOf(parts, t, u)) == Said(parts)
  {
    StreamIsAppended([], parts, t, u);
    assert [] + parts == parts;
  }

  /** A completion's message replaces what was streamed; later chunks are appended to it. */
  lemma MessageReplacesTheStream(
      before: seq<Part>, message: string, at: Time, after: seq<Part>, t: ThreadId, u: Option<TurnId>)
    requires message != "" && OnlyStreams(after)
    ensures var r := ReplyOf(before + [Completes(message, at)] + after, t, u);
      r.Some? && r.value.content == message + Said(after)
  {
    assert (before + [Completes(message, at)])[..|before|] == before;
    StreamIsAppended(before + [Completes(message, at)], after, t, u);
  }

  /** A recorded reply that comes first is the start of what streams in later. */
  lemma RecordedReplyIsContinued(before: seq<Part>, e: Entry, after: seq<Part>, t: ThreadId, u: Option<TurnId>)
    requires (forall p <- before :: p.Ends?) && IsReply(e, u) && OnlyStreams(after)
    ensures var r := ReplyOf(before + [Recalls(e)] + after, t, u);
      r.Some? && r.value.content == e.content + Said(after)
  {
    ReplyExistsIff(before, t, u);
    assert (before + [Recalls(e)])[..|before|] == before;
    StreamIsAppended(before + [Recalls(e)], after, t, u);
  }

  /** The same at the level of runs. */
  lemma StreamedTextIsTheChunksInOrder(actions: seq<Action>, t: ThreadId, u: Option<TurnId>)
    requires SessionsLeaveOne(actions, t, u) && OnlyStreams(Parts(actions, t, u))
    ensures var replies := RepliesOf(TranscriptOf(Run(actions), t), u);
      |replies| <= 1 && forall r <- replies :: r.content == Said(Parts(actions, t, u))
  {
    ReplyIsTheFoldOfItsTurn(actions, t, u);
    StreamedReplyIsItsChunks(Parts(actions, t, u), t, u);
  }

  const NOON := Time("noon", 0)

  const STREAMED_ONCE := ServerEvent(Event("thread", Some("turn"), NOON, ReplyEvent(Chunk("hi", true))))

  const RECORDED := SessionEntry(NOON, "turn_completed", "hi", Some("turn"))

  const STREAMED_REPLY := Assistant("assistant:turn", "thread", Some("turn"), "hi", NOON, Complete)

  lemma StreamedOnceTranscript()
    ensures TranscriptOf(Run([STREAMED_ONCE]), "thread") == [STREAMED_REPLY]
  {
    var reply := NewReply("thread", Some("turn"), NOON);
    assert [STREAMED_ONCE][..0] == [] && [reply][..0] == [];
    assert "assistant:" + "turn" == "assistant:turn" && "" + "hi" == "hi";
    assert EnsureReply([], "thread", Some("turn"), NOON) == [reply];
    assert Run([STREAMED_ONCE]) == Step(INITIAL, STREAMED_ONCE);
  }

  lemma RecordedIsUnknown()
    ensures Unknowns([STREAMED_REPLY], [RECORDED], "thread") == [ProjectSession(RECORDED, "thread")]
  {
    assert STREAMED_REPLY.id[0] == 'a' && ProjectSession(RECORDED, "thread").id[0] == 's';
    assert [RECORDED][..0] == [];
  }

  /** A session records a reply under an id of its own, so it stands beside the streamed one. */
  lemma SessionCanAddASecondReply()
    ensures |RepliesOf(TranscriptOf(Run([STREAMED_ONCE, SessionLoaded("thread", [RECORDED])]), "thread"),
        Some("turn"))| == 2
  {
    var session := SessionLoaded("thread", [RECORDED]);
    var e := ProjectSession(RECORDED, "thread");
    StreamedOnceTranscript();
    RecordedIsUnknown();
    assert [STREAMED_ONCE, session][..1] == [STREAMED_ONCE];
    assert TranscriptOf(Run([STREAMED_ONCE, session]), "thread") == [STREAMED_REPLY] + [e];
    RepliesSnoc([], STREAMED_REPLY, Some("turn"));
    RepliesSnoc([STREAMED_REPLY], e, Some("turn"));
    assert [] + [STREAMED_REPLY] == [STREAMED_REPLY];
  }
}
