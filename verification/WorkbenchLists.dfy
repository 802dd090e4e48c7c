/**
 The web client's keyed lists over whole runs: they keep unique ids, their order, and the last
 value written for each id.
 */
module WorkbenchLists {
  import opened Common
  import opened StableSort
  import opened Threads
  import opened Workbenches
  import opened WorkbenchRecords

  // ---------------------------------------------------------------------------------------
  // Replacing an element by id
  // ---------------------------------------------------------------------------------------

  function Find<T>(s: seq<T>, id: T -> string, x: string): Option<T> {
    if s == [] then None
    else if id(s[0]) == x then Some(s[0])
    else Find(s[1..], id, x)
  }

  lemma {:induction false} FindIsTheOne<T>(s: seq<T>, id: T -> string, x: string)
    requires UniqueBy(s, id)
    ensures forall y <- s :: id(y) == x ==> Find(s, id, x) == Some(y)
    ensures Find(s, id, x).Some? ==> Find(s, id, x).value in s && id(Find(s, id, x).value) == x
  {
    if s != [] {
      FindIsTheOne(s[1..], id, x);
      forall y | y in s && id(y) == x ensures Find(s, id, x) == Some(y) {
        if y != s[0] {
          assert y in s[1..];
        }
      }
    }
  }

  lemma {:induction false} WithoutElement<T>(s: seq<T>, id: T -> string, x: string, y: T)
    ensures y in Without(s, id, x) <==> y in s && id(y) != x
  {
    if s != [] {
      var front, last := s[..|s| - 1], s[|s| - 1];
      assert s == front + [last];
      WithoutElement(front, id, x, y);
    }
  }

  lemma {:induction false} WithoutKeepsUnique<T>(s: seq<T>, id: T -> string, x: string)
    requires UniqueBy(s, id)
    ensures UniqueBy(Without(s, id, x), id)
  {
    if s != [] {
      var front, last := s[..|s| - 1], s[|s| - 1];
      WithoutKeepsUnique(front, id, x);
      forall y | y in Without(front, id, x) ensures id(y) != id(last) {
        WithoutElement(front, id, x, y);
        var j :| 0 <= j < |front| && front[j] == y;
        assert s[j] == y;
      }
    }
  }

  /** `after` is `before` with `y` put in the place of whatever had its id. */
  ghost predicate Replaces<T(!new)>(before: seq<T>, after: seq<T>, id: T -> string, y: T) {
    && UniqueBy(after, id)
    && (forall z :: z in after <==> z == y || (z in before && id(z) != id(y)))
  }

  lemma FindReplaced<T(!new)>(before: seq<T>, after: seq<T>, id: T -> string, y: T, x: string)
    requires UniqueBy(before, id) && Replaces(before, after, id, y)
    ensures Find(after, id, x) == if x == id(y) then Some(y) else Find(before, id, x)
  {
    FindIsTheOne(before, id, x);
    FindIsTheOne(after, id, x);
    assert y in after;
  }

  lemma FindSorted<T>(s: seq<T>, key: T -> int, id: T -> string, x: string)
    requires UniqueBy(s, id)
    ensures Find(Sort(s, key), id, x) == Find(s, id, x)
  {
    SortKeepsUnique(s, key, id);
    SortKeepsElements(s, key);
    FindIsTheOne(s, id, x);
    FindIsTheOne(Sort(s, key), id, x);
  }

  lemma PrependReplaces<T(!new)>(s: seq<T>, id: T -> string, y: T)
    requires UniqueBy(s, id)
    ensures Replaces(s, [y] + Without(s, id, id(y)), id, y)
  {
    forall z ensures z in Without(s, id, id(y)) <==> z in s && id(z) != id(y) {
      WithoutElement(s, id, id(y), z);
    }
    WithoutKeepsUnique(s, id, id(y));
  }

  lemma AppendReplaces<T(!new)>(s: seq<T>, id: T -> string, y: T)
    requires UniqueBy(s, id)
    ensures Replaces(s, Without(s, id, id(y)) + [y], id, y)
  {
    forall z ensures z in Without(s, id, id(y)) <==> z in s && id(z) != id(y) {
      WithoutElement(s, id, id(y), z);
    }
    WithoutKeepsUnique(s, id, id(y));
  }

  lemma SortReplaces<T(!new)>(before: seq<T>, after: seq<T>, key: T -> int, id: T -> string, y: T)
    requires Replaces(before, after, id, y)
    ensures Replaces(before, Sort(after, key), id, y) && SortedBy(Sort(after, key), key)
  {
    SortKeepsUnique(after, key, id);
    SortKeepsElements(after, key);
    SortIsStableSort(after, key);
  }

  // ---------------------------------------------------------------------------------------
  // Which step writes which list
  // ---------------------------------------------------------------------------------------

  function EventThread(e: Event): Option<Thread> {
    if e.payload.ThreadChanged? then Some(e.payload.thread) else None
  }

  /** The single thread an action writes. */
  function ThreadWritten(a: Action): Option<Thread> {
    if a.ThreadUpsert? then Some(a.thread) else if a.ServerEvent? then EventThread(a.event) else None
  }

  function EventApproval(e: Event): Option<Approval> {
    if e.payload.ApprovalEvent? then Some(e.payload.approval) else None
  }

  function ApprovalWritten(a: Action): Option<Approval> {
    if a.ApprovalUpsert? then Some(a.approval) else if a.ServerEvent? then EventApproval(a.event) else None
  }

  lemma EventOnThreads(s: Workbench, e: Event)
    ensures ProjectEvent(s, e).threads
        == if EventThread(e).Some? then UpsertThread(s.threads, EventThread(e).value) else s.threads
  {
  }

  lemma EventOnApprovals(s: Workbench, e: Event)
    ensures ProjectEvent(s, e).approvals
        == if EventApproval(e).Some? then UpsertApproval(s, EventApproval(e).value).approvals else s.approvals
  {
    match e.payload
    case ThreadChanged(_) =>
    case TurnEvent(_, _) =>
    case ReplyEvent(_) =>
    case ToolEvent(_) =>
    case ApprovalEvent(_, _) =>
    case MemoryEvent(_) =>
    case Unknown =>
  }

  lemma EventOnCalls(s: Workbench, e: Event)
    ensures ProjectEvent(s, e).calls
        == if e.payload.ToolEvent? then ProjectTool(s, e, e.payload.tool).calls else s.calls
  {
    match e.payload
    case ThreadChanged(_) =>
    case TurnEvent(_, _) =>
    case ReplyEvent(_) =>
    case ToolEvent(_) =>
    case ApprovalEvent(_, _) =>
    case MemoryEvent(_) =>
    case Unknown =>
  }

  lemma StepOnThreads(s: Workbench, a: Action)
    ensures Step(s, a).threads ==
      if a.ThreadsLoaded? then SortThreads(a.loaded)
      else if ThreadWritten(a).Some? then UpsertThread(s.threads, ThreadWritten(a).value)
      else s.threads
  {
    if a.ServerEvent? {
      EventOnThreads(s, a.event);
    }
  }

  lemma StepOnApprovals(s: Workbench, a: Action)
    ensures Step(s, a).approvals ==
      if ApprovalWritten(a).Some? then UpsertApproval(s, ApprovalWritten(a).value).approvals else s.approvals
  {
    if a.ServerEvent? {
      EventOnApprovals(s, a.event);
    }
  }

  lemma StepOnCalls(s: Workbench, a: Action)
    ensures Step(s, a).calls ==
      if a.ServerEvent? && a.event.payload.ToolEvent? then ProjectTool(s, a.event, a.event.payload.tool).calls
          else s.calls
  {
    if a.ServerEvent? {
      EventOnCalls(s, a.event);
    }
  }

  // ---------------------------------------------------------------------------------------
  // Threads
  // ---------------------------------------------------------------------------------------

  predicate GoodThreads(threads: seq<Thread>) {
    UniqueBy(threads, IdOf) && SortedBy(threads, Staleness)
  }

  /** Every list the server sent held each thread once. */
  predicate UniqueLoads(actions: seq<Action>) {
    forall a <- actions :: a.ThreadsLoaded? ==> UniqueBy(a.loaded, IdOf)
  }

  /** The last value a run wrote for a thread; a loaded list forgets what it leaves out. */
  function LastThread(actions: seq<Action>, x: ThreadId): Option<Thread> {
    if actions == [] then None
    else
      var last := actions[|actions| - 1];
      if last.ThreadsLoaded? then Find(last.loaded, IdOf, x)
      else if ThreadWritten(last).Some? && ThreadWritten(last).value.id == x then ThreadWritten(last)
      else LastThread(actions[..|actions| - 1], x)
  }

  lemma UpsertKeepsGood(threads: seq<Thread>, thread: Thread, x: ThreadId)
    requires GoodThreads(threads)
    ensures GoodThreads(UpsertThread(threads, thread))
    ensures Find(UpsertThread(threads, thread), IdOf, x)
        == if x == thread.id then Some(thread) else Find(threads, IdOf, x)
  {
    var unsorted := [thread] + Without(threads, IdOf, IdOf(thread));
    PrependReplaces(threads, IdOf, thread);
    SortReplaces(threads, unsorted, Staleness, IdOf, thread);
    FindReplaced(threads, UpsertThread(threads, thread), IdOf, thread, x);
  }

  lemma LoadKeepsGood(loaded: seq<Thread>, x: ThreadId)
    requires UniqueBy(loaded, IdOf)
    ensures GoodThreads(SortThreads(loaded)) && Find(SortThreads(loaded), IdOf, x) == Find(loaded, IdOf, x)
  {
    SortKeepsUnique(loaded, Staleness, IdOf);
    SortIsStableSort(loaded, Staleness);
    FindSorted(loaded, Staleness, IdOf, x);
  }

  /**
   Over every run whose loaded lists hold each thread once: thread ids are unique, the list is
   sorted by last update, newest first, and it holds exactly the last value written per thread.
   */
  lemma {:induction false} ThreadListIsLastWritten(actions: seq<Action>, x: ThreadId)
    requires UniqueLoads(actions)
    ensures GoodThreads(Run(actions).threads)
    ensures Find(Run(actions).threads, IdOf, x) == LastThread(actions, x)
  {
    if actions != [] {
      var front, last := actions[..|actions| - 1], actions[|actions| - 1];
      ThreadListIsLastWritten(front, x);
      StepOnThreads(Run(front), last);
      if last.ThreadsLoaded? {
        assert last in actions;
        LoadKeepsGood(last.loaded, x);
      } else if ThreadWritten(last).Some? {
        UpsertKeepsGood(Run(front).threads, ThreadWritten(last).value, x);
      }
    }
  }

  /** A loaded list is stored with unique ids exactly when it came with unique ids. */
  lemma LoadIsUniqueIff(loaded: seq<Thread>)
    ensures UniqueBy(SortThreads(loaded), IdOf) <==> UniqueBy(loaded, IdOf)
  {
    if UniqueBy(loaded, IdOf) {
      SortKeepsUnique(loaded, Staleness, IdOf);
    } else {
      var i, j :| 0 <= i < j < |loaded| && IdOf(loaded[i]) == IdOf(loaded[j]);
      CountIdTwice(loaded, IdOf, i, j);
      CountIdSort(loaded, Staleness, IdOf, IdOf(loaded[i]));
      if UniqueBy(SortThreads(loaded), IdOf) {
        UniqueCountsOnce(SortThreads(loaded), IdOf, IdOf(loaded[i]));
      }
    }
  }

  // ---------------------------------------------------------------------------------------
  // Approvals
  // ---------------------------------------------------------------------------------------

  /** The last approval a run wrote under one id of one thread. */
  function LastApproval(actions: seq<Action>, t: ThreadId, x: string): Option<Approval> {
    if actions == [] then None
    else
      var w := ApprovalWritten(actions[|actions| - 1]);
      if w.Some? && w.value.threadId == t && w.value.id == x then w else LastApproval(actions[..|actions| - 1], t, x)
  }

  /** Over every run: approval ids are unique per thread, and each id shows the last approval written. */
  lemma {:induction false} ApprovalListIsLastWritten(actions: seq<Action>, t: ThreadId, x: string)
    ensures UniqueBy(ApprovalsOf(Run(actions), t), ApprovalId)
    ensures Find(ApprovalsOf(Run(actions), t), ApprovalId, x) == LastApproval(actions, t, x)
  {
    if actions != [] {
      var front, last := actions[..|actions| - 1], actions[|actions| - 1];
      ApprovalListIsLastWritten(front, t, x);
      StepOnApprovals(Run(front), last);
      var w, before := ApprovalWritten(last), ApprovalsOf(Run(front), t);
      if w.Some? && w.value.threadId == t {
        PrependReplaces(before, ApprovalId, w.value);
        FindReplaced(before, ApprovalsOf(Run(actions), t), ApprovalId, w.value, x);
      }
    }
  }

  // ---------------------------------------------------------------------------------------
  // Tool calls
  // ---------------------------------------------------------------------------------------

  predicate GoodCalls(calls: seq<ToolCall>) {
    UniqueBy(calls, CallIdOf) && SortedBy(calls, Created)
  }

  lemma ReviseKeepsKeys(p: ToolPayload, at: Time, c: ToolCall)
    ensures Revise(p, at)(c).callId == c.callId && Revise(p, at)(c).createdAt == c.createdAt
  {
  }

  lemma MapKeepsGood(calls: seq<ToolCall>, id: CallId, p: ToolPayload, at: Time)
    requires GoodCalls(calls)
    ensures GoodCalls(MapCall(calls, id, Revise(p, at)))
  {
    var after := MapCall(calls, id, Revise(p, at));
    forall i | 0 <= i < |calls| ensures after[i].callId == calls[i].callId && after[i].createdAt == calls[i].createdAt {
      ReviseKeepsKeys(p, at, calls[i]);
    }
  }

  lemma ToolKeepsGood(s: Workbench, e: Event, p: ToolPayload)
    requires GoodCalls(CallsOf(s, e.threadId))
    ensures GoodCalls(CallsOf(ProjectTool(s, e, p), e.threadId))
  {
    var calls := CallsOf(s, e.threadId);
    if p.ToolCallStarted? {
      var c := NewCall(e, p.callId, p.toolName, p.summary);
      AppendReplaces(calls, CallIdOf, c);
      SortReplaces(calls, Without(calls, CallIdOf, c.callId) + [c], Created, CallIdOf, c);
    } else {
      var id := CallMeant(calls, e.turnId, p);
      if id.Some? {
        MapKeepsGood(calls, id.value, p, e.createdAt);
      }
    }
  }

  /** Over every run: call ids are unique per thread and calls are sorted by creation. */
  lemma {:induction false} CallListsAreGood(actions: seq<Action>, t: ThreadId)
    ensures GoodCalls(CallsOf(Run(actions), t))
  {
    if actions != [] {
      var front, last := actions[..|actions| - 1], actions[|actions| - 1];
      CallListsAreGood(front, t);
      StepOnCalls(Run(front), last);
      if last.ServerEvent? && last.event.payload.ToolEvent? {
        if last.event.threadId == t {
          ToolKeepsGood(Run(front), last.event, last.event.payload.tool);
        } else {
          var after := ProjectTool(Run(front), last.event, last.event.payload.tool);
          assert RecordsAt(after, t) == RecordsAt(Run(front), t);
          SameRecordsRead(after, Run(front), t);
        }
      }
    }
  }

  /** Position `k` holds the last open call that fits. */
  predicate IsLastOpen(calls: seq<ToolCall>, turn: Option<TurnId>, tool: Option<string>, k: nat) {
    && k < |calls| && IsOpen(calls[k], turn, tool)
    && (forall j | k < j < |calls| :: !IsOpen(calls[j], turn, tool))
  }

  lemma {:induction false} ResolveIsLastOpen(calls: seq<ToolCall>, turn: Option<TurnId>, tool: Option<string>)
    ensures forall k: nat | IsLastOpen(calls, turn, tool, k) :: ResolveCall(calls, turn, tool) == Some(calls[k].callId)
    ensures ResolveCall(calls, turn, tool) == None <==> forall c <- calls :: !IsOpen(c, turn, tool)
  {
    if calls != [] {
      var front, last := calls[..|calls| - 1], calls[|calls| - 1];
      assert calls == front + [last];
      ResolveIsLastOpen(front, turn, tool);
      forall k: nat | IsLastOpen(calls, turn, tool, k) ensures ResolveCall(calls, turn, tool) == Some(calls[k].callId) {
        if k < |front| {
          assert IsLastOpen(front, turn, tool, k);
        }
      }
    }
  }

  /** The name a result carries; executor output carries none. */
  function ResultTool(p: ToolPayload): Option<string>
    requires p.ToolCompleted? || p.ToolFailed? || p.ExecutorOutput?
  {
    if p.ExecutorOutput? then None else Some(p.toolName)
  }

  lemma RevisingOneCall(calls: seq<ToolCall>, k: nat, f: ToolCall -> ToolCall)
    requires UniqueBy(calls, CallIdOf) && k < |calls|
    ensures MapCall(calls, calls[k].callId, f) == calls[k := f(calls[k])]
  {
    assert forall i | 0 <= i < |calls| && i != k :: CallIdOf(calls[i]) != CallIdOf(calls[k]);
  }

  /**
   A result names no call. Over every run it changes exactly one: the last open call it fits,
   provided that call's id is not empty. With no open call it changes nothing.
   */
  lemma ResultGoesToTheLastOpenCall(actions: seq<Action>, e: Event, p: ToolPayload, k: nat)
    requires p.ToolCompleted? || p.ToolFailed? || p.ExecutorOutput?
    ensures var s := Run(actions);
      var calls := CallsOf(s, e.threadId);
      && (IsLastOpen(calls, e.turnId, ResultTool(p), k) ==>
            CallsOf(ProjectTool(s, e, p), e.threadId) ==
              if calls[k].callId == "" then calls else calls[k := Revise(p, e.createdAt)(calls[k])])
      && ((forall c <- calls :: !IsOpen(c, e.turnId, ResultTool(p))) ==> ProjectTool(s, e, p) == s)
  {
    var s := Run(actions);
    var calls := CallsOf(s, e.threadId);
    CallListsAreGood(actions, e.threadId);
    ResolveIsLastOpen(calls, e.turnId, ResultTool(p));
    assert CallMeant(calls, e.turnId, p) == ResolveCall(calls, e.turnId, ResultTool(p));
    if IsLastOpen(calls, e.turnId, ResultTool(p), k) {
      RevisingOneCall(calls, k, Revise(p, e.createdAt));
    }
  }
}
