/**
 What the calls and the events of background shell tasks do to any state a run may have led to
 (crates/liz-app-server/src/executor/shell.rs).
 */
module ShellEvents {
  import opened Common
  import opened ShellTasks

  // ---------------------------------------------------------------------------------------
  // The banner
  // ---------------------------------------------------------------------------------------

  /** The text of a mode, of a backend and of a network access. */
  lemma Names()
    ensures ModeName(ReadOnly) == "read-only" && ModeName(WorkspaceWrite) == "workspace-write"
    ensures ModeName(DangerFullAccess) == "danger-full-access" && ModeName(ExternalSandbox) == "external-sandbox"
    ensures BackendName(NoBackend) == "none" && BackendName(MacosSeatbelt) == "macos-seatbelt"
    ensures BackendName(LinuxHelper) == "linux-helper"
    ensures BackendName(WindowsRestrictedToken) == "windows-restricted-token"
    ensures BackendName(WindowsSandboxUser) == "windows-sandbox-user"
    ensures NetworkName(Disabled) == "disabled" && NetworkName(Restricted) == "restricted"
    ensures NetworkName(Enabled) == "enabled"
  {
  }

  /** The stdout of a read-only or workspace-write task starts with the banner, any other is the plain text. */
  lemma BannerStandsInFront(s: Sandbox, body: string)
    requires body != ""
    ensures Buffered(s, body)
         == if s.mode == ReadOnly || s.mode == WorkspaceWrite then
              "[sandbox mode=" + ModeName(s.mode) + " backend=" + BackendName(s.backend)
              + " network=" + NetworkName(s.network) + "]\n" + body
            else body
    ensures Buffered(s, "") == ""
  {
  }

  // ---------------------------------------------------------------------------------------
  // The child and its pipes
  // ---------------------------------------------------------------------------------------

  /** All other tasks, the calls and the replies stay. */
  ghost predicate OnlyTask(x: Executor, y: Executor, id: TaskId) {
    && id in x.tasks && id in y.tasks
    && y == x.(tasks := x.tasks[id := y.tasks[id]])
  }

  /** A spawned task has a name of its own, runs, has written nothing and is not in the table yet. */
  lemma SpawnDoes(events: seq<Event>, nanos: nat, sandbox: Sandbox)
    ensures var x, y := Run(events), Run(events + [Spawn(nanos, sandbox)]);
      var id := TaskId(nanos, x.sequence + 1);
      && id !in x.tasks && id in y.tasks
      && y == x.(sequence := x.sequence + 1, tasks := x.tasks[id := y.tasks[id]])
      && var t := y.tasks[id];
      && t.state == ShellState(sandbox, "", "", 0, 0, None) && t.child == Running && !t.registered
      && t.outPipe == Pipe("", "", true) && t.errPipe == Pipe("", "", true)
      && t.writtenOut == "" && t.writtenErr == ""
  {
    RunKeepsInv(events);
    RunSnoc(events, Spawn(nanos, sandbox));
  }

  /** It enters the table when no call holds it. */
  lemma RegisterDoes(events: seq<Event>, id: TaskId)
    requires id in Run(events).tasks
    ensures var x, y := Run(events), Run(events + [Register(id)]);
      if x.control == Idle then
        OnlyTask(x, y, id) && y.tasks[id] == x.tasks[id].(registered := true)
      else y == x
  {
    RunSnoc(events, Register(id));
  }

  /** A running child exits with its code, once. */
  lemma ExitDoes(events: seq<Event>, id: TaskId, code: Option<int>)
    requires id in Run(events).tasks
    ensures var x, y := Run(events), Run(events + [ChildExits(id, code)]);
      if x.tasks[id].child == Running then
        OnlyTask(x, y, id) && y.tasks[id] == x.tasks[id].(child := Exited(code))
      else y == x
  {
    RunSnoc(events, ChildExits(id, code));
  }

  /** What is written goes to the end of its pipe. */
  lemma WriteDoes(events: seq<Event>, id: TaskId, text: string)
    requires id in Run(events).tasks
    ensures var x := Run(events);
      var out, err := Run(events + [Write(id, Stdout, text)]), Run(events + [Write(id, Stderr, text)]);
      var t := x.tasks[id];
      && OnlyTask(x, out, id) && OnlyTask(x, err, id)
      && out.tasks[id]
         == t.(writtenOut := t.writtenOut + text, outPipe := t.outPipe.(unread := t.outPipe.unread + text))
      && err.tasks[id]
         == t.(writtenErr := t.writtenErr + text, errPipe := t.errPipe.(unread := t.errPipe.unread + text))
  {
    RunSnoc(events, Write(id, Stdout, text));
    RunSnoc(events, Write(id, Stderr, text));
  }

  /** A read takes up to 4096 characters from the front of an open pipe, if the reader holds none. */
  ghost predicate CanTake(pipe: Pipe, count: nat) {
    pipe.open && pipe.held == "" && 0 < count <= 4096 && count <= |pipe.unread|
  }

  lemma ReadOfPipeDoes(events: seq<Event>, id: TaskId, count: nat)
    requires id in Run(events).tasks
    ensures var x := Run(events);
      var out, err := Run(events + [Pull(id, Stdout, count)]), Run(events + [Pull(id, Stderr, count)]);
      var t := x.tasks[id];
      && (if CanTake(t.outPipe, count) then
            OnlyTask(x, out, id)
            && out.tasks[id] == t.(outPipe := Pipe(t.outPipe.unread[count..], t.outPipe.unread[..count], true))
          else out == x)
      && (if CanTake(t.errPipe, count) then
            OnlyTask(x, err, id)
            && err.tasks[id] == t.(errPipe := Pipe(t.errPipe.unread[count..], t.errPipe.unread[..count], true))
          else err == x)
  {
    RunSnoc(events, Pull(id, Stdout, count));
    RunSnoc(events, Pull(id, Stderr, count));
  }

  lemma BufferIsPushed(events: seq<Event>, id: TaskId)
    requires id in Run(events).tasks
    ensures TaskInv(Run(events).tasks[id])
  {
    RunKeepsInv(events);
  }

  /** The reader puts what it holds behind what is buffered, and the banner in front of the first chunk. */
  lemma PushDoes(events: seq<Event>, id: TaskId)
    requires id in Run(events).tasks
    requires Run(events).tasks[id].outPipe.held != "" && Run(events).tasks[id].errPipe.held != ""
    ensures var x := Run(events);
      var out, err := Run(events + [Push(id, Stdout)]), Run(events + [Push(id, Stderr)]);
      var t := x.tasks[id];
      && OnlyTask(x, out, id) && OnlyTask(x, err, id)
      && out.tasks[id]
         == t.(outPipe := t.outPipe.(held := ""),
               state := t.state.(stdout := if t.state.stdout == "" then Buffered(t.state.sandbox, t.outPipe.held)
                                           else t.state.stdout + t.outPipe.held))
      && err.tasks[id]
         == t.(errPipe := t.errPipe.(held := ""), state := t.state.(stderr := t.state.stderr + t.errPipe.held))
  {
    RunSnoc(events, Push(id, Stdout));
    RunSnoc(events, Push(id, Stderr));
  }

  /** A reader that holds nothing may stop reading for good. */
  lemma CloseDoes(events: seq<Event>, id: TaskId)
    requires id in Run(events).tasks
    requires Run(events).tasks[id].outPipe.held == "" && Run(events).tasks[id].errPipe.held == ""
    ensures var x := Run(events);
      var out, err := Run(events + [CloseReader(id, Stdout)]), Run(events + [CloseReader(id, Stderr)]);
      var t := x.tasks[id];
      && OnlyTask(x, out, id) && out.tasks[id] == t.(outPipe := t.outPipe.(open := false))
      && OnlyTask(x, err, id) && err.tasks[id] == t.(errPipe := t.errPipe.(open := false))
  {
    RunSnoc(events, CloseReader(id, Stdout));
    RunSnoc(events, CloseReader(id, Stderr));
  }

  // ---------------------------------------------------------------------------------------
  // The calls
  // ---------------------------------------------------------------------------------------

  /** The task is in the table. */
  predicate InTable(x: Executor, id: TaskId) {
    id in x.tasks && x.tasks[id].registered
  }

  function NotFound(x: Executor, id: TaskId): Executor {
    x.(replies := x.replies + [NotFoundReply(id)])
  }

  lemma ReadBegins(x: Executor, id: TaskId, probeOk: bool)
    ensures x.control != Idle ==> Step(x, BeginRead(id, probeOk)) == x
    ensures x.control == Idle && !InTable(x, id) ==> Step(x, BeginRead(id, probeOk)) == NotFound(x, id)
    ensures x.control == Idle && InTable(x, id) ==> Step(x, BeginRead(id, probeOk)).control == Draining(id)
  {
  }

  lemma WaitBegins(x: Executor, id: TaskId)
    ensures Step(x, BeginWait(id))
         == if x.control != Idle then x
            else if InTable(x, id) then x.(control := Waiting(id))
            else NotFound(x, id)
  {
  }

  lemma TerminateBegins(x: Executor, id: TaskId)
    ensures Step(x, BeginTerminate(id))
         == if x.control != Idle then x
            else if InTable(x, id) then x.(control := Reaping(id))
            else NotFound(x, id)
  {
  }

  /** While a call holds the table no other begins, and a task that is not in it is not found. */
  lemma CallsBeginIff(events: seq<Event>, id: TaskId, probeOk: bool)
    ensures var x := Run(events);
      var r, w, t := Run(events + [BeginRead(id, probeOk)]), Run(events + [BeginWait(id)]),
                     Run(events + [BeginTerminate(id)]);
      if x.control != Idle then r == x && w == x && t == x
      else if !InTable(x, id) then
        r == NotFound(x, id) && w == NotFound(x, id) && t == NotFound(x, id)
      else
        && r.control == Draining(id) && w == x.(control := Waiting(id)) && t == x.(control := Reaping(id))
  {
    RunSnoc(events, BeginRead(id, probeOk));
    RunSnoc(events, BeginWait(id));
    RunSnoc(events, BeginTerminate(id));
    ReadBegins(Run(events), id, probeOk);
    WaitBegins(Run(events), id);
    TerminateBegins(Run(events), id);
  }

  lemma RunThree(events: seq<Event>, a: Event, b: Event, c: Event)
    ensures Run(events + [a, b, c]) == Step(Step(Step(Run(events), a), b), c)
  {
    assert events + [a, b, c] == events + [a] + [b] + [c];
    RunSnoc(events, a);
    RunSnoc(events + [a], b);
    RunSnoc(events + [a] + [b], c);
  }

  /** `wait` on an exited child names its code, shows both buffers in full and lets the table go. */
  lemma WaitDoes(events: seq<Event>, id: TaskId)
    requires Run(events).control == Idle && InTable(Run(events), id) && Run(events).tasks[id].child.Exited?
    ensures var x := Run(events);
      var y := Run(events + [BeginWait(id), WaitReturns(true), FinishWait]);
      var s := x.tasks[id].state;
      && y.control == Idle && |y.replies| == |x.replies| + 1
      && var r := y.replies[|x.replies|];
      && r.WaitReply? && r.id == id && r.stdout == s.stdout && r.stderr == s.stderr
      && r.exitCode.Some? && IsStatus(x.tasks[id].child, r.exitCode.value)
      && id in y.tasks && y.tasks[id].state == s.(exitCode := r.exitCode)
  {
    RunThree(events, BeginWait(id), WaitReturns(true), FinishWait);
    ReportedIsStatus(Run(events).tasks[id].child);
  }

  /** `terminate`, once the child is reaped, names and records its code and lets the table go. */
  lemma TerminateDoes(events: seq<Event>, id: TaskId)
    requires Run(events).control == Idle && InTable(Run(events), id) && Run(events).tasks[id].child.Exited?
    ensures var x := Run(events);
      var y := Run(events + [BeginTerminate(id), ReapReturns(true), FinishTerminate]);
      && y.control == Idle && |y.replies| == |x.replies| + 1
      && var r := y.replies[|x.replies|];
      && r.TerminateReply? && r.id == id
      && r.exitCode.Some? && IsStatus(x.tasks[id].child, r.exitCode.value)
      && id in y.tasks && y.tasks[id].state == x.tasks[id].state.(exitCode := r.exitCode)
  {
    RunThree(events, BeginTerminate(id), ReapReturns(true), FinishTerminate);
    ReportedIsStatus(Run(events).tasks[id].child);
  }

  /** A failing system call ends `wait` and `terminate` with an error, and nothing changes. */
  lemma FailedCallsDo(events: seq<Event>)
    ensures var x := Run(events);
      && (x.control.Waiting? ==>
            Run(events + [WaitReturns(false)])
            == x.(control := Idle, replies := x.replies + [WaitFailedReply(x.control.id)]))
      && (x.control.Reaping? ==>
            Run(events + [ReapReturns(false)])
            == x.(control := Idle, replies := x.replies + [WaitFailedReply(x.control.id)]))
  {
    if Run(events).control != Idle {
      HeldTaskExists(events);
    }
    RunSnoc(events, WaitReturns(false));
    RunSnoc(events, ReapReturns(false));
  }

  /** `read_output` hands out what is new, marks it delivered and lets the table go. */
  lemma ReadDoes(events: seq<Event>)
    requires Run(events).control.Draining?
    ensures var x, y := Run(events), Run(events + [FinishRead]);
      var id := x.control.id;
      && id in x.tasks && x.tasks[id].state.Valid()
      && var s := x.tasks[id].state;
      && y == x.(control := Idle,
                 tasks := x.tasks[id := x.tasks[id].(state :=
                   s.(deliveredStdout := |s.stdout|, deliveredStderr := |s.stderr|))],
                 replies := x.replies + [ReadReply(id, s.exitCode, s.stdout[s.deliveredStdout..],
                                                   s.stderr[s.deliveredStderr..])])
  {
    HeldTaskExists(events);
    BufferIsPushed(events, Run(events).control.id);
    RunSnoc(events, FinishRead);
  }
}
