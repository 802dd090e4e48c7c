/**
 Background shell tasks (crates/liz-app-server/src/executor/shell.rs).

 `BackgroundShellState` is the record behind the per-task mutex; each of its methods is one
 critical section. `Executor` is the whole protocol: two reader threads per task, the child
 process, and the calls `read_output`, `wait` and `terminate`, interleaved one critical
 section at a time. A reader takes text out of its pipe without a lock, and puts it into the
 buffer in a critical section of its own.
 */
module ShellTasks {
  import opened Common

  datatype SandboxMode = ReadOnly | WorkspaceWrite | DangerFullAccess | ExternalSandbox
  datatype NetworkAccess = Disabled | Restricted | Enabled
  datatype Backend = NoBackend | MacosSeatbelt | LinuxHelper | WindowsRestrictedToken | WindowsSandboxUser
  datatype Sandbox = Sandbox(mode: SandboxMode, backend: Backend, network: NetworkAccess)

  function ModeName(mode: SandboxMode): string {
    match mode
    case ReadOnly => "read-only"
    case WorkspaceWrite => "workspace-write"
    case DangerFullAccess => "danger-full-access"
    case ExternalSandbox => "external-sandbox"
  }

  function BackendName(backend: Backend): string {
    match backend
    case NoBackend => "none"
    case MacosSeatbelt => "macos-seatbelt"
    case LinuxHelper => "linux-helper"
    case WindowsRestrictedToken => "windows-restricted-token"
    case WindowsSandboxUser => "windows-sandbox-user"
  }

  function NetworkName(network: NetworkAccess): string {
    match network
    case Disabled => "disabled"
    case Restricted => "restricted"
    case Enabled => "enabled"
  }

  /** The modes that run the command directly and get no banner. */
  predicate Direct(sandbox: Sandbox) {
    sandbox.mode == DangerFullAccess || sandbox.mode == ExternalSandbox
  }

  function Banner(sandbox: Sandbox): (banner: string)
    ensures banner != ""
  {
    "[sandbox mode=" + ModeName(sandbox.mode) + " backend=" + BackendName(sandbox.backend)
    + " network=" + NetworkName(sandbox.network) + "]\n"
  }

  /** The stdout of a foreground command. */
  function DecorateStdout(sandbox: Sandbox, stdout: string): string {
    if Direct(sandbox) then stdout else Banner(sandbox) + stdout
  }

  // ---------------------------------------------------------------------------------------
  // The mutex-guarded record
  // ---------------------------------------------------------------------------------------

  datatype ShellState = ShellState(
    sandbox: Sandbox,
    stdout: string,
    stderr: string,
    deliveredStdout: nat,
    deliveredStderr: nat,
    exitCode: Option<int>)
  {
    predicate Valid() {
      deliveredStdout <= |stdout| && deliveredStderr <= |stderr|
    }
  }

  function Fresh(sandbox: Sandbox): ShellState {
    ShellState(sandbox, "", "", 0, 0, None)
  }

  function AppendOut(s: ShellState, chunk: string): ShellState {
    var start := if s.stdout == "" && !Direct(s.sandbox) then Banner(s.sandbox) else s.stdout;
    s.(stdout := start + chunk)
  }

  function AppendErr(s: ShellState, chunk: string): ShellState {
    s.(stderr := s.stderr + chunk)
  }

  function Drained(s: ShellState): ShellState {
    s.(deliveredStdout := |s.stdout|, deliveredStderr := |s.stderr|)
  }

  class BackgroundShellState {
    const sandbox: Sandbox
    var stdout: string
    var stderr: string
    var deliveredStdoutLen: nat
    var deliveredStderrLen: nat
    var exitCode: Option<int>

    function View(): ShellState
      reads this
    {
      ShellState(sandbox, stdout, stderr, deliveredStdoutLen, deliveredStderrLen, exitCode)
    }

    constructor (sandbox: Sandbox)
      ensures View() == Fresh(sandbox)
    {
      this.sandbox := sandbox;
      stdout, stderr := "", "";
      deliveredStdoutLen, deliveredStderrLen := 0, 0;
      exitCode := None;
    }

    /** One iteration of the stdout reader after a non-empty read. */
    method PushStdout(chunk: string)
      modifies this
      ensures View() == AppendOut(old(View()), chunk)
    {
      var start := stdout;
      if stdout == "" && !Direct(sandbox) {
        start := Banner(sandbox);
      }
      stdout := start + chunk;
    }

    method PushStderr(chunk: string)
      modifies this
      ensures View() == AppendErr(old(View()), chunk)
    {
      stderr := stderr + chunk;
    }

    /** The second critical section of `read_output`: hand out what is new and mark it delivered. */
    method TakeDeltas() returns (stdoutDelta: string, stderrDelta: string)
      requires View().Valid()
      modifies this
      ensures View() == Drained(old(View())) && View().Valid()
      ensures old(stdout[..deliveredStdoutLen]) + stdoutDelta == stdout
      ensures old(stderr[..deliveredStderrLen]) + stderrDelta == stderr
    {
      stdoutDelta := stdout[deliveredStdoutLen..];
      stderrDelta := stderr[deliveredStderrLen..];
      deliveredStdoutLen := |stdout|;
      deliveredStderrLen := |stderr|;
    }

    method RecordExit(code: int)
      modifies this
      ensures View() == old(View()).(exitCode := Some(code))
    {
      exitCode := Some(code);
    }

    /** The last critical section of `terminate`: a reaped code wins over the recorded one. */
    method RecordTermination(reaped: Option<int>) returns (code: Option<int>)
      modifies this
      ensures View() == old(View()).(exitCode := code)
      ensures code == if reaped.Some? then reaped else old(exitCode)
    {
      exitCode := if reaped.Some? then reaped else exitCode;
      code := exitCode;
    }
  }

  // ---------------------------------------------------------------------------------------
  // The protocol
  // ---------------------------------------------------------------------------------------

  /** `executor_{nanos:x}_{sequence}`: the sequence number makes it unique. */
  datatype TaskId = TaskId(nanos: nat, sequence: nat)

  datatype Stream = Stdout | Stderr

  /** A child exits once; `code` is absent when a signal ended it. */
  datatype Child = Running | Exited(code: Option<int>)

  function ReportedCode(code: Option<int>): int {
    code.Or(-1)
  }

  /**
   Text written by the process and not yet read, the chunk the reader thread has read and not yet
   put into the buffer, and whether the reader still reads.
   */
  datatype Pipe = Pipe(unread: string, held: string, open: bool)

  const NEW_PIPE := Pipe("", "", true)

  /** All that was written through the pipe has reached the buffer. */
  predicate CaughtUp(pipe: Pipe) {
    pipe.unread == "" && pipe.held == ""
  }

  /** `written*` records all the process ever wrote; no step of the runtime looks at it. */
  datatype Task = Task(
    state: ShellState,
    child: Child,
    outPipe: Pipe,
    errPipe: Pipe,
    registered: bool,
    writtenOut: string,
    writtenErr: string)

  /** Where the one call that holds the task-table mutex stands. */
  datatype Control =
    | Idle
    | Draining(id: TaskId)             // read_output, exit code probed
    | Waiting(id: TaskId)              // wait, blocked on the child
    | Reporting(id: TaskId)            // wait, exit code recorded
    | Reaping(id: TaskId)              // terminate, child killed
    | Storing(id: TaskId, code: int)   // terminate, child reaped

  datatype Reply =
    | ReadReply(id: TaskId, exitCode: Option<int>, stdoutDelta: string, stderrDelta: string)
    | WaitReply(id: TaskId, exitCode: Option<int>, stdout: string, stderr: string)
    | TerminateReply(id: TaskId, exitCode: Option<int>)
    | NotFoundReply(id: TaskId)
    | WaitFailedReply(id: TaskId)

  datatype Executor = Executor(tasks: map<TaskId, Task>, sequence: nat, control: Control, replies: seq<Reply>)

  datatype Event =
    | Spawn(nanos: nat, sandbox: Sandbox)
    | Register(id: TaskId)
    | Write(id: TaskId, stream: Stream, text: string)
    | Pull(id: TaskId, stream: Stream, count: nat)   // a reader's read returns
    | Push(id: TaskId, stream: Stream)               // the reader fills the buffer
    | CloseReader(id: TaskId, stream: Stream)
    | ChildExits(id: TaskId, code: Option<int>)
    | BeginRead(id: TaskId, probeOk: bool)
    | FinishRead
    | BeginWait(id: TaskId)
    | WaitReturns(ok: bool)
    | FinishWait
    | BeginTerminate(id: TaskId)
    | ReapReturns(ok: bool)
    | FinishTerminate

  const READ_BUFFER_SIZE := 4096

  const INITIAL := Executor(map[], 0, Idle, [])

  predicate Known(x: Executor, id: TaskId) {
    id in x.tasks && x.tasks[id].registered
  }

  function PipeOf(t: Task, stream: Stream): Pipe {
    if stream == Stdout then t.outPipe else t.errPipe
  }

  /** What can happen next. The three calls take the table mutex for their whole duration. */
  predicate Possible(x: Executor, e: Event) {
    match e
    case Spawn(_, _) => true
    case Register(id) => x.control == Idle && id in x.tasks
    case Write(id, _, text) => id in x.tasks
    case Pull(id, stream, count) =>
      id in x.tasks && PipeOf(x.tasks[id], stream).open && PipeOf(x.tasks[id], stream).held == ""
      && 0 < count <= READ_BUFFER_SIZE && count <= |PipeOf(x.tasks[id], stream).unread|
    case Push(id, stream) => id in x.tasks && PipeOf(x.tasks[id], stream).held != ""
    case CloseReader(id, stream) => id in x.tasks && PipeOf(x.tasks[id], stream).held == ""
    case ChildExits(id, _) => id in x.tasks && x.tasks[id].child.Running?
    case BeginRead(_, _) => x.control == Idle
    case BeginWait(_) => x.control == Idle
    case BeginTerminate(_) => x.control == Idle
    case FinishRead => x.control.Draining? && x.control.id in x.tasks && x.tasks[x.control.id].state.Valid()
    case WaitReturns(ok) => x.control.Waiting? && x.control.id in x.tasks
        && (ok ==> x.tasks[x.control.id].child.Exited?)
    case FinishWait => x.control.Reporting? && x.control.id in x.tasks
    case ReapReturns(ok) => x.control.Reaping? && x.control.id in x.tasks
        && (ok ==> x.tasks[x.control.id].child.Exited?)
    case FinishTerminate => x.control.Storing? && x.control.id in x.tasks
  }

  function WithTask(x: Executor, id: TaskId, t: Task): Executor {
    x.(tasks := x.tasks[id := t])
  }

  function Answer(x: Executor, r: Reply): Executor {
    x.(control := Idle, replies := x.replies + [r])
  }

  function WriteTo(t: Task, stream: Stream, text: string): Task {
    match stream
    case Stdout => t.(outPipe := t.outPipe.(unread := t.outPipe.unread + text), writtenOut := t.writtenOut + text)
    case Stderr => t.(errPipe := t.errPipe.(unread := t.errPipe.unread + text), writtenErr := t.writtenErr + text)
  }

  function Pulled(pipe: Pipe, count: nat): Pipe
    requires count <= |pipe.unread|
  {
    pipe.(held := pipe.unread[..count], unread := pipe.unread[count..])
  }

  function PullFrom(t: Task, stream: Stream, count: nat): Task
    requires count <= |PipeOf(t, stream).unread|
  {
    match stream
    case Stdout => t.(outPipe := Pulled(t.outPipe, count))
    case Stderr => t.(errPipe := Pulled(t.errPipe, count))
  }

  function PushTo(t: Task, stream: Stream): Task {
    match stream
    case Stdout => t.(outPipe := t.outPipe.(held := ""), state := AppendOut(t.state, t.outPipe.held))
    case Stderr => t.(errPipe := t.errPipe.(held := ""), state := AppendErr(t.state, t.errPipe.held))
  }

  function CloseFor(t: Task, stream: Stream): Task {
    match stream
    case Stdout => t.(outPipe := t.outPipe.(open := false))
    case Stderr => t.(errPipe := t.errPipe.(open := false))
  }

  function WithExit(t: Task): Task
    requires t.child.Exited?
  {
    t.(state := t.state.(exitCode := Some(ReportedCode(t.child.code))))
  }

  function NextRead(id: TaskId, s: ShellState): Reply
    requires s.Valid()
  {
    ReadReply(id, s.exitCode, s.stdout[s.deliveredStdout..], s.stderr[s.deliveredStderr..])
  }

  function FullOutput(id: TaskId, s: ShellState): Reply {
    WaitReply(id, s.exitCode, s.stdout, s.stderr)
  }

  function Step(x: Executor, e: Event): Executor {
    if !Possible(x, e) then x else
    match e
    case Spawn(nanos, sandbox) =>
      WithTask(x, TaskId(nanos, x.sequence + 1),
               Task(Fresh(sandbox), Running, NEW_PIPE, NEW_PIPE, false, "", ""))
      .(sequence := x.sequence + 1)
    case Register(id) => WithTask(x, id, x.tasks[id].(registered := true))
    case Write(id, stream, text) => WithTask(x, id, WriteTo(x.tasks[id], stream, text))
    case Pull(id, stream, count) => WithTask(x, id, PullFrom(x.tasks[id], stream, count))
    case Push(id, stream) => WithTask(x, id, PushTo(x.tasks[id], stream))
    case CloseReader(id, stream) => WithTask(x, id, CloseFor(x.tasks[id], stream))
    case ChildExits(id, code) => WithTask(x, id, x.tasks[id].(child := Exited(code)))
    case BeginRead(id, probeOk) =>
      if !Known(x, id) then Answer(x, NotFoundReply(id))
      else if probeOk && x.tasks[id].child.Exited? then WithTask(x, id, WithExit(x.tasks[id])).(control := Draining(id))
      else x.(control := Draining(id))
    case FinishRead =>
      var id := x.control.id;
      var s := x.tasks[id].state;
      Answer(WithTask(x, id, x.tasks[id].(state := Drained(s))),
             NextRead(id, s))
    case BeginWait(id) =>
      if Known(x, id) then x.(control := Waiting(id)) else Answer(x, NotFoundReply(id))
    case WaitReturns(ok) =>
      var id := x.control.id;
      if ok then WithTask(x, id, WithExit(x.tasks[id])).(control := Reporting(id))
      else Answer(x, WaitFailedReply(id))
    case FinishWait =>
      var id := x.control.id;
      var s := x.tasks[id].state;
      Answer(x, FullOutput(id, s))
    case BeginTerminate(id) =>
      if Known(x, id) then x.(control := Reaping(id)) else Answer(x, NotFoundReply(id))
    case ReapReturns(ok) =>
      var id := x.control.id;
      if ok then x.(control := Storing(id, ReportedCode(x.tasks[id].child.code)))
      else Answer(x, WaitFailedReply(id))
    case FinishTerminate =>
      var id := x.control.id;
      var t := x.tasks[id];
      Answer(WithTask(x, id, t.(state := t.state.(exitCode := Some(x.control.code)))),
             TerminateReply(id, Some(x.control.code)))
  }

  /** The executor after a whole run; an impossible event changes nothing. */
  function Run(events: seq<Event>): Executor {
    RunFrom(INITIAL, events)
  }

  function RunFrom(x: Executor, events: seq<Event>): Executor {
    if events == [] then x else Step(RunFrom(x, events[..|events| - 1]), events[|events| - 1])
  }

  // ---------------------------------------------------------------------------------------
  // What the callers saw
  // ---------------------------------------------------------------------------------------

  /** All stdout handed out by `read_output` for one task, in reply order. */
  function OutDelivered(replies: seq<Reply>, id: TaskId): string {
    if replies == [] then ""
    else
      var r := replies[|replies| - 1];
      OutDelivered(replies[..|replies| - 1], id)
      + if r.ReadReply? && r.id == id then r.stdoutDelta else ""
  }

  function ErrDelivered(replies: seq<Reply>, id: TaskId): string {
    if replies == [] then ""
    else
      var r := replies[|replies| - 1];
      ErrDelivered(replies[..|replies| - 1], id)
      + if r.ReadReply? && r.id == id then r.stderrDelta else ""
  }

  /** The stdout buffer once `body` has been pushed: no banner before the first chunk. */
  function Buffered(sandbox: Sandbox, body: string): string {
    if body == "" then "" else DecorateStdout(sandbox, body)
  }

  /** What the reader has put into the buffer so far. */
  function Consumed(written: string, pipe: Pipe): string {
    var behind := |pipe.held| + |pipe.unread|;
    if behind <= |written| then written[..|written| - behind] else ""
  }

  ghost predicate Conserved(written: string, pipe: Pipe) {
    Consumed(written, pipe) + pipe.held + pipe.unread == written
  }

  ghost predicate TaskInv(t: Task) {
    && t.state.Valid()
    && Conserved(t.writtenOut, t.outPipe)
    && Conserved(t.writtenErr, t.errPipe)
    && t.state.stdout == Buffered(t.state.sandbox, Consumed(t.writtenOut, t.outPipe))
    && t.state.stderr == Consumed(t.writtenErr, t.errPipe)
    && (t.state.exitCode.Some? ==> t.child.Exited? && t.state.exitCode.value == ReportedCode(t.child.code))
  }

  ghost predicate DeliveredInv(x: Executor, id: TaskId)
    requires id in x.tasks && x.tasks[id].state.Valid()
  {
    var s := x.tasks[id].state;
    && OutDelivered(x.replies, id) == s.stdout[..s.deliveredStdout]
    && ErrDelivered(x.replies, id) == s.stderr[..s.deliveredStderr]
  }

  ghost predicate ControlInv(x: Executor) {
    match x.control
    case Idle => true
    case Storing(id, code) => id in x.tasks && x.tasks[id].child.Exited? && code == ReportedCode(x.tasks[id].child.code)
    case Reporting(id) => id in x.tasks && x.tasks[id].state.exitCode.Some?
    case Draining(id) => id in x.tasks
    case Waiting(id) => id in x.tasks
    case Reaping(id) => id in x.tasks
  }

  ghost predicate Inv(x: Executor) {
    && (forall id <- x.tasks :: id.sequence <= x.sequence && TaskInv(x.tasks[id]) && DeliveredInv(x, id))
    && ControlInv(x)
    && (forall r <- x.replies | r.ReadReply? :: r.id in x.tasks)
  }

  lemma {:induction false} NothingDelivered(replies: seq<Reply>, id: TaskId)
    requires forall r <- replies | r.ReadReply? :: r.id != id
    ensures OutDelivered(replies, id) == "" && ErrDelivered(replies, id) == ""
  {
    if replies != [] {
      NothingDelivered(replies[..|replies| - 1], id);
    }
  }

  lemma AnswerDelivers(replies: seq<Reply>, r: Reply, id: TaskId)
    ensures OutDelivered(replies + [r], id)
         == OutDelivered(replies, id) + if r.ReadReply? && r.id == id then r.stdoutDelta else ""
    ensures ErrDelivered(replies + [r], id)
         == ErrDelivered(replies, id) + if r.ReadReply? && r.id == id then r.stderrDelta else ""
  {
    assert (replies + [r])[..|replies|] == replies;
  }

  /** `t` shows what was delivered of `s`, and knows an exit code if `s` does. */
  predicate KeepsDelivered(s: ShellState, t: ShellState)
    requires s.Valid() && t.Valid()
  {
    && t.deliveredStdout == s.deliveredStdout && t.deliveredStderr == s.deliveredStderr
    && t.stdout[..t.deliveredStdout] == s.stdout[..s.deliveredStdout]
    && t.stderr[..t.deliveredStderr] == s.stderr[..s.deliveredStderr]
    && (s.exitCode.Some? ==> t.exitCode.Some?)
  }

  lemma ReplacedTaskIsDelivered(x: Executor, id: TaskId, t: Task)
    requires id in x.tasks && TaskInv(x.tasks[id]) && DeliveredInv(x, id)
    requires TaskInv(t) && KeepsDelivered(x.tasks[id].state, t.state)
    ensures DeliveredInv(WithTask(x, id, t), id)
  {
  }

  lemma ReplaceKeepsControl(x: Executor, id: TaskId, t: Task)
    requires ControlInv(x) && id in x.tasks
    requires x.tasks[id].state.exitCode.Some? ==> t.state.exitCode.Some?
    requires x.tasks[id].child.Exited? ==> t.child == x.tasks[id].child
    ensures ControlInv(WithTask(x, id, t))
  {
  }

  lemma OtherTaskIsDelivered(x: Executor, id: TaskId, t: Task, other: TaskId)
    requires other in x.tasks && other != id && TaskInv(x.tasks[other]) && DeliveredInv(x, other)
    ensures DeliveredInv(WithTask(x, id, t), other)
  {
  }

  /** Replacing a task by one that kept its delivered prefixes keeps the invariant. */
  lemma ReplaceKeepsInv(x: Executor, id: TaskId, t: Task)
    requires Inv(x) && id in x.tasks && TaskInv(t)
    requires KeepsDelivered(x.tasks[id].state, t.state)
    requires x.tasks[id].child.Exited? ==> t.child == x.tasks[id].child
    ensures Inv(WithTask(x, id, t))
  {
    var y := WithTask(x, id, t);
    ReplacedTaskIsDelivered(x, id, t);
    ReplaceKeepsControl(x, id, t);
    forall i <- y.tasks ensures i.sequence <= y.sequence && TaskInv(y.tasks[i]) && DeliveredInv(y, i) {
      assert i in x.tasks;
      if i != id {
        OtherTaskIsDelivered(x, id, t, i);
      }
    }
  }

  lemma AnswerKeepsInv(x: Executor, r: Reply)
    requires Inv(x) && !r.ReadReply?
    ensures Inv(Answer(x, r))
  {
    var y := Answer(x, r);
    forall i <- y.tasks ensures DeliveredInv(y, i) {
      AnswerDelivers(x.replies, r, i);
    }
  }

  lemma AppendKeepsBuffered(s: ShellState, body: string, chunk: string)
    requires s.stdout == Buffered(s.sandbox, body) && chunk != ""
    ensures AppendOut(s, chunk).stdout == Buffered(s.sandbox, body + chunk)
    ensures s.stdout <= AppendOut(s, chunk).stdout
  {
    if body == "" {
      assert body + chunk == chunk;
    } else if !Direct(s.sandbox) {
      assert Banner(s.sandbox) + body + chunk == Banner(s.sandbox) + (body + chunk);
    }
  }

  lemma PullConserves(written: string, pipe: Pipe, count: nat)
    requires Conserved(written, pipe) && pipe.held == "" && count <= |pipe.unread|
    ensures Conserved(written, Pulled(pipe, count))
    ensures Consumed(written, Pulled(pipe, count)) == Consumed(written, pipe)
  {
    assert pipe.unread == pipe.unread[..count] + pipe.unread[count..];
    assert Consumed(written, pipe) + "" == Consumed(written, pipe);
    assert Consumed(written, pipe) + pipe.unread[..count] + pipe.unread[count..] == written;
  }

  lemma PushConserves(written: string, pipe: Pipe)
    requires Conserved(written, pipe)
    ensures var empty := pipe.(held := "");
      Conserved(written, empty) && Consumed(written, empty) == Consumed(written, pipe) + pipe.held
  {
    var pushed := Consumed(written, pipe) + pipe.held;
    assert written == pushed + pipe.unread && pushed + "" == pushed;
  }

  lemma WriteConserves(written: string, pipe: Pipe, text: string)
    requires Conserved(written, pipe)
    ensures var more := pipe.(unread := pipe.unread + text);
      Conserved(written + text, more) && Consumed(written + text, more) == Consumed(written, pipe)
  {
    assert written + text == Consumed(written, pipe) + pipe.held + (pipe.unread + text);
  }

  lemma PullKeepsInv(x: Executor, e: Event)
    requires Inv(x) && e.Pull? && Possible(x, e)
    ensures Inv(Step(x, e))
  {
    var t := x.tasks[e.id];
    match e.stream {
      case Stdout => PullConserves(t.writtenOut, t.outPipe, e.count);
      case Stderr => PullConserves(t.writtenErr, t.errPipe, e.count);
    }
    ReplaceKeepsInv(x, e.id, PullFrom(t, e.stream, e.count));
  }

  lemma PushKeepsTask(t: Task, stream: Stream)
    requires TaskInv(t) && PipeOf(t, stream).held != ""
    ensures TaskInv(PushTo(t, stream))
  {
    match stream
    case Stdout =>
      PushConserves(t.writtenOut, t.outPipe);
      AppendKeepsBuffered(t.state, Consumed(t.writtenOut, t.outPipe), t.outPipe.held);
    case Stderr =>
      PushConserves(t.writtenErr, t.errPipe);
  }

  lemma PushKeepsDelivered(t: Task, stream: Stream)
    requires TaskInv(t) && PipeOf(t, stream).held != "" && TaskInv(PushTo(t, stream))
    ensures KeepsDelivered(t.state, PushTo(t, stream).state)
  {
    if stream == Stdout {
      AppendKeepsBuffered(t.state, Consumed(t.writtenOut, t.outPipe), t.outPipe.held);
    }
  }

  lemma PushKeepsInv(x: Executor, e: Event)
    requires Inv(x) && e.Push? && Possible(x, e)
    ensures Inv(Step(x, e))
  {
    var t := x.tasks[e.id];
    PushKeepsTask(t, e.stream);
    PushKeepsDelivered(t, e.stream);
    ReplaceKeepsInv(x, e.id, PushTo(t, e.stream));
  }

  lemma DrainKeepsTask(t: Task)
    requires TaskInv(t)
    ensures TaskInv(t.(state := Drained(t.state)))
  {
  }

  /** The deltas of one read extend what the task's reader has by exactly the undelivered text. */
  lemma ReadExtendsDelivered(s: ShellState, replies: seq<Reply>, r: Reply)
    requires s.Valid() && r.ReadReply?
    requires r.stdoutDelta == s.stdout[s.deliveredStdout..] && r.stderrDelta == s.stderr[s.deliveredStderr..]
    requires OutDelivered(replies, r.id) == s.stdout[..s.deliveredStdout]
    requires ErrDelivered(replies, r.id) == s.stderr[..s.deliveredStderr]
    ensures OutDelivered(replies + [r], r.id) == s.stdout[..|s.stdout|]
    ensures ErrDelivered(replies + [r], r.id) == s.stderr[..|s.stderr|]
  {
    AnswerDelivers(replies, r, r.id);
    assert s.stdout[..s.deliveredStdout] + s.stdout[s.deliveredStdout..] == s.stdout[..|s.stdout|];
    assert s.stderr[..s.deliveredStderr] + s.stderr[s.deliveredStderr..] == s.stderr[..|s.stderr|];
  }

  lemma FinishReadKeepsInv(x: Executor)
    requires Inv(x) && Possible(x, FinishRead)
    ensures Inv(Step(x, FinishRead))
  {
    var id := x.control.id;
    var t := x.tasks[id];
    var s := t.state;
    var r := NextRead(id, s);
    var t' := t.(state := Drained(s));
    var y := Answer(WithTask(x, id, t'), r);
    assert Step(x, FinishRead) == y;
    DrainKeepsTask(t);
    ReadExtendsDelivered(s, x.replies, r);
    assert DeliveredInv(y, id);
    forall i <- y.tasks | i != id ensures TaskInv(y.tasks[i]) && DeliveredInv(y, i) {
      AnswerDelivers(x.replies, r, i);
      assert i in x.tasks && y.tasks[i] == x.tasks[i] && DeliveredInv(x, i);
    }
  }

  lemma SpawnKeepsInv(x: Executor, e: Event)
    requires Inv(x) && e.Spawn?
    ensures Inv(Step(x, e))
  {
    var id := TaskId(e.nanos, x.sequence + 1);
    var y := Step(x, e);
    assert id !in x.tasks;
    NothingDelivered(x.replies, id);
    forall i <- y.tasks ensures i.sequence <= y.sequence && TaskInv(y.tasks[i]) && DeliveredInv(y, i) {
      if i != id {
        assert i in x.tasks;
      }
    }
  }

  lemma WriteKeepsInv(x: Executor, e: Event)
    requires Inv(x) && e.Write? && Possible(x, e)
    ensures Inv(Step(x, e))
  {
    var t := x.tasks[e.id];
    WriteConserves(t.writtenOut, t.outPipe, e.text);
    WriteConserves(t.writtenErr, t.errPipe, e.text);
    ReplaceKeepsInv(x, e.id, WriteTo(t, e.stream, e.text));
  }

  lemma CloseReaderKeepsInv(x: Executor, e: Event)
    requires Inv(x) && e.CloseReader? && Possible(x, e)
    ensures Inv(Step(x, e))
  {
    ReplaceKeepsInv(x, e.id, CloseFor(x.tasks[e.id], e.stream));
  }

  lemma LifecycleKeepsInv(x: Executor, e: Event)
    requires Inv(x) && Possible(x, e)
    requires e.Register? || e.ChildExits?
    ensures Inv(Step(x, e))
  {
    var t := x.tasks[e.id];
    ReplaceKeepsInv(x, e.id, if e.Register? then t.(registered := true) else t.(child := Exited(e.code)));
  }

  lemma WithExitKeepsInv(x: Executor, id: TaskId)
    requires Inv(x) && id in x.tasks && x.tasks[id].child.Exited?
    ensures Inv(WithTask(x, id, WithExit(x.tasks[id])))
  {
    ReplaceKeepsInv(x, id, WithExit(x.tasks[id]));
  }

  lemma ReadAndWaitKeepInv(x: Executor, e: Event)
    requires Inv(x) && Possible(x, e)
    requires e.BeginRead? || e.BeginWait? || e.WaitReturns? || e.FinishWait?
    ensures Inv(Step(x, e))
  {
    match e {
      case BeginRead(id, probeOk) =>
        if !Known(x, id) {
          AnswerKeepsInv(x, NotFoundReply(id));
        } else if probeOk && x.tasks[id].child.Exited? {
          WithExitKeepsInv(x, id);
        }
      case BeginWait(id) => AnswerKeepsInv(x, NotFoundReply(id));
      case WaitReturns(ok) =>
        if ok {
          WithExitKeepsInv(x, x.control.id);
        } else {
          AnswerKeepsInv(x, WaitFailedReply(x.control.id));
        }
      case FinishWait =>
        AnswerKeepsInv(x, FullOutput(x.control.id, x.tasks[x.control.id].state));
    }
  }

  lemma TerminateKeepsInv(x: Executor, e: Event)
    requires Inv(x) && Possible(x, e)
    requires e.BeginTerminate? || e.ReapReturns? || e.FinishTerminate?
    ensures Inv(Step(x, e))
  {
    match e {
      case BeginTerminate(id) => AnswerKeepsInv(x, NotFoundReply(id));
      case ReapReturns(ok) =>
        if !ok {
          AnswerKeepsInv(x, WaitFailedReply(x.control.id));
        }
      case FinishTerminate =>
        var id := x.control.id;
        WithExitKeepsInv(x, id);
        AnswerKeepsInv(WithTask(x, id, WithExit(x.tasks[id])), TerminateReply(id, Some(x.control.code)));
    }
  }

  /** Every step keeps the invariant. */
  lemma StepKeepsInv(x: Executor, e: Event)
    requires Inv(x)
    ensures Inv(Step(x, e))
  {
    if Possible(x, e) {
      match e {
        case Spawn(_, _) => SpawnKeepsInv(x, e);
        case Pull(_, _, _) => PullKeepsInv(x, e);
        case Push(_, _) => PushKeepsInv(x, e);
        case FinishRead => FinishReadKeepsInv(x);
        case BeginRead(_, _) => ReadAndWaitKeepInv(x, e);
        case BeginWait(_) => ReadAndWaitKeepInv(x, e);
        case WaitReturns(_) => ReadAndWaitKeepInv(x, e);
        case FinishWait => ReadAndWaitKeepInv(x, e);
        case BeginTerminate(_) => TerminateKeepsInv(x, e);
        case ReapReturns(_) => TerminateKeepsInv(x, e);
        case FinishTerminate => TerminateKeepsInv(x, e);
        case Write(_, _, _) => WriteKeepsInv(x, e);
        case CloseReader(_, _) => CloseReaderKeepsInv(x, e);
        case _ => LifecycleKeepsInv(x, e);
      }
    }
  }

  lemma {:induction false} RunKeepsInv(events: seq<Event>)
    ensures Inv(Run(events))
  {
    if events != [] {
      RunKeepsInv(events[..|events| - 1]);
      StepKeepsInv(Run(events[..|events| - 1]), events[|events| - 1]);
    }
  }

  // ---------------------------------------------------------------------------------------
  // Output is delivered exactly once
  // ---------------------------------------------------------------------------------------

  /**
   In every interleaving: the stdout deltas handed out are the delivered prefix of the buffer,
   the buffer is the text pushed (behind one banner in sandboxed modes), and that text, the chunk
   the reader holds and what is still in the pipe are all the process wrote. The same for stderr.
   */
  lemma OutputDeliveredExactlyOnce(events: seq<Event>, id: TaskId)
    requires id in Run(events).tasks
    ensures var x := Run(events);
      var t := x.tasks[id];
      && t.state.Valid()
      && OutDelivered(x.replies, id) == t.state.stdout[..t.state.deliveredStdout]
      && ErrDelivered(x.replies, id) == t.state.stderr[..t.state.deliveredStderr]
      && t.state.stdout == Buffered(t.state.sandbox, Consumed(t.writtenOut, t.outPipe))
      && t.state.stderr == Consumed(t.writtenErr, t.errPipe)
      && Consumed(t.writtenOut, t.outPipe) + t.outPipe.held + t.outPipe.unread == t.writtenOut
      && Consumed(t.writtenErr, t.errPipe) + t.errPipe.held + t.errPipe.unread == t.writtenErr
  {
    RunKeepsInv(events);
    assert DeliveredInv(Run(events), id) && TaskInv(Run(events).tasks[id]);
  }

  lemma BufferedIsInjectiveOnPrefixes(sandbox: Sandbox, body: string, rest: string)
    ensures Buffered(sandbox, body) == Buffered(sandbox, body + rest) <==> rest == ""
  {
    if rest == "" {
      assert body + rest == body;
    } else {
      assert |Buffered(sandbox, body)| < |Buffered(sandbox, body + rest)|;
    }
  }

  /** The buffers hold all that was written exactly when both readers have caught up, stream by stream. */
  lemma BuffersAreCompleteIff(t: Task)
    requires TaskInv(t)
    ensures t.state.stdout == Buffered(t.state.sandbox, t.writtenOut) <==> CaughtUp(t.outPipe)
    ensures t.state.stderr == t.writtenErr <==> CaughtUp(t.errPipe)
  {
    var consumed := Consumed(t.writtenOut, t.outPipe);
    assert consumed + t.outPipe.held + t.outPipe.unread == consumed + (t.outPipe.held + t.outPipe.unread);
    BufferedIsInjectiveOnPrefixes(t.state.sandbox, consumed, t.outPipe.held + t.outPipe.unread);
  }

  lemma DrainDelivers(x: Executor)
    requires Possible(x, FinishRead) && DeliveredInv(x, x.control.id)
    ensures OutDelivered(Step(x, FinishRead).replies, x.control.id) == x.tasks[x.control.id].state.stdout
    ensures ErrDelivered(Step(x, FinishRead).replies, x.control.id) == x.tasks[x.control.id].state.stderr
  {
    var id := x.control.id;
    var s := x.tasks[id].state;
    ReadExtendsDelivered(s, x.replies, NextRead(id, s));
    assert Step(x, FinishRead).replies == x.replies + [NextRead(id, s)];
    assert s.stdout[..|s.stdout|] == s.stdout && s.stderr[..|s.stderr|] == s.stderr;
  }

  lemma WaitReplies(x: Executor)
    requires Possible(x, FinishWait)
    ensures Step(x, FinishWait).replies == x.replies + [FullOutput(x.control.id, x.tasks[x.control.id].state)]
  {
  }

  lemma RunKeepsTaskInv(events: seq<Event>, id: TaskId)
    requires id in Run(events).tasks
    ensures TaskInv(Run(events).tasks[id]) && DeliveredInv(Run(events), id)
  {
    RunKeepsInv(events);
  }

  /** One more `read_output` completes the delivery of a stream exactly when its reader has caught up. */
  lemma ReadCompletesIffCaughtUp(events: seq<Event>)
    requires Run(events).control.Draining? && Run(events).control.id in Run(events).tasks
    ensures var x := Run(events);
      var id := x.control.id;
      var t := x.tasks[id];
      var after := Step(x, FinishRead).replies;
      && (OutDelivered(after, id) == Buffered(t.state.sandbox, t.writtenOut) <==> CaughtUp(t.outPipe))
      && (ErrDelivered(after, id) == t.writtenErr <==> CaughtUp(t.errPipe))
  {
    var x := Run(events);
    RunKeepsTaskInv(events, x.control.id);
    BuffersAreCompleteIff(x.tasks[x.control.id]);
    DrainDelivers(x);
  }

  /**
   `wait` is documented to return the final output. It does, stream by stream, exactly when the
   reader has caught up by the time the reply is built: the pipe is empty and the reader holds no
   chunk. The exit of the child implies neither.
   */
  lemma WaitIsCompleteIffCaughtUp(events: seq<Event>)
    requires Run(events).control.Reporting? && Run(events).control.id in Run(events).tasks
    ensures var x := Run(events);
      var t := x.tasks[x.control.id];
      var reply := FullOutput(x.control.id, t.state);
      && Step(x, FinishWait).replies == x.replies + [reply]
      && (reply.stdout == Buffered(t.state.sandbox, t.writtenOut) <==> CaughtUp(t.outPipe))
      && (reply.stderr == t.writtenErr <==> CaughtUp(t.errPipe))
  {
    var x := Run(events);
    RunKeepsTaskInv(events, x.control.id);
    BuffersAreCompleteIff(x.tasks[x.control.id]);
    WaitReplies(x);
  }

  /** Whenever a call is in flight, its task exists. */
  lemma HeldTaskExists(events: seq<Event>)
    requires !Run(events).control.Idle?
    ensures Run(events).control.id in Run(events).tasks
  {
    RunKeepsInv(events);
  }

  lemma RunSnoc(events: seq<Event>, e: Event)
    ensures Run(events + [e]) == Step(Run(events), e)
  {
    assert (events + [e])[..|events|] == events;
  }

  lemma QuickChild() returns (events: seq<Event>, id: TaskId)
    ensures var x := Run(events);
      && id in x.tasks && x.control == Idle && x.replies == []
      && x.tasks[id] == Task(Fresh(Sandbox(DangerFullAccess, NoBackend, Enabled)), Exited(Some(0)),
                             Pipe("x", "", true), NEW_PIPE, true, "x", "")
  {
    id := TaskId(0, 1);
    var sandbox := Sandbox(DangerFullAccess, NoBackend, Enabled);
    events := [];
    assert Run(events) == INITIAL;
    RunSnoc(events, Spawn(0, sandbox));
    events := events + [Spawn(0, sandbox)];
    RunSnoc(events, Register(id));
    events := events + [Register(id)];
    RunSnoc(events, Write(id, Stdout, "x"));
    events := events + [Write(id, Stdout, "x")];
    assert "" + "x" == "x";
    RunSnoc(events, ChildExits(id, Some(0)));
    events := events + [ChildExits(id, Some(0))];
  }

  lemma WaitAnswers(events: seq<Event>, id: TaskId)
    requires var x := Run(events);
      && x.control == Idle && x.replies == [] && Known(x, id)
      && x.tasks[id].child == Exited(Some(0)) && x.tasks[id].state.stdout == "" && x.tasks[id].state.stderr == ""
    ensures var y := Run(events + [BeginWait(id)] + [WaitReturns(true)] + [FinishWait]);
      && y.replies == [WaitReply(id, Some(0), "", "")]
      && id in y.tasks && y.tasks[id] == WithExit(Run(events).tasks[id])
  {
    RunSnoc(events, BeginWait(id));
    RunSnoc(events + [BeginWait(id)], WaitReturns(true));
    RunSnoc(events + [BeginWait(id)] + [WaitReturns(true)], FinishWait);
  }

  /** A run in which `wait` answers with exit code 0 and none of the output the child wrote. */
  lemma WaitCanMissOutput() returns (events: seq<Event>, id: TaskId)
    ensures var x := Run(events);
      && x.replies == [WaitReply(id, Some(0), "", "")]
      && id in x.tasks && x.tasks[id].writtenOut == "x"
  {
    events, id := QuickChild();
    WaitAnswers(events, id);
    events := events + [BeginWait(id)] + [WaitReturns(true)] + [FinishWait];
  }

  /** An empty pipe is not enough: the reader may hold what it read while `wait` builds its reply. */
  lemma WaitCanMissHeldOutput() returns (events: seq<Event>, id: TaskId)
    ensures var x := Run(events);
      && x.replies == [WaitReply(id, Some(0), "", "")]
      && id in x.tasks && x.tasks[id].writtenOut == "x" && x.tasks[id].outPipe == Pipe("", "x", true)
  {
    events, id := QuickChild();
    RunSnoc(events, Pull(id, Stdout, 1));
    assert Pulled(Pipe("x", "", true), 1) == Pipe("", "x", true);
    events := events + [Pull(id, Stdout, 1)];
    WaitAnswers(events, id);
    events := events + [BeginWait(id)] + [WaitReturns(true)] + [FinishWait];
  }

  /** What `wait` shows starts with all that was read before, and consumes nothing. */
  lemma WaitConsumesNothing(events: seq<Event>, id: TaskId)
    requires Run(events).control.Reporting? && Run(events).control.id in Run(events).tasks
    ensures var x := Run(events);
      var y := Step(x, FinishWait);
      var reply := FullOutput(x.control.id, x.tasks[x.control.id].state);
      && y.tasks == x.tasks
      && y.replies == x.replies + [reply]
      && OutDelivered(x.replies, x.control.id) <= reply.stdout
      && ErrDelivered(x.replies, x.control.id) <= reply.stderr
      && OutDelivered(y.replies, id) == OutDelivered(x.replies, id)
      && ErrDelivered(y.replies, id) == ErrDelivered(x.replies, id)
  {
    var x := Run(events);
    OutputDeliveredExactlyOnce(events, x.control.id);
    AnswerDelivers(x.replies, FullOutput(x.control.id, x.tasks[x.control.id].state), id);
  }

  // ---------------------------------------------------------------------------------------
  // Exit codes, and independence of tasks
  // ---------------------------------------------------------------------------------------

  /** How one task may look after further steps: it only grows, and what is known stays known. */
  ghost predicate Later(t: Task, u: Task) {
    && u.state.sandbox == t.state.sandbox
    && t.state.stdout <= u.state.stdout && t.state.stderr <= u.state.stderr
    && t.state.deliveredStdout <= u.state.deliveredStdout && t.state.deliveredStderr <= u.state.deliveredStderr
    && (t.child.Exited? ==> u.child == t.child)
    && (t.state.exitCode.Some? ==> u.state.exitCode == t.state.exitCode)
  }

  /** The task an event acts on. */
  function Target(x: Executor, e: Event): Option<TaskId> {
    match e
    case Spawn(_, _) => None
    case FinishRead => HeldTask(x)
    case WaitReturns(_) => HeldTask(x)
    case FinishWait => HeldTask(x)
    case ReapReturns(_) => HeldTask(x)
    case FinishTerminate => HeldTask(x)
    case Register(id) => Some(id)
    case Write(id, _, _) => Some(id)
    case Pull(id, _, _) => Some(id)
    case Push(id, _) => Some(id)
    case CloseReader(id, _) => Some(id)
    case ChildExits(id, _) => Some(id)
    case BeginRead(id, _) => Some(id)
    case BeginWait(id) => Some(id)
    case BeginTerminate(id) => Some(id)
  }

  function HeldTask(x: Executor): Option<TaskId> {
    if x.control.Idle? then None else Some(x.control.id)
  }

  /** The reply a step gives, if it gives one. */
  function NewReply(x: Executor, e: Event): seq<Reply> {
    if !Possible(x, e) then [] else
    match e
    case BeginRead(id, _) => if Known(x, id) then [] else [NotFoundReply(id)]
    case BeginWait(id) => if Known(x, id) then [] else [NotFoundReply(id)]
    case BeginTerminate(id) => if Known(x, id) then [] else [NotFoundReply(id)]
    case WaitReturns(ok) => if ok then [] else [WaitFailedReply(x.control.id)]
    case ReapReturns(ok) => if ok then [] else [WaitFailedReply(x.control.id)]
    case FinishRead => [NextRead(x.control.id, x.tasks[x.control.id].state)]
    case FinishWait => [FullOutput(x.control.id, x.tasks[x.control.id].state)]
    case FinishTerminate => [TerminateReply(x.control.id, Some(x.control.code))]
    case _ => []
  }

  lemma StepAddsNewReply(x: Executor, e: Event)
    ensures Step(x, e).replies == x.replies + NewReply(x, e)
  {
  }

  lemma StepTouchesItsTarget(x: Executor, e: Event, id: TaskId)
    requires id in x.tasks && id.sequence <= x.sequence && Target(x, e) != Some(id)
    ensures id in Step(x, e).tasks && Step(x, e).tasks[id] == x.tasks[id]
    ensures forall r <- NewReply(x, e) | r.ReadReply? :: r.id != id
  {
  }

  lemma OtherReplyDelivers(replies: seq<Reply>, more: seq<Reply>, id: TaskId)
    requires |more| <= 1 && forall r <- more | r.ReadReply? :: r.id != id
    ensures OutDelivered(replies + more, id) == OutDelivered(replies, id)
    ensures ErrDelivered(replies + more, id) == ErrDelivered(replies, id)
  {
    if more == [] {
      assert replies + more == replies;
    } else {
      assert more == [more[0]] && more[0] in more;
      AnswerDelivers(replies, more[0], id);
    }
  }

  lemma StepLeavesOthers(x: Executor, e: Event, id: TaskId)
    requires id in x.tasks && id.sequence <= x.sequence && Target(x, e) != Some(id)
    ensures var y := Step(x, e);
      && id in y.tasks && y.tasks[id] == x.tasks[id]
      && OutDelivered(y.replies, id) == OutDelivered(x.replies, id)
      && ErrDelivered(y.replies, id) == ErrDelivered(x.replies, id)
  {
    StepTouchesItsTarget(x, e, id);
    StepAddsNewReply(x, e);
    OtherReplyDelivers(x.replies, NewReply(x, e), id);
  }

  /** A step leaves every other task, and what was delivered of it, as it was. */
  lemma OtherTasksUntouched(events: seq<Event>, e: Event, id: TaskId)
    requires id in Run(events).tasks && Target(Run(events), e) != Some(id)
    ensures var x := Run(events);
      var y := Step(x, e);
      && id in y.tasks && y.tasks[id] == x.tasks[id]
      && OutDelivered(y.replies, id) == OutDelivered(x.replies, id)
      && ErrDelivered(y.replies, id) == ErrDelivered(x.replies, id)
  {
    RunKeepsInv(events);
    StepLeavesOthers(Run(events), e, id);
  }

  lemma PushIsLater(t: Task, stream: Stream)
    requires TaskInv(t) && PipeOf(t, stream).held != ""
    ensures Later(t, PushTo(t, stream))
  {
    if stream == Stdout {
      AppendKeepsBuffered(t.state, Consumed(t.writtenOut, t.outPipe), t.outPipe.held);
    }
  }

  lemma ExitIsLater(t: Task)
    requires TaskInv(t) && t.child.Exited?
    ensures Later(t, WithExit(t))
  {
  }

  lemma DrainIsLater(t: Task)
    requires t.state.Valid()
    ensures Later(t, t.(state := Drained(t.state)))
  {
  }

  lemma CallStepIsLater(x: Executor, e: Event, id: TaskId)
    requires Inv(x) && id in x.tasks && Possible(x, e)
    requires e.BeginRead? || e.FinishRead? || e.WaitReturns? || e.FinishTerminate?
    ensures id in Step(x, e).tasks && Later(x.tasks[id], Step(x, e).tasks[id])
  {
    var t := x.tasks[id];
    assert TaskInv(t);
    DrainIsLater(t);
    if t.child.Exited? {
      ExitIsLater(t);
    }
    var u := Step(x, e).tasks[id];
    assert u == t || u == t.(state := Drained(t.state)) || (t.child.Exited? && u == WithExit(t));
  }

  lemma StepIsLater(x: Executor, e: Event, id: TaskId)
    requires Inv(x) && id in x.tasks
    ensures id in Step(x, e).tasks && Later(x.tasks[id], Step(x, e).tasks[id])
  {
    assert id.sequence <= x.sequence;
    if Target(x, e) != Some(id) {
      StepTouchesItsTarget(x, e, id);
    } else if Possible(x, e) {
      if e.Push? {
        assert TaskInv(x.tasks[id]);
        PushIsLater(x.tasks[id], e.stream);
      } else if e.BeginRead? || e.FinishRead? || e.WaitReturns? || e.FinishTerminate? {
        CallStepIsLater(x, e, id);
      }
    }
  }

  lemma {:induction false} RunIsLater(x: Executor, more: seq<Event>, id: TaskId)
    requires Inv(x) && id in x.tasks
    ensures Inv(RunFrom(x, more))
    ensures id in RunFrom(x, more).tasks && Later(x.tasks[id], RunFrom(x, more).tasks[id])
  {
    if more != [] {
      var before := more[..|more| - 1];
      RunIsLater(x, before, id);
      StepKeepsInv(RunFrom(x, before), more[|more| - 1]);
      StepIsLater(RunFrom(x, before), more[|more| - 1], id);
    }
  }

  /** A known exit code is never forgotten or changed, whatever happens next. */
  lemma ExitCodeIsStable(events: seq<Event>, more: seq<Event>, id: TaskId)
    requires id in Run(events).tasks && Run(events).tasks[id].state.exitCode.Some?
    ensures id in RunFrom(Run(events), more).tasks
    ensures RunFrom(Run(events), more).tasks[id].state.exitCode == Run(events).tasks[id].state.exitCode
  {
    RunKeepsInv(events);
    RunIsLater(Run(events), more, id);
  }

  /** The exit code a child's status stands for: its code, or -1 when a signal ended it. */
  ghost predicate IsStatus(child: Child, code: int) {
    child.Exited? && match child.code case Some(c) => code == c case None => code == -1
  }

  /** The reply may name an exit code. */
  predicate MayNameExit(r: Reply) {
    r.ReadReply? || r.WaitReply? || r.TerminateReply?
  }

  /** A reply that names an exit code names the child's; `wait` and `terminate` always name one. */
  ghost predicate Honest(x: Executor, r: Reply) {
    MayNameExit(r) ==>
      && (r.exitCode.Some? ==> r.id in x.tasks && IsStatus(x.tasks[r.id].child, r.exitCode.value))
      && (r.exitCode.None? ==> r.ReadReply?)
  }

  lemma HonestyLasts(x: Executor, e: Event, r: Reply)
    requires Inv(x) && Honest(x, r)
    ensures Honest(Step(x, e), r)
  {
    if MayNameExit(r) && r.exitCode.Some? {
      StepIsLater(x, e, r.id);
    }
  }

  lemma ReportedIsStatus(child: Child)
    requires child.Exited?
    ensures IsStatus(child, ReportedCode(child.code))
  {
  }

  lemma KnownCodeIsStatus(t: Task)
    requires TaskInv(t)
    ensures t.state.exitCode.Some? ==> IsStatus(t.child, t.state.exitCode.value)
  {
    if t.state.exitCode.Some? {
      ReportedIsStatus(t.child);
    }
  }

  lemma TerminationIsHonest(x: Executor)
    requires ControlInv(x) && x.control.Storing?
    ensures Honest(x, TerminateReply(x.control.id, Some(x.control.code)))
  {
    ReportedIsStatus(x.tasks[x.control.id].child);
  }

  lemma FailureIsHonest(x: Executor, r: Reply)
    requires r.NotFoundReply? || r.WaitFailedReply?
    ensures Honest(x, r)
  {
  }

  lemma NewReplyWasHonest(x: Executor, e: Event)
    requires Inv(x)
    ensures forall r <- NewReply(x, e) :: Honest(x, r)
  {
    forall r <- NewReply(x, e) ensures Honest(x, r) {
      if e.FinishRead? || e.FinishWait? {
        KnownCodeIsStatus(x.tasks[x.control.id]);
      } else if e.FinishTerminate? {
        TerminationIsHonest(x);
      } else {
        FailureIsHonest(x, r);
      }
    }
  }

  lemma NewReplyIsHonest(x: Executor, e: Event)
    requires Inv(x)
    ensures forall r <- NewReply(x, e) :: Honest(Step(x, e), r)
  {
    NewReplyWasHonest(x, e);
    forall r <- NewReply(x, e) ensures Honest(Step(x, e), r) {
      HonestyLasts(x, e, r);
    }
  }

  /**
   In every run, each reply that names an exit code names the one the child exited with, and -1 if
   a signal ended it; only `read_output` may name none.
   */
  lemma {:induction false} RepliesAreHonest(events: seq<Event>)
    ensures forall r <- Run(events).replies :: Honest(Run(events), r)
  {
    if events != [] {
      var before := events[..|events| - 1];
      var x, e := Run(before), events[|events| - 1];
      RepliesAreHonest(before);
      RunKeepsInv(before);
      StepAddsNewReply(x, e);
      NewReplyIsHonest(x, e);
      forall r <- x.replies ensures Honest(Step(x, e), r) {
        HonestyLasts(x, e, r);
      }
      assert Run(events) == Step(x, e);
    }
  }

  /** Some step of the run saw that the child had exited, and recorded it. */
  predicate Observed(events: seq<Event>, id: TaskId) {
    events != []
    && (Observed(events[..|events| - 1], id) || Observes(Run(events[..|events| - 1]), events[|events| - 1], id))
  }

  /** `read_output` probes, `wait` returns, or `terminate` reaps a child of the task that has exited. */
  predicate Observes(x: Executor, e: Event, id: TaskId) {
    && Possible(x, e)
    && match e
       case BeginRead(i, probeOk) => i == id && Known(x, id) && probeOk && x.tasks[id].child.Exited?
       case WaitReturns(ok) => ok && x.control.id == id
       case FinishTerminate => x.control.id == id
       case _ => false
  }

  /** The events that may record an exit code. */
  predicate MayRecord(e: Event) {
    e.BeginRead? || e.WaitReturns? || e.FinishTerminate?
  }

  lemma OthersRecordNothing(x: Executor, e: Event, id: TaskId)
    requires id in x.tasks && id.sequence <= x.sequence && !MayRecord(e)
    ensures id in Step(x, e).tasks
    ensures Step(x, e).tasks[id].state.exitCode == x.tasks[id].state.exitCode && !Observes(x, e, id)
  {
  }

  lemma CallsRecord(x: Executor, e: Event, id: TaskId)
    requires id in x.tasks && MayRecord(e)
    ensures id in Step(x, e).tasks
    ensures Step(x, e).tasks[id].state.exitCode.Some? <==> x.tasks[id].state.exitCode.Some? || Observes(x, e, id)
  {
  }

  lemma ObservingRecords(x: Executor, e: Event, id: TaskId)
    requires id in x.tasks && id.sequence <= x.sequence
    ensures id in Step(x, e).tasks
    ensures Step(x, e).tasks[id].state.exitCode.Some? <==> x.tasks[id].state.exitCode.Some? || Observes(x, e, id)
  {
    if MayRecord(e) {
      CallsRecord(x, e, id);
    } else {
      OthersRecordNothing(x, e, id);
    }
  }

  lemma SpawnedKnowsNothing(x: Executor, e: Event, id: TaskId)
    requires id !in x.tasks && id in Step(x, e).tasks
    ensures Step(x, e).tasks[id].state.exitCode.None? && !Observes(x, e, id)
  {
  }

  lemma {:induction false} OnlyTasksAreObserved(events: seq<Event>, id: TaskId)
    requires Observed(events, id)
    ensures id in Run(events).tasks
  {
    var front, last := events[..|events| - 1], events[|events| - 1];
    RunKeepsInv(front);
    if Observed(front, id) {
      OnlyTasksAreObserved(front, id);
    }
    StepIsLater(Run(front), last, id);
  }

  /** In every run an exit code is known exactly when some call saw the child exited. */
  lemma {:induction false} ExitIsKnownIffObserved(events: seq<Event>, id: TaskId)
    requires id in Run(events).tasks
    ensures Run(events).tasks[id].state.exitCode.Some? <==> Observed(events, id)
  {
    var front, last := events[..|events| - 1], events[|events| - 1];
    RunKeepsInv(front);
    if id in Run(front).tasks {
      ExitIsKnownIffObserved(front, id);
      ObservingRecords(Run(front), last, id);
    } else {
      SpawnedKnowsNothing(Run(front), last, id);
      if Observed(front, id) {
        OnlyTasksAreObserved(front, id);
      }
    }
  }

  lemma ReadReplies(x: Executor)
    requires Possible(x, FinishRead)
    ensures Step(x, FinishRead).replies == x.replies + [NextRead(x.control.id, x.tasks[x.control.id].state)]
    ensures NextRead(x.control.id, x.tasks[x.control.id].state).exitCode == x.tasks[x.control.id].state.exitCode
  {
  }

  /**
   `read_output` answers for the task it was asked for and names the child's exit code, exactly
   when some call before its reply, its own probe included, saw the child exited.
   */
  lemma ReadNamesTheExitIff(events: seq<Event>)
    requires Run(events).control.Draining?
    ensures var x := Run(events);
      var after := Step(x, FinishRead).replies;
      && |after| == |x.replies| + 1 && after[..|x.replies|] == x.replies
      && var r := after[|x.replies|];
      && r.ReadReply? && r.id == x.control.id && r.id in x.tasks
      && (r.exitCode.Some? <==> Observed(events, r.id))
      && (r.exitCode.Some? ==> IsStatus(x.tasks[r.id].child, r.exitCode.value))
  {
    var x := Run(events);
    HeldTaskExists(events);
    RunKeepsTaskInv(events, x.control.id);
    ExitIsKnownIffObserved(events, x.control.id);
    KnownCodeIsStatus(x.tasks[x.control.id]);
    ReadReplies(x);
  }

  lemma {:induction false} ObservedLasts(events: seq<Event>, more: seq<Event>, id: TaskId)
    requires Observed(events, id)
    ensures Observed(events + more, id)
  {
    if more == [] {
      assert events + more == events;
    } else {
      ObservedLasts(events, more[..|more| - 1], id);
      assert (events + more)[..|events + more| - 1] == events + more[..|more| - 1];
    }
  }

  /** Once a probe of `read_output` saw the child exited, that read and every later one name its code. */
  lemma ProbedReadNamesTheExit(events: seq<Event>, id: TaskId, more: seq<Event>)
    requires var x := Run(events);
      x.control == Idle && id in x.tasks && x.tasks[id].registered && x.tasks[id].child.Exited?
    requires Run(events + [BeginRead(id, true)] + more).control == Draining(id)
    ensures var y := Run(events + [BeginRead(id, true)] + more);
      var r := Step(y, FinishRead).replies[|y.replies|..];
      && |r| == 1 && r[0].ReadReply? && r[0].id == id
      && r[0].exitCode.Some? && IsStatus(Run(events).tasks[id].child, r[0].exitCode.value)
  {
    var probed := events + [BeginRead(id, true)];
    RunSnoc(events, BeginRead(id, true));
    assert probed[..|events|] == events && Observed(probed, id);
    ObservedLasts(probed, more, id);
    ReadNamesTheExitIff(probed + more);
    RunKeepsInv(events);
    StepIsLater(Run(events), BeginRead(id, true), id);
    RunKeepsInv(probed);
    RunIsLater(Run(probed), more, id);
    RunConcat(probed, more);
  }

  lemma {:induction false} RunConcat(events: seq<Event>, more: seq<Event>)
    ensures Run(events + more) == RunFrom(Run(events), more)
  {
    if more == [] {
      assert events + more == events;
    } else {
      RunConcat(events, more[..|more| - 1]);
      assert (events + more)[..|events + more| - 1] == events + more[..|more| - 1];
    }
  }

  // ---------------------------------------------------------------------------------------
  // What a blocked wait holds up
  // ---------------------------------------------------------------------------------------

  lemma WaitingStep(x: Executor, e: Event)
    requires x.control.Waiting? && x.control.id in x.tasks && x.tasks[x.control.id].child.Running?
    requires e != WaitReturns(false)
    ensures Step(x, e).control == x.control && Step(x, e).replies == x.replies
  {
  }

  /**
   While `wait` is blocked on a running child it holds the task table: whatever is asked of any
   task, no call is answered until that child exits or the wait fails.
   */
  lemma {:induction false} BlockedWaitAnswersNobody(events: seq<Event>, more: seq<Event>)
    requires Run(events).control.Waiting? && WaitReturns(false) !in more
    ensures var x := Run(events);
      var y := RunFrom(x, more);
      && x.control.id in x.tasks && x.control.id in y.tasks
      && (y.tasks[x.control.id].child.Running? ==> y.control == x.control && y.replies == x.replies)
  {
    var x := Run(events);
    RunKeepsInv(events);
    RunIsLater(x, more, x.control.id);
    if more != [] {
      var front, last := more[..|more| - 1], more[|more| - 1];
      var before := RunFrom(x, front);
      BlockedWaitAnswersNobody(events, front);
      RunIsLater(x, front, x.control.id);
      StepIsLater(before, last, x.control.id);
      assert last in more;
      if before.tasks[x.control.id].child.Running? {
        WaitingStep(before, last);
      }
    }
  }

  /** A run with two running children: the wait for one keeps a terminate of either from beginning. */
  lemma WaitHoldsUpTerminate() returns (events: seq<Event>, waited: TaskId, other: TaskId)
    ensures var x := Run(events);
      && waited != other && Known(x, waited) && Known(x, other)
      && x.tasks[waited].child.Running? && x.tasks[other].child.Running?
      && x.control == Waiting(waited)
      && !Possible(x, BeginTerminate(other)) && !Possible(x, BeginTerminate(waited))
  {
    var sandbox := Sandbox(DangerFullAccess, NoBackend, Enabled);
    waited, other := TaskId(0, 1), TaskId(0, 2);
    events := [];
    assert Run(events) == INITIAL;
    RunSnoc(events, Spawn(0, sandbox));
    events := events + [Spawn(0, sandbox)];
    RunSnoc(events, Spawn(0, sandbox));
    events := events + [Spawn(0, sandbox)];
    RunSnoc(events, Register(waited));
    events := events + [Register(waited)];
    RunSnoc(events, Register(other));
    events := events + [Register(other)];
    RunSnoc(events, BeginWait(waited));
    events := events + [BeginWait(waited)];
  }
}
