/**
 WebSocket request correlation (apps/liz-web/src/protocol/client.ts).

 `Client` is the value of one `ProtocolClient` together with the platform it talks to: the
 sockets it opened, the armed timers, and a log of every `resolve` and `reject` call. The
 class runs the source's methods on that state; the lemmas are about runs of the value.
 */
module ProtocolClients {
  import opened Common

  type RequestId = string
  type SocketId = nat
  type TimerId = nat

  datatype ConnectionState = NeverConnected | Connecting | Connected | Reconnecting | Closed
  datatype ReadyState = Opening | Open | Closing | Shut
  datatype Timer = RequestTimeout(id: RequestId) | ReconnectDelay

  /** A response resolves whether or not it reports success. */
  datatype Outcome = Resolved(responseId: RequestId, ok: bool) | Rejected(code: string)
  datatype Settlement = Settlement(id: RequestId, outcome: Outcome)
  datatype Pending = Pending(id: RequestId, timer: TimerId)

  datatype Client = Client(
    state: ConnectionState,
    url: string,
    socket: Option<SocketId>,
    pending: seq<Pending>,
    closedByClient: bool,
    sockets: seq<ReadyState>,
    timers: map<TimerId, Timer>,
    nextTimer: TimerId,
    settled: seq<Settlement>,
    issued: set<RequestId>)
  {
    /** The references the class follows are in range; part of `Inv`. */
    predicate Valid() {
      socket.Some? ==> socket.value < |sockets|
    }
  }

  const INITIAL := Client(NeverConnected, "", None, [], false, [], map[], 0, [], {})

  // ---------------------------------------------------------------------------------------
  // The pending map: entries in insertion order
  // ---------------------------------------------------------------------------------------

  /** How often an id is a key. */
  function PendingCount(pending: seq<Pending>, id: RequestId): nat {
    if pending == [] then 0
    else PendingCount(pending[1..], id) + if pending[0].id == id then 1 else 0
  }

  /** How often `resolve` or `reject` was called for an id. */
  function SettledCount(settled: seq<Settlement>, id: RequestId): nat {
    if settled == [] then 0
    else SettledCount(settled[1..], id) + if settled[0].id == id then 1 else 0
  }

  /** `Map.set`: an existing key keeps its place. */
  function Put(pending: seq<Pending>, p: Pending): seq<Pending> {
    if pending == [] then [p]
    else if pending[0].id == p.id then [p] + pending[1..]
    else [pending[0]] + Put(pending[1..], p)
  }

  /** `Map.delete`. */
  function Without(pending: seq<Pending>, id: RequestId): seq<Pending> {
    if pending == [] then []
    else if pending[0].id == id then Without(pending[1..], id)
    else [pending[0]] + Without(pending[1..], id)
  }

  /** `Map.get`. */
  function Find(pending: seq<Pending>, id: RequestId): (found: Option<Pending>)
    ensures found.Some? ==> found.value in pending && found.value.id == id
    ensures found.None? ==> forall p <- pending :: p.id != id
  {
    if pending == [] then None
    else if pending[0].id == id then Some(pending[0])
    else Find(pending[1..], id)
  }

  function TimersOf(pending: seq<Pending>): set<TimerId> {
    set p <- pending :: p.timer
  }

  function Rejections(pending: seq<Pending>, code: string): seq<Settlement> {
    if pending == [] then []
    else Rejections(pending[..|pending| - 1], code) + [Settlement(pending[|pending| - 1].id, Rejected(code))]
  }

  // ---------------------------------------------------------------------------------------
  // The handlers, on values
  // ---------------------------------------------------------------------------------------

  function AfterRejectPending(c: Client, code: string): Client {
    c.(timers := c.timers - TimersOf(c.pending),
       settled := c.settled + Rejections(c.pending, code),
       pending := [])
  }

  /** `socket.close()` only matters for a socket that is opening or open. */
  function AfterSocketClose(c: Client): Client
    requires c.Valid()
  {
    if c.socket.Some? && (c.sockets[c.socket.value] == Opening || c.sockets[c.socket.value] == Open)
    then c.(sockets := c.sockets[c.socket.value := Closing])
    else c
  }

  /** `made` tells whether the WebSocket constructor returned or threw. */
  function AfterOpenSocket(c: Client, state: ConnectionState, made: bool): Client
    requires c.Valid()
  {
    if c.url == "" then c else
    var closing := AfterSocketClose(c).(state := state);
    if made then closing.(sockets := closing.sockets + [Opening], socket := Some(|closing.sockets|)) else closing
  }

  function AfterConnect(c: Client, url: string, made: bool): Client
    requires c.Valid()
  {
    AfterOpenSocket(c.(url := url, closedByClient := false), Connecting, made)
  }

  function AfterClose(c: Client): Client
    requires c.Valid()
  {
    AfterRejectPending(AfterSocketClose(c.(closedByClient := true)).(socket := None), "client_closed").(state := Closed)
  }

  predicate CanSend(c: Client)
    requires c.Valid()
  {
    c.socket.Some? && c.sockets[c.socket.value] == Open
  }

  function AfterRequest(c: Client, id: RequestId, sent: bool): Client
    requires c.Valid()
  {
    if !CanSend(c) then c else
    var timer := c.nextTimer;
    var armed := c.(timers := c.timers[timer := RequestTimeout(id)], nextTimer := timer + 1,
                    pending := Put(c.pending, Pending(id, timer)), issued := c.issued + {id});
    if sent then armed
    else armed.(timers := armed.timers - {timer}, pending := Without(armed.pending, id),
                settled := armed.settled + [Settlement(id, Rejected("send_failed"))])
  }

  function AfterResponse(c: Client, id: RequestId, ok: bool): Client {
    var found := Find(c.pending, id);
    if found.None? then c
    else c.(timers := c.timers - {found.value.timer}, pending := Without(c.pending, id),
            settled := c.settled + [Settlement(found.value.id, Resolved(id, ok))])
  }

  function AfterHandleClose(c: Client, socket: SocketId): Client {
    if c.socket != Some(socket) then c else
    var dropped := AfterRejectPending(c.(socket := None), "connection_closed");
    if c.closedByClient then dropped.(state := Closed)
    else dropped.(state := Reconnecting, timers := dropped.timers[dropped.nextTimer := ReconnectDelay],
                  nextTimer := dropped.nextTimer + 1)
  }

  function AfterTimer(c: Client, timer: TimerId, made: bool): Client
    requires c.Valid() && timer in c.timers
  {
    var fired := c.(timers := c.timers - {timer});
    match c.timers[timer]
    case RequestTimeout(id) =>
      fired.(pending := Without(c.pending, id), settled := c.settled + [Settlement(id, Rejected("request_timeout"))])
    case ReconnectDelay =>
      if c.closedByClient then fired else AfterOpenSocket(fired, Reconnecting, made)
  }

  // ---------------------------------------------------------------------------------------
  // The class
  // ---------------------------------------------------------------------------------------

  class ProtocolClient {
    var state: ConnectionState
    var url: string
    var socket: Option<SocketId>
    var pending: seq<Pending>
    var closedByClient: bool
    // The platform, as far as this client drives it.
    var sockets: seq<ReadyState>
    var timers: map<TimerId, Timer>
    var nextTimer: TimerId
    var settled: seq<Settlement>
    var issued: set<RequestId>

    function View(): Client
      reads this
    {
      Client(state, url, socket, pending, closedByClient, sockets, timers, nextTimer, settled, issued)
    }

    constructor ()
      ensures View() == INITIAL
    {
      state, url, socket, pending, closedByClient := NeverConnected, "", None, [], false;
      sockets, timers, nextTimer, settled, issued := [], map[], 0, [], {};
    }

    method CloseSocket()
      requires View().Valid()
      modifies this`sockets
      ensures View() == AfterSocketClose(old(View()))
    {
      if socket.Some? && (sockets[socket.value] == Opening || sockets[socket.value] == Open) {
        sockets := sockets[socket.value := Closing];
      }
    }

    method OpenSocket(newState: ConnectionState, made: bool)
      requires View().Valid()
      modifies this
      ensures View() == AfterOpenSocket(old(View()), newState, made)
    {
      if url == "" {
        return;
      }
      CloseSocket();
      state := newState;
      if made {
        sockets, socket := sockets + [Opening], Some(|sockets|);
      }
    }

    method Connect(newUrl: string, made: bool)
      requires View().Valid()
      modifies this
      ensures View() == AfterConnect(old(View()), newUrl, made)
    {
      url := newUrl;
      closedByClient := false;
      OpenSocket(Connecting, made);
    }

    method RejectPending(code: string)
      modifies this`timers, this`settled, this`pending
      ensures View() == AfterRejectPending(old(View()), code)
    {
      var i := 0;
      while i < |pending|
        invariant i <= |pending| && pending == old(pending)
        invariant timers == old(timers) - TimersOf(pending[..i])
        invariant settled == old(settled) + Rejections(pending[..i], code)
      {
        assert pending[..i + 1] == pending[..i] + [pending[i]];
        timers := timers - {pending[i].timer};
        settled := settled + [Settlement(pending[i].id, Rejected(code))];
        i := i + 1;
      }
      assert pending[..i] == pending;
      pending := [];
    }

    method Close()
      requires View().Valid()
      modifies this
      ensures View() == AfterClose(old(View()))
    {
      closedByClient := true;
      CloseSocket();
      socket := None;
      RejectPending("client_closed");
      state := Closed;
    }

    /** `accepted` is false for the immediate `not_connected` rejection, which takes no id. */
    method Request(id: RequestId, sent: bool) returns (accepted: bool)
      requires View().Valid()
      modifies this
      ensures View() == AfterRequest(old(View()), id, sent)
      ensures accepted == CanSend(old(View()))
    {
      accepted := socket.Some? && sockets[socket.value] == Open;
      if !accepted {
        return;
      }
      var timer := nextTimer;
      timers, nextTimer := timers[timer := RequestTimeout(id)], nextTimer + 1;
      pending := Put(pending, Pending(id, timer));
      issued := issued + {id};
      if !sent {
        timers := timers - {timer};
        pending := Without(pending, id);
        settled := settled + [Settlement(id, Rejected("send_failed"))];
      }
    }

    method ResolveResponse(id: RequestId, ok: bool)
      modifies this`timers, this`settled, this`pending
      ensures View() == AfterResponse(old(View()), id, ok)
      ensures (forall p <- old(pending) :: p.id != id) ==> View() == old(View())
      ensures (exists p <- old(pending) :: p.id == id) ==>
        && settled == old(settled) + [Settlement(id, Resolved(id, ok))]
        && forall p :: p in pending <==> p in old(pending) && p.id != id
    {
      var found := Find(pending, id);
      WithoutRemoves(pending, id);
      if found.None? {
        return;
      }
      timers := timers - {found.value.timer};
      pending := Without(pending, id);
      settled := settled + [Settlement(found.value.id, Resolved(id, ok))];
    }

    method HandleClose(closed: SocketId)
      modifies this
      ensures View() == AfterHandleClose(old(View()), closed)
    {
      if socket != Some(closed) {
        return;
      }
      socket := None;
      RejectPending("connection_closed");
      if closedByClient {
        state := Closed;
        return;
      }
      state := Reconnecting;
      timers, nextTimer := timers[nextTimer := ReconnectDelay], nextTimer + 1;
    }

    /** The callbacks passed to `setTimeout`. */
    method TimerFires(timer: TimerId, made: bool)
      requires View().Valid() && timer in timers
      modifies this
      ensures View() == AfterTimer(old(View()), timer, made)
    {
      var callback := timers[timer];
      timers := timers - {timer};
      match callback {
        case RequestTimeout(id) =>
          pending := Without(pending, id);
          settled := settled + [Settlement(id, Rejected("request_timeout"))];
        case ReconnectDelay =>
          if !closedByClient {
            OpenSocket(Reconnecting, made);
          }
      }
    }
  }

  // ---------------------------------------------------------------------------------------
  // Runs
  // ---------------------------------------------------------------------------------------

  datatype Event =
    | Connect(url: string, made: bool)
    | Close
    | Request(id: RequestId, sent: bool)
    | TimerFires(timer: TimerId, made: bool)
    | SocketOpens(socket: SocketId)
    | SocketErrs(socket: SocketId)
    | SocketStartsClosing(socket: SocketId)
    | SocketCloses(socket: SocketId)
    | Response(socket: SocketId, id: RequestId, ok: bool)

  /** No open or message event reaches a socket on which close() was called; ids are fresh. */
  predicate Possible(c: Client, e: Event) {
    && c.Valid()
    && match e
       case Connect(_, _) => true
       case Close => true
       case Request(id, _) => id !in c.issued
       case TimerFires(timer, _) => timer in c.timers
       case SocketOpens(socket) => socket < |c.sockets| && c.sockets[socket] == Opening
       case SocketErrs(socket) => socket < |c.sockets|
       case SocketStartsClosing(socket) => socket < |c.sockets| && Live(c.sockets[socket])
       case SocketCloses(socket) => socket < |c.sockets| && c.sockets[socket] != Shut
       case Response(socket, _, _) => socket < |c.sockets| && c.sockets[socket] == Open
  }

  function Step(c: Client, e: Event): Client {
    if !Possible(c, e) then c else
    match e
    case Connect(url, made) => AfterConnect(c, url, made)
    case Close => AfterClose(c)
    case Request(id, sent) => AfterRequest(c, id, sent)
    case TimerFires(timer, made) => AfterTimer(c, timer, made)
    case SocketOpens(socket) => c.(sockets := c.sockets[socket := Open], state := Connected)
    case SocketErrs(_) => if c.state == Connected then c.(state := Reconnecting) else c
    case SocketStartsClosing(socket) => c.(sockets := c.sockets[socket := Closing])
    case SocketCloses(socket) => AfterHandleClose(c.(sockets := c.sockets[socket := Shut]), socket)
    case Response(_, id, ok) => AfterResponse(c, id, ok)
  }

  /** The client after a whole run; an impossible event changes nothing. */
  function Run(events: seq<Event>): Client {
    if events == [] then INITIAL else Step(Run(events[..|events| - 1]), events[|events| - 1])
  }

  // ---------------------------------------------------------------------------------------
  // The invariant
  // ---------------------------------------------------------------------------------------

  /** Every request ever sent is either pending or settled, and only once. */
  ghost predicate Accounted(issued: set<RequestId>, pending: seq<Pending>, settled: seq<Settlement>) {
    forall id :: PendingCount(pending, id) + SettledCount(settled, id) == if id in issued then 1 else 0
  }

  /** The armed request timers are exactly those of the pending requests. */
  ghost predicate TimersMatch(timers: map<TimerId, Timer>, nextTimer: TimerId, pending: seq<Pending>) {
    && (forall t <- timers :: t < nextTimer)
    && (forall p <- pending :: p.timer in timers && timers[p.timer] == RequestTimeout(p.id))
    && (forall t <- timers :: timers[t].RequestTimeout? ==> Pending(timers[t].id, t) in pending)
  }

  ghost predicate Correlated(settled: seq<Settlement>) {
    forall s <- settled :: s.outcome.Resolved? ==> s.outcome.responseId == s.id
  }

  /** Only the current socket can be opening or open. */
  ghost predicate SocketsInv(state: ConnectionState, socket: Option<SocketId>, closedByClient: bool,
      sockets: seq<ReadyState>) {
    && (socket.Some? ==> socket.value < |sockets|)
    && (forall s: nat | s < |sockets| && Live(sockets[s]) :: socket == Some(s))
    && (state == Connected ==> socket.Some?)
    && (closedByClient ==> state == Closed && socket == None)
  }

  predicate Live(ready: ReadyState) {
    ready == Opening || ready == Open
  }

  ghost predicate Inv(c: Client) {
    && Accounted(c.issued, c.pending, c.settled)
    && TimersMatch(c.timers, c.nextTimer, c.pending)
    && Correlated(c.settled)
    && SocketsInv(c.state, c.socket, c.closedByClient, c.sockets)
  }

  lemma {:induction false} SettledCountConcat(a: seq<Settlement>, b: seq<Settlement>, id: RequestId)
    ensures SettledCount(a + b, id) == SettledCount(a, id) + SettledCount(b, id)
  {
    if a == [] {
      assert a + b == b;
    } else {
      assert (a + b)[1..] == a[1..] + b;
      SettledCountConcat(a[1..], b, id);
    }
  }

  lemma {:induction false} PendingCountConcat(a: seq<Pending>, b: seq<Pending>, id: RequestId)
    ensures PendingCount(a + b, id) == PendingCount(a, id) + PendingCount(b, id)
  {
    if a == [] {
      assert a + b == b;
    } else {
      assert (a + b)[1..] == a[1..] + b;
      PendingCountConcat(a[1..], b, id);
    }
  }

  lemma {:induction false} PendingCounts(pending: seq<Pending>, p: Pending)
    requires p in pending
    ensures PendingCount(pending, p.id) >= 1
  {
    if pending[0] != p {
      PendingCounts(pending[1..], p);
    }
  }

  lemma {:induction false} TwoEntriesCountTwice(pending: seq<Pending>, p: Pending, q: Pending)
    requires p in pending && q in pending && p != q && p.id == q.id
    ensures PendingCount(pending, p.id) >= 2
  {
    if pending[0] == p {
      PendingCounts(pending[1..], q);
    } else if pending[0] == q {
      PendingCounts(pending[1..], p);
    } else {
      TwoEntriesCountTwice(pending[1..], p, q);
    }
  }

  lemma {:induction false} RejectionsCount(pending: seq<Pending>, code: string, id: RequestId)
    ensures SettledCount(Rejections(pending, code), id) == PendingCount(pending, id)
    ensures forall s <- Rejections(pending, code) :: s.outcome == Rejected(code)
  {
    if pending != [] {
      var front, last := pending[..|pending| - 1], pending[|pending| - 1];
      RejectionsCount(front, code, id);
      SettledCountConcat(Rejections(front, code), [Settlement(last.id, Rejected(code))], id);
      assert pending == front + [last];
      PendingCountConcat(front, [last], id);
    }
  }

  lemma {:induction false} PutFresh(pending: seq<Pending>, p: Pending)
    requires PendingCount(pending, p.id) == 0
    ensures Put(pending, p) == pending + [p]
  {
    if pending != [] {
      PutFresh(pending[1..], p);
    }
  }

  /** Deleting a key takes out every entry with that id and keeps the rest. */
  lemma {:induction false} WithoutRemoves(pending: seq<Pending>, id: RequestId)
    ensures forall p :: p in Without(pending, id) <==> p in pending && p.id != id
  {
    if pending != [] {
      assert pending == [pending[0]] + pending[1..];
      WithoutRemoves(pending[1..], id);
    }
  }

  lemma {:induction false} WithoutForgets(pending: seq<Pending>, id: RequestId, other: RequestId)
    ensures PendingCount(Without(pending, id), other) == if other == id then 0 else PendingCount(pending, other)
  {
    if pending != [] {
      WithoutForgets(pending[1..], id, other);
    }
  }

  /** An accounted client has at most one entry for an id. */
  lemma PendingOnce(issued: set<RequestId>, pending: seq<Pending>, settled: seq<Settlement>, p: Pending, q: Pending)
    requires Accounted(issued, pending, settled) && p in pending && q in pending && p.id == q.id
    ensures p == q
  {
    assert PendingCount(pending, p.id) + SettledCount(settled, p.id) <= 1;
    if p != q {
      TwoEntriesCountTwice(pending, p, q);
    }
  }

  /** Taking one pending request out and logging its settlement keeps the account. */
  lemma SettleOne(issued: set<RequestId>, pending: seq<Pending>, settled: seq<Settlement>, p: Pending, s: Settlement)
    requires Accounted(issued, pending, settled) && p in pending && s.id == p.id
    ensures Accounted(issued, Without(pending, p.id), settled + [s])
  {
    PendingCounts(pending, p);
    forall id
      ensures PendingCount(Without(pending, p.id), id) + SettledCount(settled + [s], id)
          == if id in issued then 1 else 0
    {
      WithoutForgets(pending, p.id, id);
      SettledCountConcat(settled, [s], id);
      assert PendingCount(pending, id) + SettledCount(settled, id) == if id in issued then 1 else 0;
    }
  }

  lemma TakeOutTimer(c: Client, p: Pending)
    requires TimersMatch(c.timers, c.nextTimer, c.pending)
    requires Accounted(c.issued, c.pending, c.settled) && p in c.pending
    ensures TimersMatch(c.timers - {p.timer}, c.nextTimer, Without(c.pending, p.id))
  {
    WithoutRemoves(c.pending, p.id);
    forall t <- c.timers - {p.timer} | c.timers[t].RequestTimeout?
      ensures Pending(c.timers[t].id, t) in Without(c.pending, p.id)
    {
      if c.timers[t].id == p.id {
        PendingOnce(c.issued, c.pending, c.settled, Pending(p.id, t), p);
      }
    }
  }

  lemma RejectPendingKeepsAccount(c: Client, code: string)
    requires Accounted(c.issued, c.pending, c.settled)
    ensures Accounted(c.issued, [], c.settled + Rejections(c.pending, code))
  {
    forall id
      ensures SettledCount(c.settled + Rejections(c.pending, code), id)
          == PendingCount(c.pending, id) + SettledCount(c.settled, id)
    {
      RejectionsCount(c.pending, code, id);
      SettledCountConcat(c.settled, Rejections(c.pending, code), id);
    }
    assert forall id :: PendingCount([], id) == 0;
  }

  lemma RejectPendingKeepsTimers(c: Client, code: string)
    requires TimersMatch(c.timers, c.nextTimer, c.pending) && Correlated(c.settled)
    ensures TimersMatch(c.timers - TimersOf(c.pending), c.nextTimer, [])
    ensures Correlated(c.settled + Rejections(c.pending, code))
  {
    RejectionsCount(c.pending, code, "");
    assert forall p <- c.pending :: p.timer in TimersOf(c.pending);
  }

  lemma RequestKeepsInv(c: Client, id: RequestId, sent: bool)
    requires Inv(c) && id !in c.issued
    ensures Inv(AfterRequest(c, id, sent))
  {
    if CanSend(c) {
      var p := Pending(id, c.nextTimer);
      assert PendingCount(c.pending, id) + SettledCount(c.settled, id) == 0;
      PutFresh(c.pending, p);
      var armed := AfterRequest(c, id, true);
      assert armed.pending == c.pending + [p];
      forall x
        ensures PendingCount(armed.pending, x) + SettledCount(armed.settled, x) == if x in armed.issued then 1 else 0
      {
        PendingCountConcat(c.pending, [p], x);
        assert PendingCount(c.pending, x) + SettledCount(c.settled, x) == if x in c.issued then 1 else 0;
      }
      assert TimersMatch(armed.timers, armed.nextTimer, armed.pending);
      if !sent {
        SettleOne(armed.issued, armed.pending, armed.settled, p, Settlement(id, Rejected("send_failed")));
        TakeOutTimer(armed, p);
      }
    }
  }

  lemma ResponseKeepsInv(c: Client, id: RequestId, ok: bool)
    requires Inv(c)
    ensures Inv(AfterResponse(c, id, ok))
  {
    var found := Find(c.pending, id);
    if found.Some? {
      SettleOne(c.issued, c.pending, c.settled, found.value, Settlement(id, Resolved(id, ok)));
      TakeOutTimer(c, found.value);
    }
  }

  lemma OpenSocketKeepsInv(c: Client, state: ConnectionState, made: bool)
    requires Inv(c) && !c.closedByClient && state != Connected
    ensures Inv(AfterOpenSocket(c, state, made))
  {
  }

  lemma TimerKeepsInv(c: Client, timer: TimerId, made: bool)
    requires Inv(c) && timer in c.timers
    ensures Inv(AfterTimer(c, timer, made))
  {
    match c.timers[timer] {
      case RequestTimeout(id) =>
        SettleOne(c.issued, c.pending, c.settled, Pending(id, timer), Settlement(id, Rejected("request_timeout")));
        TakeOutTimer(c, Pending(id, timer));
      case ReconnectDelay =>
        var fired := c.(timers := c.timers - {timer});
        assert Inv(fired);
        if !c.closedByClient {
          OpenSocketKeepsInv(fired, Reconnecting, made);
        }
    }
  }

  lemma HandleCloseKeepsInv(c: Client, socket: SocketId)
    requires Inv(c) && socket < |c.sockets|
    ensures Inv(AfterHandleClose(c.(sockets := c.sockets[socket := Shut]), socket))
  {
    RejectPendingKeepsAccount(c, "connection_closed");
    RejectPendingKeepsTimers(c, "connection_closed");
  }

  lemma CloseKeepsInv(c: Client)
    requires Inv(c)
    ensures Inv(AfterClose(c))
  {
    RejectPendingKeepsAccount(c, "client_closed");
    RejectPendingKeepsTimers(c, "client_closed");
  }

  /** Every step keeps the invariant. */
  lemma StepKeepsInv(c: Client, e: Event)
    requires Inv(c)
    ensures Inv(Step(c, e))
  {
    if Possible(c, e) {
      match e {
        case Connect(url, made) => OpenSocketKeepsInv(c.(url := url, closedByClient := false), Connecting, made);
        case Close => CloseKeepsInv(c);
        case Request(id, sent) => RequestKeepsInv(c, id, sent);
        case TimerFires(timer, made) => TimerKeepsInv(c, timer, made);
        case SocketOpens(_) =>
        case SocketErrs(_) =>
        case SocketStartsClosing(_) =>
        case SocketCloses(socket) => HandleCloseKeepsInv(c, socket);
        case Response(_, id, ok) => ResponseKeepsInv(c, id, ok);
      }
    }
  }

  lemma {:induction false} RunKeepsInv(events: seq<Event>)
    ensures Inv(Run(events))
  {
    if events != [] {
      RunKeepsInv(events[..|events| - 1]);
      StepKeepsInv(Run(events[..|events| - 1]), events[|events| - 1]);
    }
  }

  // ---------------------------------------------------------------------------------------
  // What callers of `request` can rely on
  // ---------------------------------------------------------------------------------------

  /** In every run, each request sent settles at most once, and until then is pending. */
  lemma EachRequestSettlesAtMostOnce(events: seq<Event>, id: RequestId)
    ensures var c := Run(events);
      PendingCount(c.pending, id) + SettledCount(c.settled, id) == if id in c.issued then 1 else 0
  {
    RunKeepsInv(events);
  }

  /** In every run, a response only ever resolves the request with its own id. */
  lemma ResponsesReachTheirOwnRequest(events: seq<Event>)
    ensures forall s <- Run(events).settled :: s.outcome.Resolved? ==> s.outcome.responseId == s.id
  {
    RunKeepsInv(events);
  }

  /** In every run, a request is pending exactly when its timeout is armed, under one timer. */
  lemma PendingIffTimerArmed(events: seq<Event>, id: RequestId, timer: TimerId)
    ensures var c := Run(events);
      Pending(id, timer) in c.pending <==> timer in c.timers && c.timers[timer] == RequestTimeout(id)
  {
    RunKeepsInv(events);
  }

  /** No request can stay unsettled: its timeout is armed, and firing it settles the request. */
  lemma TimeoutSettlesPending(events: seq<Event>, p: Pending, made: bool)
    requires p in Run(events).pending
    ensures Possible(Run(events), TimerFires(p.timer, made))
    ensures var c := Run(events);
      var d := Step(c, TimerFires(p.timer, made));
      && d.settled == c.settled + [Settlement(p.id, Rejected("request_timeout"))]
      && PendingCount(d.pending, p.id) == 0
  {
    RunKeepsInv(events);
    WithoutForgets(Run(events).pending, p.id, p.id);
  }

  /** close() rejects each pending request once and leaves nothing pending and no request timer. */
  lemma CloseSettlesEverything(events: seq<Event>, id: RequestId)
    ensures var c := Run(events);
      var d := Step(c, Close);
      && d.pending == [] && d.socket == None && d.state == Closed
      && (forall t <- d.timers :: d.timers[t] == ReconnectDelay)
      && c.settled <= d.settled
      && (forall s <- d.settled[|c.settled|..] :: s.outcome == Rejected("client_closed"))
      && SettledCount(d.settled, id) == if id in c.issued then 1 else 0
  {
    var c := Run(events);
    RunKeepsInv(events);
    RejectPendingKeepsAccount(c, "client_closed");
    RejectPendingKeepsTimers(c, "client_closed");
    RejectionsCount(c.pending, "client_closed", id);
    assert PendingCount([], id) == 0;
  }

  /** Losing the current socket rejects each pending request once and schedules one reconnect. */
  lemma LosingTheSocketSettlesEverything(events: seq<Event>, socket: SocketId, id: RequestId)
    requires Run(events).socket == Some(socket) && Possible(Run(events), SocketCloses(socket))
    ensures var c := Run(events);
      var d := Step(c, SocketCloses(socket));
      && d.pending == [] && d.socket == None && d.state == Reconnecting
      && c.settled <= d.settled
      && (forall s <- d.settled[|c.settled|..] :: s.outcome == Rejected("connection_closed"))
      && SettledCount(d.settled, id) == (if id in c.issued then 1 else 0)
      && d.timers == (c.timers - TimersOf(c.pending))[c.nextTimer := ReconnectDelay]
  {
    var c := Run(events);
    RunKeepsInv(events);
    RejectPendingKeepsAccount(c, "connection_closed");
    RejectionsCount(c.pending, "connection_closed", id);
    assert PendingCount([], id) == 0;
  }

  lemma {:induction false} WithoutLast(pending: seq<Pending>, p: Pending)
    requires PendingCount(pending, p.id) == 0
    ensures Without(pending + [p], p.id) == pending
  {
    if pending == [] {
      assert pending + [p] == [p];
    } else {
      assert (pending + [p])[1..] == pending[1..] + [p];
      WithoutLast(pending[1..], p);
    }
  }

  /** A send that throws leaves no timer and no entry behind: the request is settled at once. */
  lemma FailedSendLeavesNothing(events: seq<Event>, id: RequestId)
    requires Run(events).Valid() && CanSend(Run(events)) && id !in Run(events).issued
    ensures var c := Run(events);
      Step(c, Request(id, false)) == c.(issued := c.issued + {id}, nextTimer := c.nextTimer + 1,
                                        settled := c.settled + [Settlement(id, Rejected("send_failed"))])
  {
    RunKeepsInv(events);
    var c := Run(events);
    assert PendingCount(c.pending, id) + SettledCount(c.settled, id) == 0;
    PutFresh(c.pending, Pending(id, c.nextTimer));
    WithoutLast(c.pending, Pending(id, c.nextTimer));
    assert c.timers[c.nextTimer := RequestTimeout(id)] - {c.nextTimer} == c.timers;
  }

  /** A close event of any other socket changes nothing but that socket. */
  lemma StaleCloseIsIgnored(c: Client, socket: SocketId)
    requires Possible(c, SocketCloses(socket)) && c.socket != Some(socket)
    ensures Step(c, SocketCloses(socket)) == c.(sockets := c.sockets[socket := Shut])
  {
  }

  /** No socket leaks: in every run only the current one can be opening or open. */
  lemma {:induction false} OnlyTheCurrentSocketIsLive(events: seq<Event>, s: SocketId)
    requires s < |Run(events).sockets| && Live(Run(events).sockets[s])
    ensures Run(events).socket == Some(s)
  {
    RunKeepsInv(events);
  }

  /**
   After close(), and until the next connect(), nothing reopens a socket: pending reconnect
   timers fire without effect and the state stays closed.
   */
  lemma ClosedStaysClosed(events: seq<Event>, e: Event)
    requires Run(events).closedByClient && !e.Connect?
    ensures var d := Step(Run(events), e);
      && d.closedByClient && d.state == Closed && d.socket == None && d.pending == []
      && |d.sockets| == |Run(events).sockets|
  {
    RunKeepsInv(events);
    NoSocketNothingPending(events);
    StepKeepsInv(Run(events), e);
  }

  /** In every run, nothing is pending while there is no socket. */
  lemma {:induction false} NoSocketNothingPending(events: seq<Event>)
    ensures Run(events).socket == None ==> Run(events).pending == []
  {
    if events != [] {
      var before := events[..|events| - 1];
      NoSocketNothingPending(before);
      RunKeepsInv(before);
    }
  }

  /** The `closed` branch of the close handler is never taken. */
  lemma {:induction false} CloseHandlerNeverSeesClientClose(events: seq<Event>, socket: SocketId)
    requires Run(events).socket == Some(socket)
    ensures !Run(events).closedByClient
  {
    RunKeepsInv(events);
  }

  // ---------------------------------------------------------------------------------------
  // Which socket a pending request belongs to
  // ---------------------------------------------------------------------------------------

  /** The step makes a request pending, or would if the send did not throw. */
  predicate Issues(c: Client, e: Event, id: RequestId) {
    e.Request? && e.id == id && Possible(c, e) && CanSend(c)
  }

  /** The socket that was current when a request was issued. */
  function Owner(events: seq<Event>, id: RequestId): Option<SocketId> {
    if events == [] then None
    else
      var before, last := Run(events[..|events| - 1]), events[|events| - 1];
      if Issues(before, last, id) then before.socket else Owner(events[..|events| - 1], id)
  }

  /** The step opens a socket: connect() with a URL, or a reconnect timer that was not cancelled. */
  predicate OpensSocket(c: Client, e: Event) {
    && Possible(c, e)
    && match e
       case Connect(url, made) => made && url != ""
       case TimerFires(timer, made) => made && c.timers[timer].ReconnectDelay? && !c.closedByClient && c.url != ""
       case _ => false
  }

  /** A step after the one that issued the request opened a socket. */
  predicate OpenedSince(events: seq<Event>, id: RequestId) {
    if events == [] then false
    else
      var before, last := Run(events[..|events| - 1]), events[|events| - 1];
      !Issues(before, last, id) && (OpensSocket(before, last) || OpenedSince(events[..|events| - 1], id))
  }

  /** What is pending after a step was pending before it or has just been issued. */
  lemma StepPending(c: Client, e: Event, p: Pending)
    requires p in Step(c, e).pending
    ensures p in c.pending || Issues(c, e, p.id)
  {
    if Possible(c, e) {
      match e
      case TimerFires(timer, _) =>
        if c.timers[timer].RequestTimeout? {
          WithoutRemoves(c.pending, c.timers[timer].id);
        }
      case Response(_, id, _) => WithoutRemoves(c.pending, id);
      case Request(id, sent) =>
        if CanSend(c) {
          var entry := Pending(id, c.nextTimer);
          WithoutRemoves(Put(c.pending, entry), id);
          assert p in Put(c.pending, entry);
          PutHolds(c.pending, entry, p);
        }
      case _ =>
    }
  }

  lemma {:induction false} PutHolds(pending: seq<Pending>, entry: Pending, p: Pending)
    requires p in Put(pending, entry)
    ensures p == entry || p in pending
  {
    if pending != [] && pending[0].id != entry.id && p != pending[0] {
      PutHolds(pending[1..], entry, p);
    }
  }

  lemma SocketsOnlyGrow(c: Client, e: Event)
    ensures |Step(c, e).sockets| >= |c.sockets|
  {
  }

  lemma {:induction false} OwnerExists(events: seq<Event>, p: Pending)
    requires p in Run(events).pending
    ensures Owner(events, p.id).Some? && Owner(events, p.id).value < |Run(events).sockets|
  {
    var front, last := events[..|events| - 1], events[|events| - 1];
    var before := Run(front);
    StepPending(before, last, p);
    SocketsOnlyGrow(before, last);
    if !Issues(before, last, p.id) {
      OwnerExists(front, p);
    }
  }

  /** Opening a socket replaces the current one and settles nothing. */
  lemma OpeningReplaces(c: Client, e: Event)
    requires OpensSocket(c, e)
    ensures Step(c, e).socket == Some(|c.sockets|)
    ensures Step(c, e).pending == c.pending && Step(c, e).settled == c.settled
  {
  }

  /** Any other step keeps the current socket or leaves nothing pending. */
  lemma OtherStepsKeepSocket(c: Client, e: Event)
    requires !OpensSocket(c, e)
    ensures Step(c, e).socket == c.socket || Step(c, e).pending == []
  {
  }

  /**
   In every run, a pending request belongs to the current socket exactly when no socket was opened
   since it was issued.
   */
  lemma {:induction false} PendingBelongsToSocketIff(events: seq<Event>, p: Pending)
    requires p in Run(events).pending
    ensures Owner(events, p.id) == Run(events).socket <==> !OpenedSince(events, p.id)
  {
    var front, last := events[..|events| - 1], events[|events| - 1];
    var before := Run(front);
    StepPending(before, last, p);
    if !Issues(before, last, p.id) {
      OwnerExists(front, p);
      PendingBelongsToSocketIff(front, p);
      if OpensSocket(before, last) {
        OpeningReplaces(before, last);
      } else {
        OtherStepsKeepSocket(before, last);
      }
    }
  }

  /** If one was opened, the request's own socket is closing or shut, and its end settles nothing. */
  lemma StrandedSocketSettlesNothing(events: seq<Event>, p: Pending)
    requires p in Run(events).pending && OpenedSince(events, p.id)
    ensures var c := Run(events);
      var owner := Owner(events, p.id);
      && owner.Some? && owner.value < |c.sockets| && !Live(c.sockets[owner.value])
      && Step(c, SocketCloses(owner.value)).pending == c.pending
      && Step(c, SocketCloses(owner.value)).settled == c.settled
  {
    var c, owner := Run(events), Owner(events, p.id);
    OwnerExists(events, p);
    PendingBelongsToSocketIff(events, p);
    RunKeepsInv(events);
    if Possible(c, SocketCloses(owner.value)) {
      StaleCloseIsIgnored(c, owner.value);
    }
  }

  lemma RunSnoc(events: seq<Event>, e: Event)
    ensures Run(events + [e]) == Step(Run(events), e)
  {
    assert (events + [e])[..|events|] == events;
  }

  /**
   Opening a socket rejects nothing: every request pending then stays pending and belongs to a
   socket that is no longer current.
   */
  lemma OpeningStrandsPending(events: seq<Event>, e: Event, p: Pending)
    requires p in Run(events).pending && OpensSocket(Run(events), e)
    ensures var c, d := Run(events), Run(events + [e]);
      && d.pending == c.pending && d.settled == c.settled
      && OpenedSince(events + [e], p.id) && Owner(events + [e], p.id) != d.socket
  {
    OpeningReplaces(Run(events), e);
    RunSnoc(events, e);
    assert (events + [e])[..|events|] == events;
    PendingBelongsToSocketIff(events + [e], p);
  }

  lemma FirstConnectionIsLost() returns (events: seq<Event>)
    ensures Run(events)
         == INITIAL.(state := Reconnecting, url := "ws://liz", sockets := [Shut], timers := map[0 := ReconnectDelay],
                     nextTimer := 1)
  {
    events := [];
    RunSnoc(events, Connect("ws://liz", true));
    events := events + [Connect("ws://liz", true)];
    RunSnoc(events, SocketOpens(0));
    events := events + [SocketOpens(0)];
    RunSnoc(events, SocketCloses(0));
    events := events + [SocketCloses(0)];
  }

  /**
   No connect() is needed once the request is sent: a reconnect timer armed before, which a
   connect() in between does not cancel, replaces the socket the request went out on.
   */
  lemma ReconnectCanStrandPending() returns (events: seq<Event>)
    ensures Run(events).pending == [Pending("r", 1)] && Run(events).settled == []
    ensures Owner(events, "r") == Some(1) && Run(events).socket == Some(2)
    ensures OpenedSince(events, "r")
  {
    events := FirstConnectionIsLost();
    RunSnoc(events, Connect("ws://liz", true));
    events := events + [Connect("ws://liz", true)];
    RunSnoc(events, SocketOpens(1));
    events := events + [SocketOpens(1)];
    var connected := events;
    RunSnoc(events, Request("r", true));
    events := events + [Request("r", true)];
    assert events[..|connected|] == connected && Owner(events, "r") == Some(1);
    OpeningStrandsPending(events, TimerFires(0, true), Pending("r", 1));
    RunSnoc(events, TimerFires(0, true));
    assert (events + [TimerFires(0, true)])[..|events|] == events;
    events := events + [TimerFires(0, true)];
  }
}
