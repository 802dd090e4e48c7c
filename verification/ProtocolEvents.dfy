/**
 What each call and each event does to a protocol client that any run may have led to, field by
 field (apps/liz-web/src/protocol/client.ts).
 */
module ProtocolEvents {
  import opened Common
  import opened ProtocolClients

  // ---------------------------------------------------------------------------------------
  // The parts that several of them share
  // ---------------------------------------------------------------------------------------

  /** Whatever was opening or open has started to close. */
  function AllClosing(sockets: seq<ReadyState>): seq<ReadyState> {
    seq(|sockets|, i requires 0 <= i < |sockets| =>
      if sockets[i] == Opening || sockets[i] == Open then Closing else sockets[i])
  }

  /** Every pending request is rejected with the code, in order; no request timer is left. */
  ghost predicate RejectsAll(c: Client, d: Client, code: string) {
    && d.pending == [] && d.issued == c.issued
    && |d.settled| == |c.settled| + |c.pending| && d.settled[..|c.settled|] == c.settled
    && (forall i | 0 <= i < |c.pending| ::
          d.settled[|c.settled| + i] == Settlement(c.pending[i].id, Rejected(code)))
    && (forall t <- c.timers :: c.timers[t].RequestTimeout? ==> t !in d.timers)
  }

  /** Exactly the entry `p` is gone, with its timer, and the settlement is logged last. */
  ghost predicate SettlesOne(c: Client, d: Client, p: Pending, outcome: Outcome) {
    && (exists i | 0 <= i < |c.pending| ::
          c.pending[i] == p && d.pending == c.pending[..i] + c.pending[i + 1..])
    && p.timer in c.timers && d.timers == c.timers - {p.timer}
    && d.settled == c.settled + [Settlement(p.id, outcome)]
    && d == c.(pending := d.pending, timers := d.timers, settled := d.settled)
  }

  lemma RunIsValid(events: seq<Event>)
    ensures Run(events).Valid()
  {
    RunKeepsInv(events);
  }

  lemma ClosingIsAllClosing(events: seq<Event>)
    ensures Run(events).Valid()
    ensures AfterSocketClose(Run(events)) == Run(events).(sockets := AllClosing(Run(events).sockets))
  {
    var c := Run(events);
    RunKeepsInv(events);
    var closed := AfterSocketClose(c).sockets;
    assert |closed| == |c.sockets|;
    forall i: nat | i < |c.sockets| ensures closed[i] == AllClosing(c.sockets)[i] {
      assert Live(c.sockets[i]) ==> c.socket == Some(i);
    }
    assert closed == AllClosing(c.sockets);
  }

  lemma {:induction false} RejectionsAt(pending: seq<Pending>, code: string, i: nat)
    requires i < |pending|
    ensures |Rejections(pending, code)| == |pending|
    ensures Rejections(pending, code)[i] == Settlement(pending[i].id, Rejected(code))
  {
    if |pending| > 1 {
      RejectionsAt(pending[..|pending| - 1], code, if i < |pending| - 1 then i else 0);
    }
  }

  lemma RejectingRejectsAll(c: Client, code: string)
    requires Inv(c)
    ensures RejectsAll(c, AfterRejectPending(c, code), code)
  {
    forall i: nat | i < |c.pending|
      ensures |Rejections(c.pending, code)| == |c.pending|
      ensures Rejections(c.pending, code)[i] == Settlement(c.pending[i].id, Rejected(code))
    {
      RejectionsAt(c.pending, code, i);
    }
    forall t <- c.timers | c.timers[t].RequestTimeout? ensures t in TimersOf(c.pending) {
      assert Pending(c.timers[t].id, t) in c.pending;
    }
  }

  lemma {:induction false} WithoutOne(pending: seq<Pending>, p: Pending) returns (i: nat)
    requires p in pending && forall q <- pending :: q.id == p.id ==> q == p
    requires PendingCount(pending, p.id) <= 1
    ensures i < |pending| && pending[i] == p && Without(pending, p.id) == pending[..i] + pending[i + 1..]
  {
    if pending[0] == p {
      i := 0;
      NothingTaken(pending[1..], p.id);
      assert [] + pending[1..] == pending[1..];
    } else {
      var j := WithoutOne(pending[1..], p);
      i := j + 1;
      assert pending[..i] == [pending[0]] + pending[1..][..j] && pending[i + 1..] == pending[1..][j + 1..];
    }
  }

  lemma {:induction false} NothingTaken(pending: seq<Pending>, id: RequestId)
    requires PendingCount(pending, id) == 0
    ensures Without(pending, id) == pending
  {
    if pending != [] {
      NothingTaken(pending[1..], id);
    }
  }

  lemma TakenOut(c: Client, p: Pending) returns (i: nat)
    requires Inv(c) && p in c.pending
    ensures i < |c.pending| && c.pending[i] == p
    ensures Without(c.pending, p.id) == c.pending[..i] + c.pending[i + 1..]
  {
    forall q <- c.pending | q.id == p.id ensures q == p {
      PendingOnce(c.issued, c.pending, c.settled, p, q);
    }
    assert PendingCount(c.pending, p.id) + SettledCount(c.settled, p.id) <= 1;
    i := WithoutOne(c.pending, p);
  }

  // ---------------------------------------------------------------------------------------
  // The calls
  // ---------------------------------------------------------------------------------------

  /** connect(): the old socket starts to close and a new one is opened, if there is a URL. */
  lemma ConnectDoes(events: seq<Event>, url: string, made: bool)
    ensures var c := Run(events);
      var closing := AllClosing(c.sockets);
      Run(events + [Connect(url, made)])
      == if url == "" then c.(url := url, closedByClient := false)
         else if made then
           c.(url := url, closedByClient := false, state := Connecting, sockets := closing + [Opening],
              socket := Some(|closing|))
         else c.(url := url, closedByClient := false, state := Connecting, sockets := closing)
  {
    ClosingIsAllClosing(events);
    RunSnoc(events, Connect(url, made));
  }

  /** close(): nothing is pending and no socket is current afterwards. */
  lemma CloseDoes(events: seq<Event>)
    ensures var c, d := Run(events), Run(events + [Close]);
      && RejectsAll(c, d, "client_closed")
      && (forall t <- c.timers :: c.timers[t] == ReconnectDelay ==> t in d.timers && d.timers[t] == ReconnectDelay)
      && d.timers.Keys <= c.timers.Keys
      && d == c.(state := Closed, closedByClient := true, socket := None, sockets := AllClosing(c.sockets),
                 pending := d.pending, settled := d.settled, timers := d.timers)
  {
    var c := Run(events);
    RunKeepsInv(events);
    ClosingIsAllClosing(events);
    RunSnoc(events, Close);
    RejectingRejectsAll(c, "client_closed");
  }

  /** request(): without an open socket nothing happens, else the request is pending under a new timer. */
  lemma RequestDoes(events: seq<Event>, id: RequestId)
    requires id !in Run(events).issued
    ensures var c, d := Run(events), Run(events + [Request(id, true)]);
      if c.socket.Some? && c.socket.value < |c.sockets| && c.sockets[c.socket.value] == Open then
        d == c.(pending := c.pending + [Pending(id, c.nextTimer)], issued := c.issued + {id},
                timers := c.timers[c.nextTimer := RequestTimeout(id)], nextTimer := c.nextTimer + 1)
      else d == c && Run(events + [Request(id, false)]) == c
  {
    var c := Run(events);
    RunKeepsInv(events);
    RunSnoc(events, Request(id, true));
    RunSnoc(events, Request(id, false));
    assert PendingCount(c.pending, id) + SettledCount(c.settled, id) == 0;
    PutFresh(c.pending, Pending(id, c.nextTimer));
  }

  // ---------------------------------------------------------------------------------------
  // The events
  // ---------------------------------------------------------------------------------------

  /** A response resolves exactly the pending request with its id, and is ignored if there is none. */
  lemma ResponseDoes(events: seq<Event>, socket: SocketId, id: RequestId, ok: bool)
    requires socket < |Run(events).sockets| && Run(events).sockets[socket] == Open
    ensures var c, d := Run(events), Run(events + [Response(socket, id, ok)]);
      && (forall p <- c.pending :: p.id == id ==> SettlesOne(c, d, p, Resolved(id, ok)))
      && ((forall p <- c.pending :: p.id != id) ==> d == c)
  {
    var c := Run(events);
    RunKeepsInv(events);
    RunSnoc(events, Response(socket, id, ok));
    forall p <- c.pending | p.id == id ensures SettlesOne(c, Step(c, Response(socket, id, ok)), p, Resolved(id, ok)) {
      var found := Find(c.pending, id);
      PendingOnce(c.issued, c.pending, c.settled, p, found.value);
      var i := TakenOut(c, p);
    }
  }

  /** The timeout of a request rejects it and takes nothing else away. */
  lemma TimeoutDoes(events: seq<Event>, p: Pending, made: bool)
    requires p in Run(events).pending
    ensures SettlesOne(Run(events), Run(events + [TimerFires(p.timer, made)]), p, Rejected("request_timeout"))
  {
    var c := Run(events);
    RunKeepsInv(events);
    RunSnoc(events, TimerFires(p.timer, made));
    var i := TakenOut(c, p);
  }

  /** A reconnect timer opens a new socket, unless the client was closed or has no URL. */
  lemma ReconnectDoes(events: seq<Event>, timer: TimerId, made: bool)
    requires timer in Run(events).timers && Run(events).timers[timer] == ReconnectDelay
    ensures var c := Run(events);
      var fired := c.(timers := c.timers - {timer});
      var closing := AllClosing(c.sockets);
      Run(events + [TimerFires(timer, made)])
      == if c.closedByClient || c.url == "" then fired
         else if made then
           fired.(state := Reconnecting, sockets := closing + [Opening], socket := Some(|closing|))
         else fired.(state := Reconnecting, sockets := closing)
  {
    ClosingIsAllClosing(events);
    RunSnoc(events, TimerFires(timer, made));
  }

  /** The end of the current socket rejects everything and arms a reconnect; any other end does nothing. */
  lemma SocketEndDoes(events: seq<Event>, socket: SocketId)
    requires socket < |Run(events).sockets| && Run(events).sockets[socket] != Shut
    ensures var c, d := Run(events), Run(events + [SocketCloses(socket)]);
      var shut := c.sockets[socket := Shut];
      if c.socket != Some(socket) then d == c.(sockets := shut)
      else
        && RejectsAll(c, d, "connection_closed")
        && c.nextTimer in d.timers && d.timers[c.nextTimer] == ReconnectDelay
        && (forall t <- c.timers :: c.timers[t] == ReconnectDelay ==> t in d.timers && d.timers[t] == ReconnectDelay)
        && d.timers.Keys <= c.timers.Keys + {c.nextTimer}
        && d == c.(state := Reconnecting, socket := None, sockets := shut, nextTimer := c.nextTimer + 1,
                   pending := d.pending, settled := d.settled, timers := d.timers)
  {
    var c := Run(events);
    RunKeepsInv(events);
    RunSnoc(events, SocketCloses(socket));
    RejectingRejectsAll(c, "connection_closed");
  }

  lemma SocketEventSteps(c: Client, socket: SocketId)
    requires c.Valid() && socket < |c.sockets|
    ensures c.sockets[socket] == Opening ==>
      Step(c, SocketOpens(socket)) == c.(sockets := c.sockets[socket := Open], state := Connected)
    ensures c.sockets[socket] == Opening || c.sockets[socket] == Open ==>
      Step(c, SocketStartsClosing(socket)) == c.(sockets := c.sockets[socket := Closing])
    ensures Step(c, SocketErrs(socket)) == if c.state == Connected then c.(state := Reconnecting) else c
  {
  }

  /** The other socket events only move the state along. */
  lemma SocketEventsDo(events: seq<Event>, socket: SocketId)
    requires socket < |Run(events).sockets|
    ensures var c := Run(events);
      && (c.sockets[socket] == Opening ==>
            Run(events + [SocketOpens(socket)]) == c.(sockets := c.sockets[socket := Open], state := Connected))
      && (c.sockets[socket] == Opening || c.sockets[socket] == Open ==>
            Run(events + [SocketStartsClosing(socket)]) == c.(sockets := c.sockets[socket := Closing]))
      && Run(events + [SocketErrs(socket)])
         == if c.state == Connected then c.(state := Reconnecting) else c
  {
    RunIsValid(events);
    RunSnoc(events, SocketOpens(socket));
    RunSnoc(events, SocketStartsClosing(socket));
    RunSnoc(events, SocketErrs(socket));
    SocketEventSteps(Run(events), socket);
  }
}
