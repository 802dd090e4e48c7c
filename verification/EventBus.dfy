/**
 The event bus (crates/liz-app-server/src/events/mod.rs).

 `publish` takes its sequence number from an atomic counter before it takes the subscriber
 lock, so concurrent publishers interleave as two steps each: `Allocate` and `Deliver`.
 */
module EventBuses {
  import opened Common

  const COUNTER_RANGE := 0x1_0000_0000_0000_0000

  /** `index` counts allocations from zero without wrapping; the bus itself only sees `id`. */
  datatype ServerEvent = ServerEvent(id: string, index: nat, payload: string)

  /** One mpsc channel. `since` and `until` record the log length when it was opened and dropped. */
  datatype Channel = Channel(inbox: seq<ServerEvent>, since: nat, until: Option<nat>)

  datatype Bus = Bus(subscribers: seq<nat>, channels: seq<Channel>, sequence: nat, log: seq<ServerEvent>)

  function EventId(sequence: nat): string {
    "event_" + Decimal(sequence)
  }

  // ---------------------------------------------------------------------------------------
  // The critical sections, on values
  // ---------------------------------------------------------------------------------------

  function AfterSubscribe(b: Bus): Bus {
    b.(subscribers := b.subscribers + [|b.channels|], channels := b.channels + [Channel([], |b.log|, None)])
  }

  /** `send` fails exactly when the receiver is gone. */
  predicate Alive(channels: seq<Channel>, s: nat) {
    s < |channels| && channels[s].until.None?
  }

  function Retained(subscribers: seq<nat>, channels: seq<Channel>): seq<nat> {
    if subscribers == [] then []
    else
      var front, last := subscribers[..|subscribers| - 1], subscribers[|subscribers| - 1];
      Retained(front, channels) + if Alive(channels, last) then [last] else []
  }

  function Sent(channels: seq<Channel>, subscribers: seq<nat>, event: ServerEvent): seq<Channel> {
    if subscribers == [] then channels
    else
      var before := Sent(channels, subscribers[..|subscribers| - 1], event);
      var s := subscribers[|subscribers| - 1];
      if Alive(before, s) then before[s := before[s].(inbox := before[s].inbox + [event])] else before
  }

  function AfterDeliver(b: Bus, event: ServerEvent): Bus {
    b.(subscribers := Retained(b.subscribers, b.channels),
       channels := Sent(b.channels, b.subscribers, event),
       log := b.log + [event])
  }

  class EventBus {
    var subscribers: seq<nat>
    var sequence: nat
    // Both ends of the channels, and the order in which events were handed to them.
    var channels: seq<Channel>
    var log: seq<ServerEvent>

    function View(): Bus
      reads this
    {
      Bus(subscribers, channels, sequence, log)
    }

    constructor ()
      ensures View() == Bus([], [], 0, [])
    {
      subscribers, channels, sequence, log := [], [], 0, [];
    }

    method Subscribe() returns (receiver: nat)
      modifies this
      ensures View() == AfterSubscribe(old(View())) && receiver == old(|channels|)
    {
      receiver := |channels|;
      channels := channels + [Channel([], |log|, None)];
      subscribers := subscribers + [receiver];
    }

    /** `fetch_add(1) + 1` on a 64-bit counter. */
    method NextSequence() returns (number: nat)
      modifies this`sequence
      ensures number == (old(sequence) + 1) % COUNTER_RANGE && sequence == number
    {
      sequence := (sequence + 1) % COUNTER_RANGE;
      number := sequence;
    }

    /** Under the lock, offer the event to each sender in turn and keep those whose receiver took it. */
    method Deliver(event: ServerEvent)
      modifies this
      ensures View() == AfterDeliver(old(View()), event)
    {
      var kept: seq<nat> := [];
      var i := 0;
      while i < |subscribers|
        invariant i <= |subscribers| && subscribers == old(subscribers)
        invariant sequence == old(sequence) && log == old(log)
        invariant channels == Sent(old(channels), subscribers[..i], event)
        invariant kept == Retained(subscribers[..i], old(channels))
      {
        var s := subscribers[i];
        assert subscribers[..i + 1] == subscribers[..i] + [s];
        SendingKeepsLife(old(channels), subscribers[..i], event);
        if Alive(channels, s) {
          channels := channels[s := channels[s].(inbox := channels[s].inbox + [event])];
          kept := kept + [s];
        }
        i := i + 1;
      }
      assert subscribers[..i] == subscribers;
      subscribers := kept;
      log := log + [event];
    }
  }

  lemma {:induction false} SendingKeepsLife(channels: seq<Channel>, subscribers: seq<nat>, event: ServerEvent)
    ensures |Sent(channels, subscribers, event)| == |channels|
    ensures forall s: nat :: Alive(Sent(channels, subscribers, event), s) <==> Alive(channels, s)
  {
    if subscribers != [] {
      SendingKeepsLife(channels, subscribers[..|subscribers| - 1], event);
    }
  }

  // ---------------------------------------------------------------------------------------
  // Concurrent publishers
  // ---------------------------------------------------------------------------------------

  type Publisher = nat

  /** `inFlight` holds the events that have an id and are not delivered yet. */
  datatype System = System(bus: Bus, inFlight: map<Publisher, ServerEvent>, allocations: nat)

  datatype Action =
    | Subscribe
    | DropReceiver(s: nat)
    | Allocate(publisher: Publisher, payload: string)
    | Deliver(publisher: Publisher)

  const INITIAL := System(Bus([], [], 0, []), map[], 0)

  predicate Possible(x: System, a: Action) {
    match a
    case Subscribe => true
    case DropReceiver(s) => Alive(x.bus.channels, s)
    case Allocate(publisher, _) => publisher !in x.inFlight
    case Deliver(publisher) => publisher in x.inFlight
  }

  function Step(x: System, a: Action): System {
    if !Possible(x, a) then x else
    match a
    case Subscribe => x.(bus := AfterSubscribe(x.bus))
    case DropReceiver(s) =>
      x.(bus := x.bus.(channels := x.bus.channels[s := x.bus.channels[s].(until := Some(|x.bus.log|))]))
    case Allocate(publisher, payload) =>
      var sequence := (x.bus.sequence + 1) % COUNTER_RANGE;
      x.(bus := x.bus.(sequence := sequence), allocations := x.allocations + 1,
         inFlight := x.inFlight[publisher := ServerEvent(EventId(sequence), x.allocations, payload)])
    case Deliver(publisher) =>
      x.(bus := AfterDeliver(x.bus, x.inFlight[publisher]), inFlight := x.inFlight - {publisher})
  }

  /** The system after a whole run; an impossible action changes nothing. */
  function Run(actions: seq<Action>): System {
    if actions == [] then INITIAL else Step(Run(actions[..|actions| - 1]), actions[|actions| - 1])
  }

  // ---------------------------------------------------------------------------------------
  // The invariant
  // ---------------------------------------------------------------------------------------

  /** The part of the log a channel was open for. */
  function Segment(log: seq<ServerEvent>, ch: Channel): seq<ServerEvent> {
    var end := ch.until.Or(|log|);
    if ch.since <= end <= |log| then log[ch.since..end] else []
  }

  ghost predicate ChannelInv(log: seq<ServerEvent>, ch: Channel) {
    && ch.since <= ch.until.Or(|log|) <= |log|
    && ch.inbox == Segment(log, ch)
  }

  ghost predicate Increasing(s: seq<nat>) {
    forall i, j | 0 <= i < j < |s| :: s[i] < s[j]
  }

  ghost predicate BusInv(b: Bus) {
    && Increasing(b.subscribers)
    && (forall s <- b.subscribers :: s < |b.channels|)
    && (forall s: nat | Alive(b.channels, s) :: s in b.subscribers)
    && (forall s: nat | s < |b.channels| :: ChannelInv(b.log, b.channels[s]))
  }

  ghost predicate Named(e: ServerEvent, allocations: nat) {
    e.index < allocations && e.id == EventId((e.index + 1) % COUNTER_RANGE)
  }

  /** Allocation indices are used once, and ids follow them. */
  ghost predicate NamesInv(x: System) {
    && x.bus.sequence == x.allocations % COUNTER_RANGE
    && (forall e <- x.bus.log :: Named(e, x.allocations))
    && (forall p <- x.inFlight :: Named(x.inFlight[p], x.allocations))
    && (forall i, j | 0 <= i < j < |x.bus.log| :: x.bus.log[i].index != x.bus.log[j].index)
    && (forall p, q | p in x.inFlight && q in x.inFlight && p != q :: x.inFlight[p].index != x.inFlight[q].index)
    && (forall p, i | p in x.inFlight && 0 <= i < |x.bus.log| :: x.inFlight[p].index != x.bus.log[i].index)
  }

  lemma IncreasingSnoc(front: seq<nat>, last: nat)
    requires Increasing(front) && forall s <- front :: s < last
    ensures Increasing(front + [last])
  {
    assert forall i | 0 <= i < |front| :: front[i] in front;
  }

  lemma {:induction false} RetainedKeepsOrder(subscribers: seq<nat>, channels: seq<Channel>)
    requires Increasing(subscribers)
    ensures Increasing(Retained(subscribers, channels))
    ensures forall s: nat :: s in Retained(subscribers, channels) <==> s in subscribers && Alive(channels, s)
  {
    if subscribers != [] {
      var front, last := subscribers[..|subscribers| - 1], subscribers[|subscribers| - 1];
      assert subscribers == front + [last];
      RetainedKeepsOrder(front, channels);
      assert forall s <- Retained(front, channels) :: s < last;
      IncreasingSnoc(Retained(front, channels), last);
    }
  }

  /** Each live subscriber gets the event once, at the end of its inbox; nobody else gets it. */
  lemma SentSnoc(channels: seq<Channel>, front: seq<nat>, last: nat, event: ServerEvent, s: nat)
    requires s < |channels| == |Sent(channels, front, event)| == |Sent(channels, front + [last], event)|
    ensures var before := Sent(channels, front, event);
      Sent(channels, front + [last], event)[s]
      == if s == last && Alive(before, s) then before[s].(inbox := before[s].inbox + [event]) else before[s]
  {
    assert (front + [last])[..|front|] == front;
  }

  lemma {:induction false} SentOncePerSubscriber(channels: seq<Channel>, subscribers: seq<nat>, event: ServerEvent,
      s: nat)
    requires Increasing(subscribers) && s < |channels|
    ensures |Sent(channels, subscribers, event)| == |channels|
    ensures Sent(channels, subscribers, event)[s]
         == if s in subscribers && Alive(channels, s)
            then channels[s].(inbox := channels[s].inbox + [event])
            else channels[s]
  {
    SendingKeepsLife(channels, subscribers, event);
    if subscribers != [] {
      var front, last := subscribers[..|subscribers| - 1], subscribers[|subscribers| - 1];
      assert subscribers == front + [last];
      assert s in subscribers <==> s in front || s == last;
      assert last !in front;
      SendingKeepsLife(channels, front, event);
      SentOncePerSubscriber(channels, front, event, s);
      SentSnoc(channels, front, last, event, s);
    }
  }

  lemma DeliverKeepsBusInv(b: Bus, event: ServerEvent)
    requires BusInv(b)
    ensures BusInv(AfterDeliver(b, event))
  {
    var c := AfterDeliver(b, event);
    RetainedKeepsOrder(b.subscribers, b.channels);
    SendingKeepsLife(b.channels, b.subscribers, event);
    forall s: nat | s < |c.channels| ensures ChannelInv(c.log, c.channels[s]) {
      SentOncePerSubscriber(b.channels, b.subscribers, event, s);
      assert ChannelInv(b.log, b.channels[s]);
    }
  }

  lemma StepKeepsBusInv(x: System, a: Action)
    requires BusInv(x.bus)
    ensures BusInv(Step(x, a).bus)
  {
    if Possible(x, a) {
      match a {
        case Subscribe => IncreasingSnoc(x.bus.subscribers, |x.bus.channels|);
        case DropReceiver(s) => assert ChannelInv(x.bus.log, x.bus.channels[s]);
        case Allocate(_, _) =>
        case Deliver(publisher) => DeliverKeepsBusInv(x.bus, x.inFlight[publisher]);
      }
    }
  }

  lemma NextIsSuccessor(n: nat)
    ensures (n % COUNTER_RANGE + 1) % COUNTER_RANGE == (n + 1) % COUNTER_RANGE
  {
  }

  lemma AllocateKeepsNames(x: System, a: Action)
    requires NamesInv(x) && a.Allocate? && Possible(x, a)
    ensures NamesInv(Step(x, a))
  {
    var y := Step(x, a);
    var event := y.inFlight[a.publisher];
    NextIsSuccessor(x.allocations);
    assert y.inFlight == x.inFlight[a.publisher := event] && event.index == x.allocations;
    forall i | 0 <= i < |x.bus.log| ensures x.bus.log[i].index < x.allocations {
      assert x.bus.log[i] in x.bus.log;
    }
    assert forall p <- x.inFlight :: x.inFlight[p].index < x.allocations;
  }

  lemma StepKeepsNames(x: System, a: Action)
    requires NamesInv(x)
    ensures NamesInv(Step(x, a))
  {
    if Possible(x, a) && a.Allocate? {
      AllocateKeepsNames(x, a);
    }
  }

  lemma {:induction false} RunKeepsInv(actions: seq<Action>)
    ensures BusInv(Run(actions).bus) && NamesInv(Run(actions))
  {
    if actions != [] {
      var before := actions[..|actions| - 1];
      RunKeepsInv(before);
      StepKeepsBusInv(Run(before), actions[|actions| - 1]);
      StepKeepsNames(Run(before), actions[|actions| - 1]);
    }
  }

  // ---------------------------------------------------------------------------------------
  // What subscribers can rely on
  // ---------------------------------------------------------------------------------------

  /**
   In every run, a subscriber's inbox is the contiguous part of the one delivery log that
   starts at its subscription and ends where its receiver was dropped, if it was.
   */
  lemma InboxIsLogSegment(actions: seq<Action>, s: nat)
    requires s < |Run(actions).bus.channels|
    ensures var b := Run(actions).bus;
      var ch := b.channels[s];
      && ch.since <= ch.until.Or(|b.log|) <= |b.log|
      && ch.inbox == b.log[ch.since..ch.until.Or(|b.log|)]
  {
    RunKeepsInv(actions);
    assert ChannelInv(Run(actions).bus.log, Run(actions).bus.channels[s]);
  }

  /** In every run, any two subscribers see the events they share in the same order. */
  lemma SubscribersAgreeOnOrder(actions: seq<Action>, s: nat, t: nat, i: nat, j: nat, k: nat, l: nat)
    requires var channels := Run(actions).bus.channels;
      && s < |channels| && t < |channels|
      && i < |channels[s].inbox| && j < |channels[s].inbox|
      && k < |channels[t].inbox| && l < |channels[t].inbox|
      && channels[s].inbox[i] == channels[t].inbox[k] && channels[s].inbox[j] == channels[t].inbox[l]
    ensures i < j <==> k < l
    ensures i - j == k - l
  {
    var b := Run(actions).bus;
    RunKeepsInv(actions);
    InboxIsLogSegment(actions, s);
    InboxIsLogSegment(actions, t);
    var ds, dt := b.channels[s].since, b.channels[t].since;
    assert b.log[ds + i] == b.log[dt + k] && b.log[ds + j] == b.log[dt + l];
    assert ds + i == dt + k && ds + j == dt + l;
  }

  /** A subscriber misses nothing while it listens: each delivery reaches every live channel. */
  lemma DeliveryReachesEveryLiveSubscriber(actions: seq<Action>, publisher: Publisher, s: nat)
    requires publisher in Run(actions).inFlight && Alive(Run(actions).bus.channels, s)
    ensures var x := Run(actions);
      var y := Step(x, Deliver(publisher));
      && s < |y.bus.channels|
      && y.bus.channels[s].inbox == x.bus.channels[s].inbox + [x.inFlight[publisher]]
      && s in y.bus.subscribers
  {
    var b := Run(actions).bus;
    RunKeepsInv(actions);
    SentOncePerSubscriber(b.channels, b.subscribers, Run(actions).inFlight[publisher], s);
    RetainedKeepsOrder(b.subscribers, b.channels);
  }

  /** The first delivery after a receiver is gone removes its sender for good. */
  lemma DeliveryPrunesDroppedReceivers(actions: seq<Action>, publisher: Publisher, s: nat)
    requires publisher in Run(actions).inFlight
    ensures s in Step(Run(actions), Deliver(publisher)).bus.subscribers <==> Alive(Run(actions).bus.channels, s)
  {
    var b := Run(actions).bus;
    RunKeepsInv(actions);
    RetainedKeepsOrder(b.subscribers, b.channels);
  }

  function Value(digits: string): int {
    if digits == "" then 0
    else Value(digits[..|digits| - 1]) * 10 + (digits[|digits| - 1] as int - '0' as int)
  }

  lemma {:induction false} DecimalIsReadable(n: nat)
    ensures Value(Decimal(n)) == n
  {
    if n < 10 {
      assert [Digit(n)][..0] == "";
    } else {
      DecimalIsReadable(n / 10);
      assert Decimal(n)[..|Decimal(n)| - 1] == Decimal(n / 10);
    }
  }

  lemma EventIdIsInjective(m: nat, n: nat)
    requires EventId(m) == EventId(n)
    ensures m == n
  {
    assert EventId(m)[6..] == Decimal(m) && EventId(n)[6..] == Decimal(n);
    DecimalIsReadable(m);
    DecimalIsReadable(n);
  }

  lemma SameResidue(i: nat, j: nat)
    ensures (i + 1) % COUNTER_RANGE == (j + 1) % COUNTER_RANGE <==> i % COUNTER_RANGE == j % COUNTER_RANGE
  {
  }

  lemma IdsEqualIff(i: nat, j: nat)
    ensures EventId((i + 1) % COUNTER_RANGE) == EventId((j + 1) % COUNTER_RANGE)
        <==> i % COUNTER_RANGE == j % COUNTER_RANGE
  {
    SameResidue(i, j);
    if EventId((i + 1) % COUNTER_RANGE) == EventId((j + 1) % COUNTER_RANGE) {
      EventIdIsInjective((i + 1) % COUNTER_RANGE, (j + 1) % COUNTER_RANGE);
    }
  }

  /** The event was delivered or is in flight. */
  ghost predicate Present(x: System, e: ServerEvent) {
    e in x.bus.log || exists p <- x.inFlight :: x.inFlight[p] == e
  }

  lemma PresentIsNamed(x: System, e: ServerEvent)
    requires NamesInv(x) && Present(x, e)
    ensures Named(e, x.allocations)
  {
  }

  /** Two events, delivered or in flight, share an id exactly when whole counter ranges lie between them. */
  lemma IdsRepeatOnlyAfterWrap(actions: seq<Action>, e: ServerEvent, f: ServerEvent)
    requires Present(Run(actions), e) && Present(Run(actions), f)
    ensures e.id == f.id <==> e.index % COUNTER_RANGE == f.index % COUNTER_RANGE
  {
    RunKeepsInv(actions);
    PresentIsNamed(Run(actions), e);
    PresentIsNamed(Run(actions), f);
    IdsEqualIff(e.index, f.index);
  }

  lemma SmallResidues(i: nat, j: nat)
    requires i < COUNTER_RANGE && j < COUNTER_RANGE
    ensures i % COUNTER_RANGE == j % COUNTER_RANGE <==> i == j
  {
  }

  lemma NamesAreApart(e: ServerEvent, f: ServerEvent, allocations: nat)
    requires Named(e, allocations) && Named(f, allocations) && allocations <= COUNTER_RANGE
    ensures e.id == f.id <==> e.index == f.index
  {
    IdsEqualIff(e.index, f.index);
    SmallResidues(e.index, f.index);
  }

  /** Before the 64-bit counter wraps, the ids of all events, delivered or in flight, are pairwise distinct. */
  lemma EventIdsAreDistinct(actions: seq<Action>)
    requires Run(actions).allocations <= COUNTER_RANGE
    ensures var x := Run(actions);
      && (forall i, j | 0 <= i < j < |x.bus.log| :: x.bus.log[i].id != x.bus.log[j].id)
      && (forall p, q | p in x.inFlight && q in x.inFlight && p != q :: x.inFlight[p].id != x.inFlight[q].id)
      && (forall p, i | p in x.inFlight && 0 <= i < |x.bus.log| :: x.inFlight[p].id != x.bus.log[i].id)
  {
    var x := Run(actions);
    RunKeepsInv(actions);
    forall i, j | 0 <= i < j < |x.bus.log| ensures x.bus.log[i].id != x.bus.log[j].id {
      assert x.bus.log[i] in x.bus.log && x.bus.log[j] in x.bus.log;
      NamesAreApart(x.bus.log[i], x.bus.log[j], x.allocations);
    }
    forall p, q | p in x.inFlight && q in x.inFlight && p != q ensures x.inFlight[p].id != x.inFlight[q].id {
      NamesAreApart(x.inFlight[p], x.inFlight[q], x.allocations);
    }
    forall p, i | p in x.inFlight && 0 <= i < |x.bus.log| ensures x.inFlight[p].id != x.bus.log[i].id {
      assert x.bus.log[i] in x.bus.log;
      NamesAreApart(x.inFlight[p], x.bus.log[i], x.allocations);
    }
  }

  /** A new subscriber is live and listed last, with an empty inbox from here on; nothing else changes. */
  lemma SubscribeDoes(actions: seq<Action>)
    ensures var x, y := Run(actions), Step(Run(actions), Subscribe);
      var s := |x.bus.channels|;
      && y == x.(bus := x.bus.(channels := x.bus.channels + [Channel([], |x.bus.log|, None)],
                               subscribers := x.bus.subscribers + [s]))
  {
  }

  /** A dropped receiver keeps what it has and hears no more; nothing else changes. */
  lemma DropDoes(actions: seq<Action>, s: nat)
    requires s < |Run(actions).bus.channels| && Run(actions).bus.channels[s].until == None
    ensures var x, y := Run(actions), Step(Run(actions), DropReceiver(s));
      && y == x.(bus := x.bus.(channels := y.bus.channels))
      && |y.bus.channels| == |x.bus.channels|
      && y.bus.channels[s] == x.bus.channels[s].(until := Some(|x.bus.log|))
      && forall r: nat | r < |x.bus.channels| && r != s :: y.bus.channels[r] == x.bus.channels[r]
  {
  }

  lemma NumberIsAllocations(actions: seq<Action>)
    ensures Run(actions).bus.sequence == Run(actions).allocations % COUNTER_RANGE
  {
    RunKeepsInv(actions);
  }

  /** A publisher takes the next number for its event; nothing else changes. */
  lemma PublishDoes(actions: seq<Action>, publisher: Publisher, payload: string)
    requires publisher !in Run(actions).inFlight
    ensures var x, y := Run(actions), Step(Run(actions), Allocate(publisher, payload));
      var number := (x.allocations + 1) % COUNTER_RANGE;
      y == x.(allocations := x.allocations + 1, bus := x.bus.(sequence := number),
              inFlight := x.inFlight[publisher := ServerEvent("event_" + Decimal(number), x.allocations, payload)])
  {
    NumberIsAllocations(actions);
    NextIsSuccessor(Run(actions).allocations);
  }

  /** A delivery ends the publish and puts its event last in the log. */
  lemma DeliverDoes(actions: seq<Action>, publisher: Publisher)
    requires publisher in Run(actions).inFlight
    ensures var x, y := Run(actions), Step(Run(actions), Deliver(publisher));
      && y.bus.log == x.bus.log + [x.inFlight[publisher]] && y.bus.sequence == x.bus.sequence
      && y.allocations == x.allocations
      && y.inFlight == map p | p in x.inFlight && p != publisher :: x.inFlight[p]
  {
  }

  /** The payloads published in a run, in the order in which their events got a number. */
  function Published(actions: seq<Action>): seq<string> {
    if actions == [] then []
    else
      var front, a := actions[..|actions| - 1], actions[|actions| - 1];
      Published(front) + if a.Allocate? && a.publisher !in Run(front).inFlight then [a.payload] else []
  }

  ghost predicate Carries(x: System, published: seq<string>) {
    && |published| == x.allocations
    && (forall e <- x.bus.log :: e.index < |published| && e.payload == published[e.index])
    && (forall p <- x.inFlight ::
          x.inFlight[p].index < |published| && x.inFlight[p].payload == published[x.inFlight[p].index])
  }

  /** Every event, delivered or in flight, carries the payload it was published with. */
  lemma {:induction false} PayloadsArrive(actions: seq<Action>)
    ensures Carries(Run(actions), Published(actions))
  {
    if actions != [] {
      var front, a := actions[..|actions| - 1], actions[|actions| - 1];
      PayloadsArrive(front);
    }
  }

  // ---------------------------------------------------------------------------------------
  // Delivery order is not id order
  // ---------------------------------------------------------------------------------------

  lemma RunSnoc(actions: seq<Action>, a: Action)
    ensures Run(actions + [a]) == Step(Run(actions), a)
  {
    assert (actions + [a])[..|actions|] == actions;
  }

  /** Two publishers can deliver in the opposite order of their ids. */
  lemma DeliveryOrderCanDifferFromIdOrder() returns (actions: seq<Action>)
    ensures var log := Run(actions).bus.log;
      |log| == 2 && log[0].id == "event_2" && log[1].id == "event_1"
  {
    actions := [];
    RunSnoc(actions, Allocate(0, ""));
    actions := actions + [Allocate(0, "")];
    RunSnoc(actions, Allocate(1, ""));
    actions := actions + [Allocate(1, "")];
    RunSnoc(actions, Deliver(1));
    actions := actions + [Deliver(1)];
    RunSnoc(actions, Deliver(0));
    actions := actions + [Deliver(0)];
  }

  /** The action, if it delivers, takes the event in flight that was allocated first. */
  predicate TakesOldest(x: System, a: Action) {
    a.Deliver? && Possible(x, a) ==>
      forall p <- x.inFlight :: x.inFlight[a.publisher].index <= x.inFlight[p].index
  }

  /** Every delivery of the run takes the oldest event in flight. */
  predicate OldestFirst(actions: seq<Action>) {
    actions == []
    || (OldestFirst(actions[..|actions| - 1]) && TakesOldest(Run(actions[..|actions| - 1]), actions[|actions| - 1]))
  }

  /** The delivery log is in allocation order. */
  ghost predicate InOrder(x: System) {
    forall i, j | 0 <= i < j < |x.bus.log| :: x.bus.log[i].index < x.bus.log[j].index
  }

  /** Whatever is in flight was allocated after everything delivered. */
  ghost predicate InFlightIsLater(x: System) {
    forall p, i | p in x.inFlight && 0 <= i < |x.bus.log| :: x.bus.log[i].index < x.inFlight[p].index
  }

  lemma AllocateKeepsOrderIff(x: System, a: Action)
    requires NamesInv(x) && a.Allocate? && Possible(x, a)
    ensures InFlightIsLater(Step(x, a)) <==> InFlightIsLater(x)
  {
    var y := Step(x, a);
    assert y.bus.log == x.bus.log && y.inFlight[a.publisher].index == x.allocations;
    assert forall e <- x.bus.log :: e.index < x.allocations;
    assert forall p <- x.inFlight :: p in y.inFlight && y.inFlight[p] == x.inFlight[p];
  }

  lemma DeliverKeepsOrderIff(x: System, a: Action)
    requires NamesInv(x) && a.Deliver? && Possible(x, a)
    ensures InOrder(Step(x, a)) && InFlightIsLater(Step(x, a))
        <==> InOrder(x) && InFlightIsLater(x) && TakesOldest(x, a)
  {
    var y, n := Step(x, a), |x.bus.log|;
    var event := x.inFlight[a.publisher];
    assert y.bus.log == x.bus.log + [event] && y.inFlight == x.inFlight - {a.publisher};
    if InOrder(y) && InFlightIsLater(y) {
      assert y.bus.log[n] == event;
      forall i, j | 0 <= i < j < n ensures x.bus.log[i].index < x.bus.log[j].index {
        assert y.bus.log[i].index < y.bus.log[j].index;
      }
      forall p, i | p in x.inFlight && 0 <= i < n ensures x.bus.log[i].index < x.inFlight[p].index {
        assert y.bus.log[i].index < y.bus.log[n].index;
        assert p != a.publisher ==> p in y.inFlight && y.bus.log[i].index < y.inFlight[p].index;
      }
      forall p <- x.inFlight ensures event.index <= x.inFlight[p].index {
        assert p != a.publisher ==> p in y.inFlight && y.bus.log[n].index < y.inFlight[p].index;
      }
    }
  }

  lemma StepKeepsOrderIff(x: System, a: Action)
    requires NamesInv(x)
    ensures InOrder(Step(x, a)) && InFlightIsLater(Step(x, a))
        <==> InOrder(x) && InFlightIsLater(x) && TakesOldest(x, a)
  {
    if Possible(x, a) {
      match a
      case Allocate(_, _) => AllocateKeepsOrderIff(x, a);
      case Deliver(_) => DeliverKeepsOrderIff(x, a);
      case _ =>
    }
  }

  /** In every run, deliveries so far and to come are in allocation order exactly when the oldest event goes first. */
  lemma {:induction false} OldestFirstIff(actions: seq<Action>)
    ensures InOrder(Run(actions)) && InFlightIsLater(Run(actions)) <==> OldestFirst(actions)
  {
    if actions != [] {
      var before := actions[..|actions| - 1];
      OldestFirstIff(before);
      RunKeepsInv(before);
      StepKeepsOrderIff(Run(before), actions[|actions| - 1]);
    }
  }

  /**
   Once no publish is in flight, the log is in allocation order exactly when every delivery of
   the run took the oldest event in flight.
   */
  lemma DeliveredInOrderIff(actions: seq<Action>)
    requires Run(actions).inFlight == map[]
    ensures InOrder(Run(actions)) <==> OldestFirst(actions)
  {
    OldestFirstIff(actions);
  }

  /** No event is lost: in every run each allocated event is in flight or delivered. */
  lemma {:induction false} NothingIsLost(actions: seq<Action>)
    ensures Run(actions).allocations == |Run(actions).bus.log| + |Run(actions).inFlight|
  {
    if actions != [] {
      var before, a := actions[..|actions| - 1], actions[|actions| - 1];
      var x := Run(before);
      NothingIsLost(before);
      if Possible(x, a) && a.Allocate? {
        assert |Step(x, a).inFlight| == |x.inFlight| + 1;
      } else if Possible(x, a) && a.Deliver? {
        assert Step(x, a).inFlight.Keys == x.inFlight.Keys - {a.publisher};
      }
    }
  }

  /** As many increasing numbers as there are below a bound are all of them. */
  lemma {:induction false} IncreasingFillsUp(s: seq<nat>, i: nat)
    requires Increasing(s) && i < |s| && forall n <- s :: n < |s|
    ensures s[i] == i
  {
    IncreasingIsAtLeast(s, i);
    IncreasingLeavesRoom(s, i);
  }

  lemma {:induction false} IncreasingIsAtLeast(s: seq<nat>, i: nat)
    requires Increasing(s) && i < |s|
    ensures s[i] >= i
  {
    if i > 0 {
      IncreasingIsAtLeast(s, i - 1);
    }
  }

  lemma {:induction false} IncreasingLeavesRoom(s: seq<nat>, i: nat)
    requires Increasing(s) && i < |s| && forall n <- s :: n < |s|
    ensures s[i] <= i
    decreases |s| - i
  {
    if i + 1 < |s| {
      IncreasingLeavesRoom(s, i + 1);
    } else {
      assert s[i] in s;
    }
  }

  function Indices(log: seq<ServerEvent>): seq<nat> {
    seq(|log|, i requires 0 <= i < |log| => log[i].index)
  }

  /** When every delivery took the oldest event and at most one is in flight, the log is 0, 1, 2 and so on. */
  lemma OldestFirstSkipsNothing(actions: seq<Action>)
    requires OldestFirst(actions) && |Run(actions).inFlight| <= 1
    ensures forall i | 0 <= i < |Run(actions).bus.log| :: Run(actions).bus.log[i].index == i
  {
    var x := Run(actions);
    var indices := Indices(x.bus.log);
    OldestFirstIff(actions);
    NothingIsLost(actions);
    RunKeepsInv(actions);
    forall n | n in indices ensures n < |indices| {
      var i :| 0 <= i < |indices| && indices[i] == n;
      assert x.bus.log[i] in x.bus.log;
      if x.inFlight != map[] {
        var p :| p in x.inFlight;
        assert x.bus.log[i].index < x.inFlight[p].index;
      }
    }
    forall i | 0 <= i < |x.bus.log| ensures x.bus.log[i].index == i {
      IncreasingFillsUp(indices, i);
    }
  }

  lemma {:induction false} SerialIsOldestFirst(actions: seq<Action>)
    requires forall k | 0 <= k <= |actions| :: |Run(actions[..k]).inFlight| <= 1
    ensures OldestFirst(actions)
  {
    if actions != [] {
      var before, a := actions[..|actions| - 1], actions[|actions| - 1];
      forall k | 0 <= k <= |before| ensures |Run(before[..k]).inFlight| <= 1 {
        assert before[..k] == actions[..k];
      }
      SerialIsOldestFirst(before);
      var x := Run(before);
      assert |Run(actions[..|before|]).inFlight| <= 1;
      if a.Deliver? && Possible(x, a) {
        forall p <- x.inFlight ensures p == a.publisher {
          if p != a.publisher {
            assert {p, a.publisher} <= x.inFlight.Keys;
            SubsetIsNoLarger({p, a.publisher}, x.inFlight.Keys);
          }
        }
      }
    }
  }

  lemma SubsetIsNoLarger(a: set<Publisher>, b: set<Publisher>)
    requires a <= b
    ensures |a| <= |b|
  {
    assert b == a + (b - a);
  }

  /** With never more than one publish in flight, delivery order is allocation order and nothing is skipped. */
  lemma SerialPublishersDeliverInOrder(actions: seq<Action>)
    requires forall k | 0 <= k <= |actions| :: |Run(actions[..k]).inFlight| <= 1
    ensures forall i | 0 <= i < |Run(actions).bus.log| :: Run(actions).bus.log[i].index == i
    ensures forall p <- Run(actions).inFlight :: Run(actions).inFlight[p].index == |Run(actions).bus.log|
    ensures Run(actions).allocations == |Run(actions).bus.log| + |Run(actions).inFlight|
  {
    var x := Run(actions);
    assert actions[..|actions|] == actions;
    SerialIsOldestFirst(actions);
    OldestFirstSkipsNothing(actions);
    NothingIsLost(actions);
    RunKeepsInv(actions);
    forall p <- x.inFlight ensures x.inFlight[p].index == |x.bus.log| {
      OldestFirstIff(actions);
      var n := |x.bus.log|;
      if n > 0 {
        assert x.bus.log[n - 1].index < x.inFlight[p].index;
      }
    }
  }
}
