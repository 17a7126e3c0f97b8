/** The static event records of the three handlers, and the queue of events that point at them. */
module Slots {
  import opened Types
  import opened Messages

  datatype Kind = SignalEvent | RequestEvent | SubPacketEvent

  function KindOf(m: Message): Kind {
    match m
    case Signal(_, _) => SignalEvent
    case Request(_, _, _) => RequestEvent
    case SubPacket(_, _, _, _) => SubPacketEvent
  }

  // One record per kind, overwritten by every accepted datagram; the queue holds pointers only.
  datatype Slots = Slots(signal: Message, request: Message, sub: Message, queue: seq<Kind>)
  {
    predicate Valid() {
      signal.Signal? && request.Request? && sub.SubPacket?
    }

    function At(k: Kind): Message {
      match k
      case SignalEvent => signal
      case RequestEvent => request
      case SubPacketEvent => sub
    }

    // A handler overwrites its record and posts; posting fails when the event queue is full.
    function Put(m: Message, room: bool): Slots {
      var posted := if room then queue + [KindOf(m)] else queue;
      match m
      case Signal(_, _) => this.(signal := m, queue := posted)
      case Request(_, _, _) => this.(request := m, queue := posted)
      case SubPacket(_, _, _, _) => this.(sub := m, queue := posted)
    }

    function PutAll(ms: seq<Message>, room: bool): Slots
      decreases |ms|
    {
      if ms == [] then this else Put(ms[0], room).PutAll(ms[1..], room)
    }

    // large_packet_udp_listen_callback
    function Arrive(d: Bytes, room: bool): Slots {
      PutAll(Events(d), room)
    }

    // The message that a process sees when the event at the head of the queue reaches it.
    function Head(): Message
      requires queue != []
    {
      At(queue[0])
    }

    function Pop(): Slots
      requires queue != []
    {
      this.(queue := queue[1..])
    }
  }

  const EMPTY: Slots := Slots(Signal(0, 0), Request(0, 0, 0), SubPacket(0, 0, 0, []), [])

  lemma ArriveIsOnePut(s: Slots, d: Bytes, room: bool)
    ensures s.Arrive(d, room) == if Events(d) == [] then s else s.Put(Events(d)[0], room)
  {
    hide Events;
    DispatchIsExclusive(d);
    var ms := Events(d);
    if ms != [] {
      assert ms[1..] == [];
      assert s.PutAll(ms, room) == s.Put(ms[0], room).PutAll([], room);
    }
  }

  // -------------------------------------------------------------------------
  // What the processes observe, over any sequence of arrivals and dispatches
  // -------------------------------------------------------------------------

  datatype Op = Arrival(d: Bytes, room: bool) | Dispatch

  // sent: accepted datagrams; posted: the kinds of the events that found room in the queue; received:
  // dispatched events; seenAt: how many were sent before each.
  datatype Trace = Trace(
    slots: Slots, sent: seq<Message>, posted: seq<Kind>, received: seq<Message>, seenAt: seq<nat>)

  function Kinds(ms: seq<Message>): seq<Kind> {
    seq(|ms|, k requires 0 <= k < |ms| => KindOf(ms[k]))
  }

  function Observe(t: Trace, op: Op): Trace {
    match op
    case Arrival(d, room) =>
      t.(slots := t.slots.Arrive(d, room), sent := t.sent + Events(d),
         posted := t.posted + if room then Kinds(Events(d)) else [])
    case Dispatch =>
      if t.slots.queue == [] then t
      else t.(slots := t.slots.Pop(), received := t.received + [t.slots.Head()], seenAt := t.seenAt + [|t.sent|])
  }

  function ObserveAll(t: Trace, ops: seq<Op>): Trace
    decreases |ops|
  {
    if ops == [] then t else ObserveAll(Observe(t, ops[0]), ops[1..])
  }

  const START: Trace := Trace(EMPTY, [], [], [], [])

  // The position of the last message of a kind, or -1.
  function LastOf(sent: seq<Message>, k: Kind): (i: int)
    ensures -1 <= i < |sent|
    ensures i >= 0 ==> KindOf(sent[i]) == k
    ensures forall j :: i < j < |sent| ==> KindOf(sent[j]) != k
  {
    if sent == [] then -1
    else if KindOf(sent[|sent| - 1]) == k then |sent| - 1
    else LastOf(sent[..|sent| - 1], k)
  }

  ghost predicate SlotsHoldLast(t: Trace) {
    && t.slots.Valid()
    && (forall k: Kind :: LastOf(t.sent, k) >= 0 ==> t.slots.At(k) == t.sent[LastOf(t.sent, k)])
    && (forall k: Kind <- t.slots.queue :: LastOf(t.sent, k) >= 0)
  }

  // Each received message is the latest one of its kind that was accepted before.
  ghost predicate ReceivedAreLast(t: Trace) {
    && |t.received| == |t.seenAt|
    && (forall j :: 0 <= j < |t.seenAt| ==> t.seenAt[j] <= |t.sent|)
    && (forall i, j :: 0 <= i <= j < |t.seenAt| ==> t.seenAt[i] <= t.seenAt[j])
    && (forall j :: 0 <= j < |t.received| ==>
          var i := LastOf(t.sent[..t.seenAt[j]], KindOf(t.received[j]));
          i >= 0 && t.sent[i] == t.received[j])
  }

  ghost predicate Consistent(t: Trace) {
    && SlotsHoldLast(t) && ReceivedAreLast(t)
    && Kinds(t.received) + t.slots.queue == t.posted && |t.posted| <= |t.sent|
  }

  lemma LastOfAppend(sent: seq<Message>, m: Message, k: Kind)
    ensures LastOf(sent + [m], k) == if KindOf(m) == k then |sent| else LastOf(sent, k)
  {
    assert (sent + [m])[..|sent|] == sent;
  }

  // A message is accepted.
  function Accept(t: Trace, m: Message, room: bool): Trace {
    t.(slots := t.slots.Put(m, room), sent := t.sent + [m], posted := t.posted + if room then [KindOf(m)] else [])
  }

  lemma AcceptedIsLast(t: Trace, m: Message, room: bool)
    requires SlotsHoldLast(t)
    ensures SlotsHoldLast(Accept(t, m, room))
  {
    forall k: Kind { LastOfAppend(t.sent, m, k); }
    var slots := t.slots.Put(m, room);
    forall k: Kind | k in slots.queue ensures LastOf(t.sent + [m], k) >= 0 {
      assert k == KindOf(m) || k in t.slots.queue;
    }
  }

  lemma ArrivalKeeps(t: Trace, m: Message, room: bool)
    requires Consistent(t)
    ensures Consistent(Accept(t, m, room))
  {
    hide SlotsHoldLast, LastOf;
    AcceptedIsLast(t, m, room);
    var sent := t.sent + [m];
    forall j | 0 <= j < |t.received| ensures sent[..t.seenAt[j]] == t.sent[..t.seenAt[j]] {}
    QueueGrows(t, m, room);
  }

  lemma QueueGrows(t: Trace, m: Message, room: bool)
    requires Kinds(t.received) + t.slots.queue == t.posted
    ensures Kinds(t.received) + t.slots.Put(m, room).queue == t.posted + if room then [KindOf(m)] else []
  {
    assert Kinds(t.received) + (t.slots.queue + [KindOf(m)]) == Kinds(t.received) + t.slots.queue + [KindOf(m)];
  }

  lemma QueueShrinks(t: Trace)
    requires SlotsHoldLast(t) && t.slots.queue != []
    ensures Kinds(t.received + [t.slots.Head()]) + t.slots.queue[1..] == Kinds(t.received) + t.slots.queue
  {
    assert t.slots.queue == [t.slots.queue[0]] + t.slots.queue[1..];
    assert Kinds(t.received + [t.slots.Head()]) == Kinds(t.received) + [t.slots.queue[0]];
  }

  lemma DispatchKeeps(t: Trace)
    requires Consistent(t)
    ensures Consistent(Observe(t, Dispatch))
  {
    if t.slots.queue != [] {
      assert t.slots.queue[0] in t.slots.queue;
      assert t.sent[..|t.sent|] == t.sent;
      QueueShrinks(t);
    }
  }

  lemma ObserveKeeps(t: Trace, op: Op)
    requires Consistent(t)
    ensures Consistent(Observe(t, op))
  {
    hide Consistent, Events;
    match op {
      case Arrival(d, room) =>
        ArriveIsOnePut(t.slots, d, room);
        DispatchIsExclusive(d);
        if Events(d) == [] {
          assert Kinds(Events(d)) == [];
          assert t.sent + [] == t.sent && t.posted + [] == t.posted;
        } else {
          assert Events(d) == [Events(d)[0]];
          assert Kinds(Events(d)) == [KindOf(Events(d)[0])];
          ArrivalKeeps(t, Events(d)[0], room);
        }
      case Dispatch =>
        DispatchKeeps(t);
    }
  }

  /** Shared-slot refinement: for every sequence of arrivals and dispatches, what the processes see
      is a run of a lossy, duplicating channel that does not even reorder: every event shows one complete
      message that was accepted before it, namely the latest of its kind, and events of all kinds come in the
      order in which they were posted. */
  lemma {:induction false} SlotsRefineLossyChannel(ops: seq<Op>, t: Trace)
    requires Consistent(t)
    ensures Consistent(ObserveAll(t, ops))
    decreases |ops|
  {
    hide Consistent, Observe;
    if ops != [] {
      ObserveKeeps(t, ops[0]);
      SlotsRefineLossyChannel(ops[1..], Observe(t, ops[0]));
    }
  }

  // The channel positions picked for two events of one kind never go backwards.
  lemma LastOfGrows(sent: seq<Message>, k: Kind, a: nat, b: nat)
    requires a <= b <= |sent|
    ensures LastOf(sent[..a], k) <= LastOf(sent[..b], k)
  {
    var i, j := LastOf(sent[..a], k), LastOf(sent[..b], k);
    assert i >= 0 ==> sent[..b][i] == sent[..a][i];
  }

  lemma EventsNeverReorder(ops: seq<Op>, i: nat, j: nat)
    ensures var t := ObserveAll(START, ops);
      i <= j < |t.received| && KindOf(t.received[i]) == KindOf(t.received[j]) ==>
        exists a, b :: 0 <= a <= b < |t.sent| && t.sent[a] == t.received[i] && t.sent[b] == t.received[j]
  {
    assert Consistent(START);
    SlotsRefineLossyChannel(ops, START);
    var t := ObserveAll(START, ops);
    if i <= j < |t.received| && KindOf(t.received[i]) == KindOf(t.received[j]) {
      var k := KindOf(t.received[i]);
      LastOfGrows(t.sent, k, t.seenAt[i], t.seenAt[j]);
      var a, b := LastOf(t.sent[..t.seenAt[i]], k), LastOf(t.sent[..t.seenAt[j]], k);
      assert t.sent[a] == t.received[i] && t.sent[b] == t.received[j];
    }
  }
}
