/** The whole system: two nodes, their event slots, and a network that may lose, duplicate, delay
    and reorder datagrams. One step runs one process from one wait to the next. */
module Network {
  import opened Types
  import opened Messages
  import opened Fragments
  import opened Slots
  import Listener
  import Sender
  import Receiver
  import Masks

  // Counters that no process reads.
  datatype History = History(
    sent: nat,      // sub-packets that the UDP layer took
    asked: nat,     // sub-packets asked for by the requests that reached the sender process
    taken: nat,     // requests that reached the sender process
    requests: nat,  // requests that the UDP layer took
    copied: nat,    // copies of requests made by the network
    signals: nat)   // signals that reached the receiver process

  datatype World = World(
    tx: Sender.Tx, packetId: uint16, txSlots: Slots, toSender: multiset<Bytes>,
    rx: Receiver.Rx, rxSlots: Slots, toReceiver: multiset<Bytes>,
    crashed: bool, history: History)
  {
    predicate Valid() {
      tx.Valid() && rx.Valid()
    }
  }

  datatype Step =
    | Notify(content: Bytes, ok: bool)                      // packet_ready_notify_proc, one period
    | SendTimer(ok: bool)                                   // large_packet_send_proc
    | SenderEvent(ok: bool)                                 // reply_to_request_proc
    | SenderHears(d: Bytes, room: bool)                     // large_packet_udp_listen_callback
    | ReceiverHears(d: Bytes, room: bool)
    | ReceiverEvent(expired: bool, fault: bool, ok: bool)   // the processes of the receiver
    | ReceiveTimer(ok: bool)                                // large_packet_receive_proc
    | LoseRequest(d: Bytes)
    | LoseReply(d: Bytes)
    | DuplicateRequest(d: Bytes)
    | DuplicateReply(d: Bytes)

  // Nothing is lost, fails or times out early; datagrams may be delayed, reordered and duplicated.
  predicate Smooth(s: Step) {
    match s
    case Notify(_, ok) => ok
    case SendTimer(ok) => ok
    case SenderEvent(ok) => ok
    case SenderHears(_, room) => room
    case ReceiverHears(_, room) => room
    case ReceiverEvent(expired, fault, ok) => !expired && !fault && ok
    case ReceiveTimer(ok) => ok
    case LoseRequest(_) => false
    case LoseReply(_) => false
    case DuplicateRequest(_) => true
    case DuplicateReply(_) => true
  }

  predicate AllSmooth(steps: seq<Step>) {
    forall k | 0 <= k < |steps| :: Smooth(steps[k])
  }

  function Carry(net: multiset<Bytes>, out: seq<Message>): multiset<Bytes>
    requires AllValid(out)
  {
    net + multiset(Datagrams(out))
  }

  // The copy into the static 330-byte payload buffer of lpsp_handle_data would run over its end.
  predicate Overflows(d: Bytes) {
    exists k | 0 <= k < |Events(d)| :: Events(d)[k].SubPacket? && |Events(d)[k].payload| > SUB_MAX
  }

  // That is what the listening callback needs of a datagram.
  lemma OverflowsIffCopyDoesNotFit(d: Bytes)
    ensures Overflows(d) <==> !Listener.CopyFits(d)
  {
    hide SignalIn, RequestIn, SubPacketIn;
    if |d| >= 2 { InOnly(d); }
    DispatchIsExclusive(d);
    if |d| >= 2 && SubPacketIn(d).Some? {
      assert Events(d)[|Events(d)| - 1] == SubPacketIn(d).value;
    }
  }

  lemma InOnly(d: Bytes)
    requires |d| >= 2
    ensures SignalIn(d).Some? ==> SignalIn(d).value.Signal?
    ensures RequestIn(d).Some? ==> RequestIn(d).value.Request?
    ensures SubPacketIn(d).Some? ==> SubPacketIn(d).value.SubPacket?
  {
  }

  function NotifyStep(w: World, content: Bytes, ok: bool): (next: World)
    requires w.Valid()
    ensures next.Valid()
  {
    var next := w.(packetId := (w.packetId + 1) % 0x1_0000);
    if !Sendable(content) then next
    else
      CountBounds(content);
      next.(tx := Sender.Register(w.tx, content, w.packetId),
            toReceiver := Carry(w.toReceiver, Receiver.Sent(Signal(w.packetId, Count(content)), ok)))
  }

  // The sub-packets of a sender step go out.
  function Transmit(w: World, o: Sender.Outcome): World
    requires AllValid(o.out)
  {
    w.(tx := o.tx, toReceiver := Carry(w.toReceiver, o.out), history := w.history.(sent := w.history.sent + |o.out|))
  }

  // The sender process takes the request at the head of its queue.
  function TakeRequest(w: World): (next: World)
    requires w.txSlots.queue != [] && w.txSlots.Head().Request?
    ensures next.tx == w.tx && next.packetId == w.packetId && next.toSender == w.toSender && next.crashed == w.crashed
    ensures next.rx == w.rx && next.rxSlots == w.rxSlots && next.toReceiver == w.toReceiver
    ensures next.txSlots == w.txSlots.Pop()
  {
    var h := w.history;
    var asked := h.asked + |Masks.Bits(w.txSlots.Head().mask)|;
    w.(txSlots := w.txSlots.Pop(), history := h.(asked := asked, taken := h.taken + 1))
  }

  function SenderEventStep(w: World, ok: bool): (next: World)
    requires w.Valid()
    ensures next.Valid()
    ensures next.rx == w.rx && next.rxSlots == w.rxSlots && next.toSender == w.toSender && next.crashed == w.crashed
    ensures next.packetId == w.packetId
  {
    if w.txSlots.queue == [] then w
    else
      var r := w.txSlots.Head();
      if !r.Request? then w.(txSlots := w.txSlots.Pop())
      else Transmit(TakeRequest(w), Sender.Reply(w.tx, r, ok))
  }

  // The requests of a receiver step go out.
  function Ask(w: World, o: Receiver.Outcome): World
    requires AllValid(o.out)
  {
    var h := w.history;
    w.(rx := o.rx, toSender := Carry(w.toSender, o.out), history := h.(requests := h.requests + |o.out|))
  }

  function ReceiverEventStep(w: World, expired: bool, fault: bool, ok: bool): (next: World)
    requires w.Valid()
    ensures next.Valid()
    ensures next.tx == w.tx && next.txSlots == w.txSlots && next.toReceiver == w.toReceiver
    ensures next.packetId == w.packetId
  {
    if w.rxSlots.queue == [] then w
    else
      var m := w.rxSlots.Head();
      var next := w.(rxSlots := w.rxSlots.Pop());
      match m
      case Signal(_, _) =>
        Ask(next.(history := w.history.(signals := w.history.signals + 1)), Receiver.OnSignal(w.rx, m, ok))
      case Request(_, _, _) => next
      case SubPacket(_, _, _, _) =>
        if expired then Ask(next, Receiver.OnTimeout(w.rx, ok))
        else if !Receiver.StoresSafely(w.rx, m, fault) then next.(crashed := true)
        else next.(rx := Receiver.OnSubPacket(w.rx, m, fault))
  }

  lemma CarrySize(net: multiset<Bytes>, out: seq<Message>)
    requires AllValid(out)
    ensures |Carry(net, out)| == |net| + |out|
  {
    hide Pack;
    assert |multiset(Datagrams(out))| == |Datagrams(out)|;
  }

  lemma CarryKeeps(net: multiset<Bytes>, out: seq<Message>)
    requires AllValid(out)
    ensures forall d :: d in net ==> d in Carry(net, out)
  {
  }

  // The network copies a request; requests are counted.
  function CopyRequest(w: World, d: Bytes): World {
    if d in w.toSender then
      w.(toSender := w.toSender + multiset{d}, history := w.history.(copied := w.history.copied + 1))
    else w
  }

  // Every step is a total function; a step that is not enabled changes nothing.
  function Apply(w: World, s: Step): (next: World)
    requires w.Valid()
    ensures next.Valid()
  {
    if w.crashed then w
    else
      match s
      case Notify(content, ok) => NotifyStep(w, content, ok)
      case SendTimer(ok) => Transmit(w, Sender.Timer(w.tx, ok))
      case SenderEvent(ok) => SenderEventStep(w, ok)
      case SenderHears(d, room) =>
        if d !in w.toSender then w
        else if Overflows(d) then w.(crashed := true)
        else w.(toSender := w.toSender - multiset{d}, txSlots := w.txSlots.Arrive(d, room))
      case ReceiverHears(d, room) =>
        if d !in w.toReceiver then w
        else if Overflows(d) then w.(crashed := true)
        else w.(toReceiver := w.toReceiver - multiset{d}, rxSlots := w.rxSlots.Arrive(d, room))
      case ReceiverEvent(expired, fault, ok) => ReceiverEventStep(w, expired, fault, ok)
      case ReceiveTimer(ok) => Ask(w, Receiver.OnTimeout(w.rx, ok))
      case LoseRequest(d) => w.(toSender := w.toSender - multiset{d})
      case LoseReply(d) => w.(toReceiver := w.toReceiver - multiset{d})
      case DuplicateRequest(d) => CopyRequest(w, d)
      case DuplicateReply(d) => if d in w.toReceiver then w.(toReceiver := w.toReceiver + multiset{d}) else w
  }

  // What the steps of the processes do.
  lemma StepCases(w: World, s: Step)
    requires w.Valid()
    ensures var next := Apply(w, s);
            && (w.crashed ==> next == w)
            && (!w.crashed && s.Notify? ==> next == NotifyStep(w, s.content, s.ok))
            && (!w.crashed && s.SendTimer? ==> next == Transmit(w, Sender.Timer(w.tx, s.ok)))
            && (!w.crashed && s.SenderEvent? ==> next == SenderEventStep(w, s.ok))
            && (!w.crashed && s.ReceiverEvent? ==> next == ReceiverEventStep(w, s.expired, s.fault, s.ok))
            && (!w.crashed && s.ReceiveTimer? ==> next == Ask(w, Receiver.OnTimeout(w.rx, s.ok)))
  {
    hide NotifyStep, SenderEventStep, ReceiverEventStep, Sender.Timer, Receiver.OnTimeout, Transmit, Ask;
  }

  /** The receive timer, whether it wakes the process itself or has expired when a sub-packet event comes:
      while a re-request is left, one request for exactly what is missing goes out and one re-request less is
      left; after that the session ends without a post. The event itself is dropped, and nothing that was
      received is touched. */
  lemma ExpiryAsksOrAborts(w: World, s: Step) returns (r: Message)
    requires w.Valid() && !w.crashed && w.rx.alive
    requires s.ReceiveTimer? || (s.ReceiverEvent? && s.expired && w.rxSlots.queue != [] && w.rxSlots.Head().SubPacket?)
    ensures r.Request? && r.id == w.rx.id && r.period == w.rx.period
    ensures Masks.Bits(r.mask) == Masks.Range(w.rx.num) - Masks.Bits(w.rx.mask)
    ensures var next := Apply(w, s);
            && next.toSender == w.toSender + (if s.ok && w.rx.left > 0 then multiset{Pack(r)} else multiset{})
            && next.rx == w.rx.(alive := w.rx.left > 0, left := if w.rx.left > 0 then w.rx.left - 1 else 0)
            && next.rxSlots == (if s.ReceiverEvent? then w.rxSlots.Pop() else w.rxSlots)
            && next.tx == w.tx && next.txSlots == w.txSlots && next.toReceiver == w.toReceiver && !next.crashed
  {
    hide Masks.Bits, Masks.Missing, Pack;
    r := Request(w.rx.id, Masks.Missing(w.rx.mask, w.rx.num), w.rx.period);
    Masks.BitsMissing(w.rx.mask, w.rx.num);
    DatagramsOfOne(r);
    assert Datagrams([]) == [];
  }

  /** A sub-packet event that meets no waiting process, or a fault, changes nothing but the queue. */
  lemma DroppedEventChangesNothing(w: World, s: Step)
    requires w.Valid() && !w.crashed && s.ReceiverEvent? && w.rxSlots.queue != [] && w.rxSlots.Head().SubPacket?
    requires !w.rx.alive || (s.fault && !s.expired)
    ensures Apply(w, s).(history := w.history) == w.(rxSlots := w.rxSlots.Pop())
  {
    hide Receiver.Store, Masks.Missing, Pack;
    assert Datagrams([]) == [];
  }

  /** A sub-packet event of another packet ends the session, and nothing that was received is touched. */
  lemma OtherPacketEndsSession(w: World, s: Step)
    requires w.Valid() && !w.crashed && s.ReceiverEvent? && w.rxSlots.queue != [] && w.rxSlots.Head().SubPacket?
    requires w.rx.alive && !s.fault && !s.expired && w.rxSlots.Head().id != w.rx.id
    ensures Apply(w, s) == w.(rxSlots := w.rxSlots.Pop(), rx := w.rx.(alive := false))
  {
    hide Receiver.Store, Masks.Missing, Pack;
  }

  // The step finds something to do: an event in the queue, a process at its wait, a datagram in flight.
  predicate Enabled(w: World, s: Step) {
    match s
    case Notify(_, _) => true
    case SendTimer(_) => w.tx.suspended
    case SenderEvent(_) => w.txSlots.queue != []
    case SenderHears(d, _) => d in w.toSender
    case ReceiverHears(d, _) => d in w.toReceiver
    case ReceiverEvent(_, _, _) => w.rxSlots.queue != []
    case ReceiveTimer(_) => w.rx.alive
    case LoseRequest(d) => d in w.toSender
    case LoseReply(d) => d in w.toReceiver
    case DuplicateRequest(d) => d in w.toSender
    case DuplicateReply(d) => d in w.toReceiver
  }

  /** A step that is not enabled changes nothing, */
  lemma IdleStepChangesNothing(w: World, s: Step)
    requires w.Valid() && !Enabled(w, s)
    ensures Apply(w, s) == w
  {
    hide Events, Overflows, Pack, Sender.LoopTest, Masks.Missing;
    assert Datagrams([]) == [];
    assert w.toSender == w.toSender + multiset{} && w.toReceiver == w.toReceiver + multiset{};
  }

  /** and an event that no process of the node acts on leaves its queue and nothing else. */
  lemma ForeignEventIsDropped(w: World, s: Step)
    requires w.Valid() && !w.crashed
    ensures s.SenderEvent? && w.txSlots.queue != [] && !w.txSlots.Head().Request? ==>
      Apply(w, s) == w.(txSlots := w.txSlots.Pop())
    ensures s.ReceiverEvent? && w.rxSlots.queue != [] && w.rxSlots.Head().Request? ==>
      Apply(w, s) == w.(rxSlots := w.rxSlots.Pop())
  {
  }

  // What each step leaves alone.
  lemma StepFrame(w: World, s: Step)
    requires w.Valid()
    ensures var next := Apply(w, s);
            && (!s.Notify? && !s.SendTimer? && !s.SenderEvent? ==>
                  next.tx == w.tx && forall d :: d in next.toReceiver ==> d in w.toReceiver)
            && (!s.ReceiverEvent? && !s.ReceiveTimer? ==>
                  next.rx == w.rx && forall d :: d in next.toSender ==> d in w.toSender)
            && (!s.Notify? ==> next.packetId == w.packetId)
            && (!s.SenderEvent? && !s.SenderHears? ==> next.txSlots == w.txSlots)
            && (!s.ReceiverEvent? && !s.ReceiverHears? ==> next.rxSlots == w.rxSlots)
  {
    hide Events, Overflows, SenderEventStep, ReceiverEventStep, Sender.Timer, Sender.Register, Receiver.OnTimeout;
  }

  // The source would copy a payload out of its buffer: into the static buffer of a handler, or into the
  // storage. Or it would shift a mask by 64 or more.
  predicate Unsafe(w: World, s: Step) {
    || (s.SenderHears? && s.d in w.toSender && Overflows(s.d))
    || (s.ReceiverHears? && s.d in w.toReceiver && Overflows(s.d))
    || (s.ReceiverEvent? && !s.expired && !s.fault && w.rxSlots.queue != [] && w.rx.alive
        && var m := w.rxSlots.Head();
           m.SubPacket? && m.id == w.rx.id
           && (m.index >= 64 || m.n > 64 || m.index * SUB_MAX + |m.payload| > Receiver.STORAGE))
  }

  // The model stops exactly then.
  lemma CrashesExactlyWhenUnsafe(w: World, s: Step)
    requires w.Valid() && !w.crashed
    ensures Apply(w, s).crashed <==> Unsafe(w, s)
  {
    hide Events, Overflows, Sender.Timer, Sender.Reply, Receiver.OnTimeout, Receiver.OnSignal, Receiver.Store;
  }

  // Each process takes its events off the queue one at a time, in order.
  lemma EventsAreTaken(w: World, s: Step)
    requires w.Valid() && !w.crashed
    ensures s.SenderEvent? ==>
      Apply(w, s).txSlots == if w.txSlots.queue == [] then w.txSlots else w.txSlots.Pop()
    ensures s.ReceiverEvent? ==>
      Apply(w, s).rxSlots == if w.rxSlots.queue == [] then w.rxSlots else w.rxSlots.Pop()
  {
    hide Events, Overflows, Sender.Timer, Sender.Reply, Receiver.OnTimeout, Receiver.OnSignal, Receiver.OnSubPacket;
  }

  /** A registered packet is announced under the id and with the count that its sub-packets will carry. */
  lemma AnnouncesWhatIsRegistered(w: World, content: Bytes, ok: bool)
    requires w.Valid() && !w.crashed && Sendable(content)
    ensures var next := Apply(w, Notify(content, ok));
            && next.tx.payload == content && next.tx.num < 0x100
            && next.toReceiver == w.toReceiver
                 + if ok then multiset{Pack(Signal(next.tx.id, next.tx.num))} else multiset{}
  {
    hide Pack;
    CountBounds(content);
    DatagramsOfOne(Signal(w.packetId, Count(content)));
    assert Datagrams([]) == [];
  }

  /** A registration touches nothing of a transfer under way but its content, count and id; a content that
      cannot be sent leaves the struct alone and is not announced. */
  lemma RegisteringLeavesTransfer(w: World, content: Bytes, ok: bool)
    requires w.Valid() && !w.crashed
    ensures var next := Apply(w, Notify(content, ok));
            && next.(tx := w.tx, toReceiver := w.toReceiver, packetId := w.packetId) == w
            && next.tx == (if content == [] || |content| > 330 * 64 then w.tx
                           else w.tx.(payload := content, num := Count(content), id := w.packetId))
            && (content == [] || |content| > 330 * 64 ==> next.toReceiver == w.toReceiver)
  {
    hide Pack;
    SendableIffCounted(content);
    assert Datagrams([]) == [];
  }

  // A packed message in flight reaches its slot.
  lemma HearReply(w: World, m: Message)
    requires w.Valid() && !w.crashed && m.Valid() && (m.SubPacket? ==> |m.payload| <= SUB_MAX)
    requires Pack(m) in w.toReceiver
    ensures Apply(w, ReceiverHears(Pack(m), true))
         == w.(toReceiver := w.toReceiver - multiset{Pack(m)}, rxSlots := w.rxSlots.Put(m, true))
  {
    hide Events, Pack;
    EventsOfPack(m);
    ArriveIsOnePut(w.rxSlots, Pack(m), true);
  }

  lemma HearRequest(w: World, m: Message)
    requires w.Valid() && !w.crashed && m.Request? && Pack(m) in w.toSender
    ensures Apply(w, SenderHears(Pack(m), true))
         == w.(toSender := w.toSender - multiset{Pack(m)}, txSlots := w.txSlots.Put(m, true))
  {
    hide Events, Pack;
    EventsOfPack(m);
    ArriveIsOnePut(w.txSlots, Pack(m), true);
  }

  // Every sequence of steps is a run.
  function Exec(w: World, steps: seq<Step>): (next: World)
    requires w.Valid()
    ensures next.Valid()
    decreases |steps|
  {
    if steps == [] then w else Exec(Apply(w, steps[0]), steps[1..])
  }

  lemma {:induction false} ExecAppend(w: World, first: seq<Step>, second: seq<Step>)
    requires w.Valid()
    ensures Exec(w, first + second) == Exec(Exec(w, first), second)
    decreases |first|
  {
    hide Apply;
    if first == [] {
      assert first + second == second;
    } else {
      ExecAppend(Apply(w, first[0]), first[1..], second);
      assert (first + second)[1..] == first[1..] + second;
    }
  }

  // One step of a run.
  lemma ExecStep(w: World, steps: seq<Step>)
    requires w.Valid() && steps != []
    ensures Exec(w, steps) == Exec(Apply(w, steps[0]), steps[1..])
  {
    hide Apply;
  }

  lemma ExecOne(w: World, s: Step)
    requires w.Valid()
    ensures Exec(w, [s]) == Apply(w, s)
  {
    hide Apply;
    assert [s][1..] == [];
  }

  lemma ExecTwo(w: World, steps: seq<Step>)
    requires w.Valid() && |steps| == 2
    ensures Exec(w, steps) == Apply(Apply(w, steps[0]), steps[1])
  {
    hide Apply;
    ExecStep(w, steps);
    assert steps[1..] == [steps[1]];
    ExecOne(Apply(w, steps[0]), steps[1]);
  }

  lemma ExecThree(w: World, steps: seq<Step>)
    requires w.Valid() && |steps| == 3
    ensures Exec(w, steps) == Apply(Apply(Apply(w, steps[0]), steps[1]), steps[2])
  {
    hide Apply;
    ExecStep(w, steps);
    ExecStep(Apply(w, steps[0]), steps[1..]);
    assert steps[1..][1..][1..] == [];
  }

  lemma ExecFour(w: World, steps: seq<Step>)
    requires w.Valid() && |steps| == 4
    ensures Exec(w, steps) == Apply(Apply(Apply(Apply(w, steps[0]), steps[1]), steps[2]), steps[3])
  {
    hide Apply, Exec;
    ExecStep(w, steps);
    ExecThree(Apply(w, steps[0]), steps[1..]);
  }

  lemma ExecFirst(w: World, s: Step, rest: seq<Step>)
    requires w.Valid()
    ensures Exec(w, [s] + rest) == Exec(Apply(w, s), rest)
  {
    hide Apply;
    assert ([s] + rest)[1..] == rest;
  }

  lemma ExecNothing(w: World)
    requires w.Valid()
    ensures Exec(w, []) == w
  {
  }

  const INITIAL: World := World(
    Sender.IDLE, 0, EMPTY, multiset{},
    Receiver.IDLE, EMPTY, multiset{},
    false, History(0, 0, 0, 0, 0, 0))
}
