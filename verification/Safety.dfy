/** End-to-end safety over every run in which the application registers one content. */
module Safety {
  import opened Types
  import opened Messages
  import opened Fragments
  import opened Masks
  import opened Slots
  import opened Network
  import Listener
  import S = Sender
  import R = Receiver

  // -------------------------------------------------------------------------
  // The invariant
  // -------------------------------------------------------------------------

  // Every request asks only for sub-packets that exist.
  ghost predicate GoodRequest(m: Message, c: Bytes) {
    m.Request? && Bits(m.mask) <= Range(Count(c))
  }

  // Every signal tells the right count, and every sub-packet carries its exact slice and that count.
  ghost predicate GoodReply(m: Message, c: Bytes) {
    (m.Signal? && m.n == Count(c)) || R.Carries(m, c)
  }

  ghost predicate RequestsInFlight(net: multiset<Bytes>, c: Bytes) {
    forall d :: d in net ==> |Events(d)| == 1 && GoodRequest(Events(d)[0], c)
  }

  ghost predicate RepliesInFlight(net: multiset<Bytes>, c: Bytes) {
    forall d :: d in net ==> |Events(d)| == 1 && GoodReply(Events(d)[0], c)
  }

  ghost predicate RequestsQueued(s: Slots, c: Bytes) {
    s.Valid() && forall k :: k in s.queue ==> GoodRequest(s.At(k), c)
  }

  ghost predicate RepliesQueued(s: Slots, c: Bytes) {
    s.Valid() && forall k :: k in s.queue ==> GoodReply(s.At(k), c)
  }

  ghost predicate GoodSender(tx: S.Tx, c: Bytes) {
    tx.Valid() && tx.payload == c && S.InRange(tx) && S.OneLoop(tx)
  }

  ghost predicate GoodReceiver(rx: R.Rx, c: Bytes) {
    rx.Valid() && rx.left <= R.RE_REQUESTS && (rx.alive || rx.done ==> R.Session(rx, c))
  }

  // Before the first registration nothing has been sent.
  ghost predicate Silent(w: World) {
    && w.tx == S.IDLE && w.txSlots == w.rxSlots == EMPTY
    && w.toSender == w.toReceiver == multiset{}
    && !w.rx.alive && !w.rx.done && w.rx.left == 0 && w.rx.Valid()
  }

  ghost predicate Running(w: World, c: Bytes) {
    && Sendable(c)
    && GoodSender(w.tx, c) && RequestsQueued(w.txSlots, c) && RequestsInFlight(w.toSender, c)
    && GoodReceiver(w.rx, c) && RepliesQueued(w.rxSlots, c) && RepliesInFlight(w.toReceiver, c)
  }

  ghost predicate Inv(w: World, c: Bytes) {
    !w.crashed && w.Valid() && (Silent(w) || Running(w, c))
  }

  // -------------------------------------------------------------------------
  // The nodes
  // -------------------------------------------------------------------------

  ghost predicate AllCarry(ms: seq<Message>, c: Bytes) {
    forall k | 0 <= k < |ms| :: R.Carries(ms[k], c)
  }

  lemma PartCarries(c: Bytes, id: uint16, i: nat)
    requires Sendable(c) && i < Count(c)
    ensures R.Carries(S.Part(c, id, i), c)
  {
  }

  // One pass of the send loop; what goes out has left the mask.
  lemma LoopTestKeeps(tx: S.Tx, c: Bytes, ok: bool)
    requires Sendable(c) && tx.Valid() && tx.payload == c && S.InRange(tx) && tx.sending
    ensures var o := S.LoopTest(tx, ok);
            && GoodSender(o.tx, c) && AllCarry(o.out, c)
            && |o.out| + |Bits(o.tx.mask)| == |Bits(tx.mask)|
            && o.tx.id == tx.id
  {
    hide Bits, Without, S.LoopTest, S.Part, R.Carries;
    var i := S.LoopTestCases(tx, ok);
    if tx.mask != 0 && tx.status >= 0 && ok {
      PartCarries(c, tx.id, i);
    }
  }

  lemma TimerKeeps(tx: S.Tx, c: Bytes, ok: bool)
    requires Sendable(c) && GoodSender(tx, c)
    ensures var o := S.Timer(tx, ok);
            GoodSender(o.tx, c) && AllCarry(o.out, c) && |o.out| + |Bits(o.tx.mask)| == |Bits(tx.mask)|
  {
    hide Bits, S.LoopTest;
    if tx.suspended {
      LoopTestKeeps(tx, c, ok);
    }
  }

  lemma ReplyKeeps(tx: S.Tx, r: Message, c: Bytes, ok: bool)
    requires Sendable(c) && GoodSender(tx, c) && GoodRequest(r, c)
    ensures var o := S.Reply(tx, r, ok);
            GoodSender(o.tx, c) && AllCarry(o.out, c) && |o.out| + |Bits(o.tx.mask)| == |Bits(r.mask)|
  {
    hide Bits, S.LoopTest;
    var asked := tx.(id := r.id, mask := r.mask, period := r.period);
    if !tx.sending {
      LoopTestKeeps(asked.(suspended := false, sending := true, status := 0), c, ok);
    }
  }

  lemma OnSignalKeeps(rx: R.Rx, s: Message, c: Bytes, ok: bool)
    requires Sendable(c) && rx.Valid() && s.Signal? && s.n == Count(c)
    ensures var o := R.OnSignal(rx, s, ok);
            && GoodReceiver(o.rx, c) && o.rx.alive && o.rx.mask == 0
            && forall k | 0 <= k < |o.out| :: GoodRequest(o.out[k], c)
  {
    hide Bits, Whole;
    CountBounds(c);
    BitsWhole(s.n);
    BitsZero(0);
    assert 0 in Range(s.n);
  }

  lemma OnTimeoutKeeps(rx: R.Rx, c: Bytes, ok: bool)
    requires GoodReceiver(rx, c)
    ensures var o := R.OnTimeout(rx, ok);
            && GoodReceiver(o.rx, c)
            && forall k | 0 <= k < |o.out| :: GoodRequest(o.out[k], c)
  {
    hide Bits, Missing;
    BitsMissing(rx.mask, rx.num);
  }

  lemma OnSubPacketKeeps(rx: R.Rx, m: Message, c: Bytes, fault: bool)
    requires Sendable(c) && GoodReceiver(rx, c) && R.Carries(m, c)
    ensures R.StoresSafely(rx, m, fault)
    ensures GoodReceiver(R.OnSubPacket(rx, m, fault), c)
  {
    hide Bits, R.Store, R.CarriesSlice;
    R.CarriedFits(m, c);
    if rx.alive && !fault && m.id == rx.id {
      R.StoreReceives(rx, m, c);
      R.StoreOutcome(rx, m);
    }
  }

  // -------------------------------------------------------------------------
  // The network and the slots
  // -------------------------------------------------------------------------

  lemma CarriedDatagram(net: multiset<Bytes>, out: seq<Message>, d: Bytes) returns (k: nat)
    requires AllValid(out) && d in Carry(net, out) && d !in net
    ensures k < |out| && d == Pack(out[k]) && Events(d) == [out[k]]
  {
    hide Pack, Events;
    assert d in Datagrams(out);
    k :| 0 <= k < |out| && d == Datagrams(out)[k];
    EventsOfPack(out[k]);
  }

  lemma CarryRequests(net: multiset<Bytes>, out: seq<Message>, c: Bytes)
    requires AllValid(out) && RequestsInFlight(net, c) && forall k | 0 <= k < |out| :: GoodRequest(out[k], c)
    ensures RequestsInFlight(Carry(net, out), c)
  {
    hide Pack, Events, GoodRequest;
    forall d | d in Carry(net, out) ensures |Events(d)| == 1 && GoodRequest(Events(d)[0], c) {
      if d !in net {
        var k := CarriedDatagram(net, out, d);
      }
    }
  }

  lemma CarryReplies(net: multiset<Bytes>, out: seq<Message>, c: Bytes)
    requires AllValid(out) && RepliesInFlight(net, c) && forall k | 0 <= k < |out| :: GoodReply(out[k], c)
    ensures RepliesInFlight(Carry(net, out), c)
  {
    hide Pack, Events, GoodReply;
    forall d | d in Carry(net, out) ensures |Events(d)| == 1 && GoodReply(Events(d)[0], c) {
      if d !in net {
        var k := CarriedDatagram(net, out, d);
      }
    }
  }

  lemma QueueRequest(s: Slots, d: Bytes, room: bool, c: Bytes)
    requires RequestsQueued(s, c) && |Events(d)| == 1 && GoodRequest(Events(d)[0], c)
    ensures RequestsQueued(s.Arrive(d, room), c) && !Overflows(d)
  {
    hide Events, Bits;
    ArriveIsOnePut(s, d, room);
  }

  lemma QueueReply(s: Slots, d: Bytes, room: bool, c: Bytes)
    requires Sendable(c) && RepliesQueued(s, c) && |Events(d)| == 1 && GoodReply(Events(d)[0], c)
    ensures RepliesQueued(s.Arrive(d, room), c) && !Overflows(d)
  {
    hide Events, R.CarriesSlice;
    ArriveIsOnePut(s, d, room);
    var m := Events(d)[0];
    if m.SubPacket? {
      CarriedLength(m, c);
    }
  }

  lemma PopKeeps(s: Slots, c: Bytes)
    requires s.queue != []
    ensures RequestsQueued(s, c) ==> GoodRequest(s.Head(), c) && RequestsQueued(s.Pop(), c)
    ensures RepliesQueued(s, c) ==> GoodReply(s.Head(), c) && RepliesQueued(s.Pop(), c)
  {
    hide GoodRequest, GoodReply;
    assert s.queue[0] in s.queue;
    assert forall k :: k in s.queue[1..] ==> k in s.queue;
  }

  lemma CarriedLength(m: Message, c: Bytes)
    requires Sendable(c) && R.Carries(m, c)
    ensures |m.payload| <= SUB_MAX
  {
    PickedLengthIsFragmentLength(c, m.index);
  }

  // -------------------------------------------------------------------------
  // Every step keeps the invariant
  // -------------------------------------------------------------------------

  lemma RegisterKeeps(tx: S.Tx, c: Bytes, id: uint16)
    requires Sendable(c) && (tx == S.IDLE || GoodSender(tx, c))
    ensures GoodSender(S.Register(tx, c, id), c)
  {
    hide Bits;
    BitsZero(0);
  }

  // With nothing sent yet, the invariant holds but for the registered packet.
  lemma SilentIsClean(w: World, c: Bytes)
    requires Silent(w)
    ensures RequestsQueued(w.txSlots, c) && RequestsInFlight(w.toSender, c)
    ensures GoodReceiver(w.rx, c) && RepliesQueued(w.rxSlots, c) && RepliesInFlight(w.toReceiver, c)
  {
  }

  lemma NotifyKeeps(w: World, c: Bytes, ok: bool)
    requires Inv(w, c)
    ensures Inv(NotifyStep(w, c, ok), c)
  {
    hide Bits, Pack, Events, Carry, S.Register, GoodSender, GoodReceiver, RepliesInFlight, RequestsInFlight;
    hide RepliesQueued, RequestsQueued;
    if Sendable(c) {
      CountBounds(c);
      if Silent(w) { SilentIsClean(w, c); }
      RegisterKeeps(w.tx, c, w.packetId);
      CarryReplies(w.toReceiver, R.Sent(Signal(w.packetId, Count(c)), ok), c);
    }
  }

  lemma TransmitKeeps(w: World, o: S.Outcome, c: Bytes)
    requires Running(w, c) && !w.crashed && AllValid(o.out) && GoodSender(o.tx, c) && AllCarry(o.out, c)
    ensures Inv(Transmit(w, o), c) && Running(Transmit(w, o), c)
  {
    hide Bits, Events, R.Carries, R.Session;
    CarryReplies(w.toReceiver, o.out, c);
  }

  lemma AskKeeps(w: World, o: R.Outcome, c: Bytes)
    requires Running(w, c) && !w.crashed && AllValid(o.out) && GoodReceiver(o.rx, c)
    requires forall k | 0 <= k < |o.out| :: GoodRequest(o.out[k], c)
    ensures Inv(Network.Ask(w, o), c)
  {
    hide Bits, Events, R.Carries, R.Session;
    CarryRequests(w.toSender, o.out, c);
  }

  lemma SenderEventKeeps(w: World, c: Bytes, ok: bool)
    requires Running(w, c) && !w.crashed
    ensures Inv(SenderEventStep(w, ok), c)
  {
    hide Bits, Transmit, S.Reply, R.Carries, R.Session, RequestsQueued, RepliesQueued, RequestsInFlight;
    hide RepliesInFlight, GoodReceiver;
    if w.txSlots.queue != [] {
      var r := w.txSlots.Head();
      PopKeeps(w.txSlots, c);
      ReplyKeeps(w.tx, r, c, ok);
      TransmitKeeps(TakeRequest(w), S.Reply(w.tx, r, ok), c);
    }
  }

  lemma ReceiverEventKeeps(w: World, c: Bytes, expired: bool, fault: bool, ok: bool)
    requires Running(w, c) && !w.crashed
    ensures Inv(ReceiverEventStep(w, expired, fault, ok), c)
  {
    hide Bits, Network.Ask, R.OnSignal, R.OnTimeout, R.OnSubPacket, R.CarriesSlice, R.Session, Sendable;
    hide RequestsQueued, RepliesQueued, RequestsInFlight, RepliesInFlight, GoodSender;
    if w.rxSlots.queue != [] {
      var m := w.rxSlots.Head();
      PopKeeps(w.rxSlots, c);
      var next := w.(rxSlots := w.rxSlots.Pop());
      if m.Signal? {
        OnSignalKeeps(w.rx, m, c, ok);
        AskKeeps(next.(history := w.history.(signals := w.history.signals + 1)), R.OnSignal(w.rx, m, ok), c);
      } else if expired {
        OnTimeoutKeeps(w.rx, c, ok);
        AskKeeps(next, R.OnTimeout(w.rx, ok), c);
      } else {
        OnSubPacketKeeps(w.rx, m, c, fault);
      }
    }
  }

  lemma FewerRequests(net: multiset<Bytes>, fewer: multiset<Bytes>, c: Bytes)
    requires RequestsInFlight(net, c) && forall d :: d in fewer ==> d in net
    ensures RequestsInFlight(fewer, c)
  {
    hide Events, GoodRequest;
  }

  lemma FewerReplies(net: multiset<Bytes>, fewer: multiset<Bytes>, c: Bytes)
    requires RepliesInFlight(net, c) && forall d :: d in fewer ==> d in net
    ensures RepliesInFlight(fewer, c)
  {
    hide Events, GoodReply;
  }

  lemma SenderHearsKeeps(w: World, c: Bytes, d: Bytes, room: bool)
    requires Running(w, c) && !w.crashed
    ensures Inv(Apply(w, SenderHears(d, room)), c)
  {
    hide Bits, Events, Overflows, GoodRequest, GoodSender, GoodReceiver, RepliesInFlight, RequestsQueued, RepliesQueued;
    if d in w.toSender {
      GoodNodesAreValid(w, c);
      QueueRequest(w.txSlots, d, room, c);
      FewerRequests(w.toSender, w.toSender - multiset{d}, c);
    }
  }

  lemma ReceiverHearsKeeps(w: World, c: Bytes, d: Bytes, room: bool)
    requires Running(w, c) && !w.crashed
    ensures Inv(Apply(w, ReceiverHears(d, room)), c)
  {
    hide Bits, Events, Overflows, GoodReply, GoodSender, GoodReceiver, RequestsInFlight, RequestsQueued, RepliesQueued;
    if d in w.toReceiver {
      GoodNodesAreValid(w, c);
      QueueReply(w.rxSlots, d, room, c);
      FewerReplies(w.toReceiver, w.toReceiver - multiset{d}, c);
    }
  }

  lemma GoodNodesAreValid(w: World, c: Bytes)
    requires Running(w, c)
    ensures w.Valid()
  {
  }

  // What a silent system can do but register: nothing.
  lemma SilentStays(w: World, s: Step)
    requires Silent(w) && !w.crashed && !s.Notify?
    ensures Silent(Apply(w, s)) && !Apply(w, s).crashed
  {
    hide Events, S.LoopTest;
  }

  lemma TimersKeep(w: World, s: Step, c: Bytes)
    requires Running(w, c) && !w.crashed && (s.SendTimer? || s.ReceiveTimer?)
    ensures Inv(Apply(w, s), c)
  {
    hide Events, Bits, S.Timer, R.OnTimeout, Transmit, Network.Ask;
    match s {
      case SendTimer(ok) =>
        TimerKeeps(w.tx, c, ok);
        TransmitKeeps(w, S.Timer(w.tx, ok), c);
      case ReceiveTimer(ok) =>
        OnTimeoutKeeps(w.rx, c, ok);
        AskKeeps(w, R.OnTimeout(w.rx, ok), c);
    }
  }

  lemma NetworkKeeps(w: World, s: Step, c: Bytes)
    requires Running(w, c) && !w.crashed
    requires s.LoseRequest? || s.LoseReply? || s.DuplicateRequest? || s.DuplicateReply?
    ensures Inv(Apply(w, s), c)
  {
    hide Events, Bits, GoodSender, GoodReceiver, RequestsInFlight, RepliesInFlight, RequestsQueued, RepliesQueued;
    GoodNodesAreValid(w, c);
    FewerRequests(w.toSender, Apply(w, s).toSender, c);
    FewerReplies(w.toReceiver, Apply(w, s).toReceiver, c);
  }

  lemma StepKeeps(w: World, s: Step, c: Bytes)
    requires Inv(w, c) && (s.Notify? ==> s.content == c)
    ensures Inv(Apply(w, s), c)
  {
    hide Silent, Running;
    if s.Notify? {
      NotifyKeeps(w, c, s.ok);
    } else if Silent(w) {
      SilentStays(w, s);
    } else {
      hide Inv;
      match s {
        case SendTimer(_) => TimersKeep(w, s, c);
        case ReceiveTimer(_) => TimersKeep(w, s, c);
        case SenderEvent(ok) => SenderEventKeeps(w, c, ok);
        case ReceiverEvent(expired, fault, ok) => ReceiverEventKeeps(w, c, expired, fault, ok);
        case SenderHears(d, room) => SenderHearsKeeps(w, c, d, room);
        case ReceiverHears(d, room) => ReceiverHearsKeeps(w, c, d, room);
        case LoseRequest(_) => NetworkKeeps(w, s, c);
        case LoseReply(_) => NetworkKeeps(w, s, c);
        case DuplicateRequest(_) => NetworkKeeps(w, s, c);
        case DuplicateReply(_) => NetworkKeeps(w, s, c);
      }
    }
  }

  // -------------------------------------------------------------------------
  // The theorems
  // -------------------------------------------------------------------------

  // The application registers one content, under any packet ids.
  ghost predicate Registers(steps: seq<Step>, c: Bytes) {
    forall k | 0 <= k < |steps| :: steps[k].Notify? ==> steps[k].content == c
  }

  lemma {:induction false} RunKeeps(w: World, steps: seq<Step>, c: Bytes)
    requires Inv(w, c) && Registers(steps, c)
    ensures Inv(Exec(w, steps), c)
    decreases |steps|
  {
    hide Inv, Apply;
    if steps != [] {
      InvIsValid(w, c);
      StepKeeps(w, steps[0], c);
      InvIsValid(Apply(w, steps[0]), c);
      RunKeeps(Apply(w, steps[0]), steps[1..], c);
    }
  }

  lemma InvIsValid(w: World, c: Bytes)
    requires Inv(w, c)
    ensures w.Valid()
  {
  }

  lemma InitialInv(c: Bytes)
    ensures Inv(INITIAL, c)
  {
  }

  function Registrations(steps: seq<Step>): nat {
    if steps == [] then 0 else (if steps[0].Notify? then 1 else 0) + Registrations(steps[1..])
  }

  lemma StepCountsIds(w: World, s: Step)
    requires w.Valid() && !w.crashed
    ensures Apply(w, s).packetId == (w.packetId + if s.Notify? then 1 else 0) % 0x1_0000
  {
    hide Events, Overflows, Bits, Carry, S.Timer, S.Reply, S.Register, R.OnTimeout, R.OnSignal, R.OnSubPacket;
  }

  lemma {:induction false} RunCountsIds(w: World, steps: seq<Step>, c: Bytes)
    requires Inv(w, c) && Registers(steps, c)
    ensures Exec(w, steps).packetId == (w.packetId + Registrations(steps)) % 0x1_0000
    decreases |steps|
  {
    hide Running, Silent, Apply;
    if steps != [] {
      StepKeeps(w, steps[0], c);
      StepCountsIds(w, steps[0]);
      RunCountsIds(Apply(w, steps[0]), steps[1..], c);
    }
  }

  /** The registrations of a run are announced under the ids 0, 1, 2 and so on, modulo 2^16, */
  lemma IdsInTurn(steps: seq<Step>, c: Bytes, ok: bool)
    requires Registers(steps, c) && Sendable(c)
    ensures var w := Exec(INITIAL, steps);
            var next := Apply(w, Notify(c, ok));
            var id := Registrations(steps) % 0x1_0000;
            && next.tx.id == id && next.tx.payload == c && Count(c) < 0x100
            && next.toReceiver == w.toReceiver + if ok then multiset{Pack(Signal(id, Count(c)))} else multiset{}
  {
    hide Pack, Inv, Bits;
    InitialInv(c);
    RunKeeps(INITIAL, steps, c);
    RunCountsIds(INITIAL, steps, c);
    InvIsSafe(Exec(INITIAL, steps), c);
    AnnouncesWhatIsRegistered(Exec(INITIAL, steps), c, ok);
    CountBounds(c);
  }

  /** so that two of them less than 65536 apart differ. */
  lemma NearIdsDiffer(steps: seq<Step>, more: seq<Step>, c: Bytes)
    requires Registers(steps, c) && Registers(more, c) && 0 < Registrations(more) < 0x1_0000
    ensures Exec(INITIAL, steps).packetId != Exec(INITIAL, steps + more).packetId
  {
    hide Inv, Registers, Exec, Registrations;
    InitialInv(c);
    RunKeeps(INITIAL, steps, c);
    RunCountsIds(INITIAL, steps, c);
    RunCountsIds(Exec(INITIAL, steps), more, c);
    ExecAppend(INITIAL, steps, more);
    CountUpDiffers(Exec(INITIAL, steps).packetId, Registrations(more));
  }

  lemma CountUpDiffers(id: uint16, k: nat)
    requires 0 < k < 0x1_0000
    ensures (id + k) % 0x1_0000 != id
  {
  }

  // A step posts event_lp_received only by setting rx_done.
  ghost predicate PostsWhenDone(before: R.Rx, after: R.Rx) {
    after.posted == before.posted || (after.posted == before.posted + 1 && after.done)
  }

  lemma OnSubPacketPosts(rx: R.Rx, m: Message, fault: bool)
    requires rx.Valid() && R.StoresSafely(rx, m, fault)
    ensures PostsWhenDone(rx, R.OnSubPacket(rx, m, fault))
  {
    hide R.Store;
    if R.Fits(m) { R.StoreOutcome(rx, m); }
  }

  lemma PostMeansDone(w: World, s: Step)
    requires w.Valid()
    ensures PostsWhenDone(w.rx, Apply(w, s).rx)
  {
    StepFrame(w, s);
    StepCases(w, s);
    hide Apply, Bits, Whole, Missing, R.OnSubPacket, Carry;
    if s.ReceiverEvent? && w.rxSlots.queue != [] && w.rxSlots.Head().SubPacket? {
      if R.StoresSafely(w.rx, w.rxSlots.Head(), s.fault) {
        OnSubPacketPosts(w.rx, w.rxSlots.Head(), s.fault);
      }
    }
  }

  /** End-to-end safety: in every run with loss, duplication, delay, reordering, failed sends, full
      event queues, injected faults and repeated signals, no copy leaves its buffer and no shift its
      word, and whenever event_lp_received is posted the storage starts with the sender's content. */
  lemma EndToEndSafety(steps: seq<Step>, next: Step, c: Bytes)
    requires Registers(steps + [next], c)
    ensures var w := Exec(INITIAL, steps);
            var w' := Apply(w, next);
            && !w'.crashed
            && (w'.rx.posted != w.rx.posted ==> w'.rx.done)
            && (w'.rx.done ==> Sendable(c) && w'.rx.storage[..|c|] == c)
  {
    hide Apply, Bits;
    assert Registers(steps, c) by {
      forall k | 0 <= k < |steps| ensures steps[k].Notify? ==> steps[k].content == c {
        assert (steps + [next])[k] == steps[k];
      }
    }
    assert (steps + [next])[|steps|] == next;
    InitialInv(c);
    RunKeeps(INITIAL, steps, c);
    var w := Exec(INITIAL, steps);
    StepKeeps(w, next, c);
    PostMeansDone(w, next);
    if Apply(w, next).rx.done {
      R.DoneMeansContent(Apply(w, next).rx, c);
    }
  }

  /** No copy leaves its buffer and no shift its word: in every run, whatever could be done next, each
      datagram in flight fits the static payload buffer of its handler, and each sub-packet waiting in the
      slot fits the mask and, at its place, the storage. */
  lemma CopiesStayInBuffers(steps: seq<Step>, c: Bytes)
    requires Registers(steps, c)
    ensures var w := Exec(INITIAL, steps);
            && (forall next: Step :: !Unsafe(w, next))
            && (forall d :: d in w.toSender || d in w.toReceiver ==> Listener.CopyFits(d))
            && (SubPacketEvent in w.rxSlots.queue ==> R.Fits(w.rxSlots.sub))
  {
    hide Apply, Bits, Events, Overflows, Inv, Unsafe;
    InitialInv(c);
    RunKeeps(INITIAL, steps, c);
    var w := Exec(INITIAL, steps);
    InvIsSafe(w, c);
    forall next: Step ensures !Unsafe(w, next) {
      if next.Notify? {
        RegistrationIsSafe(w, next);
      } else {
        StepKeeps(w, next, c);
        InvIsSafe(Apply(w, next), c);
        CrashesExactlyWhenUnsafe(w, next);
      }
    }
    forall d | d in w.toSender || d in w.toReceiver ensures Listener.CopyFits(d) {
      if !Listener.CopyFits(d) { HeardIsUnsafe(w, d); }
      assert !Unsafe(w, SenderHears(d, true)) && !Unsafe(w, ReceiverHears(d, true));
    }
    if SubPacketEvent in w.rxSlots.queue { QueuedFits(w, c); }
  }

  lemma HeardIsUnsafe(w: World, d: Bytes)
    requires !Listener.CopyFits(d)
    ensures d in w.toSender ==> Unsafe(w, SenderHears(d, true))
    ensures d in w.toReceiver ==> Unsafe(w, ReceiverHears(d, true))
  {
    hide Overflows, Listener.CopyFits;
    OverflowsIffCopyDoesNotFit(d);
  }

  lemma InvIsSafe(w: World, c: Bytes)
    requires Inv(w, c)
    ensures !w.crashed && w.Valid()
  {
    hide Running, Silent;
  }

  lemma RegistrationIsSafe(w: World, s: Step)
    requires s.Notify?
    ensures !Unsafe(w, s)
  {
  }

  lemma QueuedFits(w: World, c: Bytes)
    requires Inv(w, c) && SubPacketEvent in w.rxSlots.queue
    ensures R.Fits(w.rxSlots.sub)
  {
    hide Events, Bits, R.CarriesSlice, R.Session;
    assert GoodReply(w.rxSlots.At(SubPacketEvent), c);
    R.CarriedFits(w.rxSlots.sub, c);
  }

  lemma StepKeepsOneLoop(w: World, s: Step)
    requires w.Valid() && S.OneLoop(w.tx)
    ensures S.OneLoop(Apply(w, s).tx)
  {
    hide Events, Bits, Carry, Overflows, S.NextMessage, Without, ReceiverEventStep;
  }

  lemma {:induction false} RunKeepsOneLoop(w: World, steps: seq<Step>)
    requires w.Valid() && S.OneLoop(w.tx)
    ensures S.OneLoop(Exec(w, steps).tx)
    decreases |steps|
  {
    hide Apply, S.OneLoop;
    if steps != [] {
      StepKeepsOneLoop(w, steps[0]);
      RunKeepsOneLoop(Apply(w, steps[0]), steps[1..]);
    }
  }

  /** Single active transfer: in every reachable state, whatever is registered and received, the flag is
      set exactly while the send process is suspended in its loop, so there is one loop at most and the
      process_exit of large_packet_send never kills a live transfer. */
  lemma SingleActiveTransfer(steps: seq<Step>)
    ensures S.OneLoop(Exec(INITIAL, steps).tx)
  {
    RunKeepsOneLoop(INITIAL, steps);
  }

  /** Every request in flight, waiting in the slot or being served asks only for existing sub-packets,
      so every send loop ends (LoopEndsIffInRange). */
  lemma RequestsStayInRange(steps: seq<Step>, c: Bytes)
    requires Registers(steps, c)
    ensures var w := Exec(INITIAL, steps);
            && Bits(w.tx.mask) <= Range(w.tx.num)
            && (forall d :: d in w.toSender ==> |Events(d)| == 1 && GoodRequest(Events(d)[0], c))
            && (RequestEvent in w.txSlots.queue ==> GoodRequest(w.txSlots.request, c))
  {
    hide Apply, Bits, Events;
    InitialInv(c);
    RunKeeps(INITIAL, steps, c);
    BitsZero(0);
  }
}
