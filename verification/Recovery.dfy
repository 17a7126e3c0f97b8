/** Completion: once a request for everything lacking is served and nothing more is lost, the session
    ends with the whole content, in every interleaving. */
module Recovery {
  import opened Types
  import opened Messages
  import opened Fragments
  import opened Masks
  import opened Slots
  import opened Network
  import opened Safety
  import opened Overwrite
  import S = Sender
  import R = Receiver

  // A sub-packet with index i is in flight.
  ghost predicate InFlight(net: multiset<Bytes>, i: nat) {
    exists d :: d in net && |Events(d)| == 1 && Events(d)[0].SubPacket? && Events(d)[0].index == i
  }

  // Index i is still to be sent, or in flight, or waiting in the event slot.
  ghost predicate OnItsWay(w: World, i: nat) {
    || i in Bits(w.tx.mask)
    || InFlight(w.toReceiver, i)
    || (SubPacketEvent in w.rxSlots.queue && w.rxSlots.sub.SubPacket? && w.rxSlots.sub.index == i)
  }

  ghost predicate AllOnTheirWay(w: World) {
    forall i :: i in Lacking(w.rx) ==> OnItsWay(w, i)
  }

  // The sender is ready: no failed send is waiting to end the loop, and a mask means a running loop.
  ghost predicate Ready(tx: S.Tx, id: uint16) {
    (tx.mask != 0 ==> tx.id == id && tx.suspended) && (tx.suspended ==> tx.status >= 0)
  }

  // Only sub-packets of this session reach the receiver process.
  ghost predicate RepliesFor(w: World, id: uint16) {
    && (forall d :: d in w.toReceiver && |Events(d)| == 1 && Events(d)[0].SubPacket? ==> Events(d)[0].id == id)
    && (forall k :: k in w.rxSlots.queue ==> k == SubPacketEvent && w.rxSlots.sub.id == id)
  }

  // The session lives, or it has posted once more than before.
  ghost predicate LivesOrPosted(rx: R.Rx, id: uint16, posts: nat) {
    rx.id == id && rx.alive == !rx.done && rx.posted == posts + if rx.done then 1 else 0
  }

  // What holds from the moment a covering request is served, as long as nothing is lost.
  ghost predicate Transfer(w: World, c: Bytes, id: uint16, posts: nat) {
    && Running(w, c) && !w.crashed && w.Valid()
    && Ready(w.tx, id) && LivesOrPosted(w.rx, id, posts) && RepliesFor(w, id)
    && RequestsCover(w, {})
    && (w.rx.alive ==> AllOnTheirWay(w))
  }

  // The send loop will send at the next expiry of its timer.
  ghost predicate AtWork(tx: S.Tx) {
    tx.mask != 0 && tx.suspended && tx.status >= 0
  }

  // A registration now does not change the id under which the send loop is at work.
  ghost predicate KeepsId(w: World) {
    AtWork(w.tx) ==> w.packetId == w.rx.id
  }

  // Sub-packet i may be lost: it is not lacking, or still to be sent, or in flight among the given datagrams.
  ghost predicate Spare(w: World, i: nat, net: multiset<Bytes>) {
    i !in Lacking(w.rx) || i in Bits(w.tx.mask) || InFlight(net, i)
  }

  ghost predicate IsSubPacket(d: Bytes) {
    |Events(d)| == 1 && Events(d)[0].SubPacket?
  }

  // A sub-packet arrives. It may be refused by a full queue, and it may overwrite one that waits in the
  // slot, but what is overwritten or refused must be spare.
  ghost predicate HearsLossless(w: World, d: Bytes, room: bool) {
    IsSubPacket(d) && (d in w.toReceiver ==>
      var net := w.toReceiver - multiset{d};
      && (room || w.rxSlots.queue != [] || Spare(w, Events(d)[0].index, net))
      && (w.rxSlots.queue != [] && w.rxSlots.sub.SubPacket? ==>
            w.rxSlots.sub.index == Events(d)[0].index || Spare(w, w.rxSlots.sub.index, net)))
  }

  // The receiver takes an event. It may drop it by a fault or because its timer has expired, but then the
  // sub-packet must be spare, or shown again by another event.
  ghost predicate TakesLossless(w: World, expired: bool, fault: bool) {
    w.rx.alive && w.rxSlots.queue != [] && (expired || fault) ==>
      && (expired ==> w.rx.left > 0)
      && (w.rxSlots.queue[1..] != []
          || (w.rxSlots.sub.SubPacket? ==> Spare(w, w.rxSlots.sub.index, w.toReceiver)))
  }

  // Steps that lose no last trace of a sub-packet that is lacking. Requests may be lost, anything may be
  // duplicated, the receiver may time out and ask again while it has requests left, and the packet may be
  // registered again while the send loop is not at work.
  ghost predicate Lossless(w: World, s: Step, c: Bytes) {
    match s
    case Notify(content, _) => content == c && KeepsId(w)
    case SendTimer(ok) => ok
    case SenderEvent(ok) => ok
    case SenderHears(_, _) => true
    case ReceiverHears(d, room) => HearsLossless(w, d, room)
    case ReceiverEvent(expired, fault, _) => TakesLossless(w, expired, fault)
    case ReceiveTimer(_) => w.rx.alive ==> w.rx.left > 0
    case LoseRequest(_) => true
    case LoseReply(d) => IsSubPacket(d) ==> Spare(w, Events(d)[0].index, w.toReceiver - multiset{d})
    case DuplicateRequest(_) => true
    case DuplicateReply(_) => true
  }

  ghost predicate AllLossless(w: World, steps: seq<Step>, c: Bytes)
    requires w.Valid()
    decreases |steps|
  {
    steps == [] || (Lossless(w, steps[0], c) && AllLossless(Apply(w, steps[0]), steps[1..], c))
  }

  // -------------------------------------------------------------------------
  // The send set
  // -------------------------------------------------------------------------

  lemma CarriedInFlight(net: multiset<Bytes>, out: seq<Message>, i: nat)
    requires AllValid(out) && AllSubPackets(out)
    ensures InFlight(net, i) || i in R.Indices(out) ==> InFlight(Carry(net, out), i)
  {
    hide Events, Pack;
    if InFlight(net, i) {
      var d :| d in net && |Events(d)| == 1 && Events(d)[0].SubPacket? && Events(d)[0].index == i;
      assert d in Carry(net, out);
    } else if i in R.Indices(out) {
      var k := IndexAt(out, i);
      EventsOfPack(out[k]);
      assert Datagrams(out)[k] in Carry(net, out);
    }
  }

  lemma {:induction false} IndexAt(ms: seq<Message>, i: nat) returns (k: nat)
    requires AllSubPackets(ms) && i in R.Indices(ms)
    ensures k < |ms| && ms[k].index == i
  {
    if ms[0].index == i {
      k := 0;
    } else {
      k := IndexAt(ms[1..], i);
      k := k + 1;
    }
  }

  ghost predicate AllFor(ms: seq<Message>, id: uint16) {
    forall k | 0 <= k < |ms| :: ms[k].id == id
  }

  // What a ready sender does at an expiry of its timer.
  lemma TimerLeavesNothing(tx: S.Tx, id: uint16)
    requires tx.Valid() && S.InRange(tx) && Ready(tx, id)
    ensures var o := S.Timer(tx, true);
            Ready(o.tx, id) && AllFor(o.out, id) && Bits(tx.mask) == Bits(o.tx.mask) + R.Indices(o.out)
  {
    hide Bits, Without, S.LoopTest, S.Ascending, S.InRange, R.Indices, Fragment;
    NoIndices();
    if tx.suspended {
      S.TimerIsLoopTest(tx, true);
      LoopTestLeavesNothing(tx, true);
      var i := S.LoopTestCases(tx, true);
    }
  }

  lemma ReplyIsReady(tx: S.Tx, r: Message)
    requires tx.Valid() && S.OneLoop(tx) && r.Request? && Bits(r.mask) <= Range(tx.num)
    requires (tx.suspended ==> tx.status >= 0)
    ensures var o := S.Reply(tx, r, true);
            Ready(o.tx, r.id) && AllFor(o.out, r.id)
  {
    hide Bits, Without, S.LoopTest, S.Ascending, Range, Fragment;
    var asked := tx.(id := r.id, mask := r.mask, period := r.period);
    var i := S.LoopTestCases(asked.(suspended := false, sending := true, status := 0), true);
  }

  // -------------------------------------------------------------------------
  // Each part of the invariant, over a lossless step
  // -------------------------------------------------------------------------

  lemma RunningStays(w: World, s: Step, c: Bytes)
    requires Running(w, c) && !w.crashed && w.Valid() && (s.Notify? ==> s.content == c)
    ensures Running(Apply(w, s), c) && !Apply(w, s).crashed
  {
    SenderContent(w.tx, c);
    KeepsContent(w, s, c);
    hide Apply, GoodSender, GoodReceiver, RepliesInFlight, RequestsInFlight, RepliesQueued, RequestsQueued;
    StepKeeps(w, s, c);
  }

  lemma SenderContent(tx: S.Tx, c: Bytes)
    ensures GoodSender(tx, c) ==> tx.payload == c
  {
  }

  lemma KeepsContent(w: World, s: Step, c: Bytes)
    requires w.Valid() && w.tx.payload == c && (s.Notify? ==> s.content == c)
    ensures Apply(w, s).tx.payload == c
  {
    hide Events, Bits, Carry, Overflows, S.Timer, S.Reply, ReceiverEventStep;
  }

  ghost predicate OnlySubPackets(queue: seq<Kind>) {
    forall k :: k in queue ==> k == SubPacketEvent
  }

  lemma RepliesForParts(w: World, id: uint16)
    requires RepliesFor(w, id)
    ensures OnlySubPackets(w.rxSlots.queue) && (w.rxSlots.queue != [] ==> w.rxSlots.sub.id == id)
  {
    hide Events;
    assert w.rxSlots.queue != [] ==> w.rxSlots.queue[0] in w.rxSlots.queue;
  }

  lemma CoverStays(w: World, s: Step)
    requires w.Valid() && RequestsCover(w, {}) && OnlySubPackets(w.rxSlots.queue) && w.rxSlots.Valid()
    ensures RequestsCover(Apply(w, s), {})
  {
    hide RequestsCover, Apply;
    if w.rxSlots.queue != [] {
      assert w.rxSlots.queue[0] in w.rxSlots.queue;
    }
    StepCovers(w, s, {});
  }

  // A covering request at the head of the sender's queue.
  ghost predicate HeadIsGood(w: World, c: Bytes) {
    w.txSlots.queue != [] ==> GoodRequest(w.txSlots.Head(), c) && Covers(w.txSlots.Head(), w.rx)
  }

  lemma HeadsAreGood(w: World, c: Bytes)
    requires Running(w, c) && !w.crashed && w.Valid() && RequestsCover(w, {})
    ensures HeadIsGood(w, c)
  {
    hide Events, Bits, GoodSender, GoodReceiver, RepliesInFlight, RequestsInFlight, RepliesQueued, Covers;
    if w.txSlots.queue != [] {
      PopKeeps(w.txSlots, c);
      assert w.txSlots.queue[0] in w.txSlots.queue;
    }
  }

  lemma ReadyStays(w: World, s: Step, c: Bytes, id: uint16)
    requires w.Valid() && GoodSender(w.tx, c) && Ready(w.tx, id) && w.rx.id == id && HeadIsGood(w, c)
    requires Lossless(w, s, c)
    ensures Ready(Apply(w, s).tx, id)
  {
    hide Events, Bits, Carry, Overflows, S.Timer, S.Reply, ReceiverEventStep, Lacking;
    match s {
      case SendTimer(_) => TimerLeavesNothing(w.tx, id);
      case SenderEvent(_) => if w.txSlots.queue != [] { ReplyIsReady(w.tx, w.txSlots.Head()); }
      case _ =>
    }
  }

  // The receiver process takes the sub-packet at the head of its queue.
  lemma TakesSubPacket(w: World, c: Bytes, id: uint16, ok: bool)
    requires w.Valid() && Sendable(c) && GoodReceiver(w.rx, c) && RepliesQueued(w.rxSlots, c)
    requires RepliesFor(w, id) && w.rx.id == id && w.rxSlots.queue != []
    ensures R.StoresSafely(w.rx, w.rxSlots.sub, false)
    ensures ReceiverEventStep(w, false, false, ok)
         == w.(rxSlots := w.rxSlots.Pop(), rx := R.OnSubPacket(w.rx, w.rxSlots.sub, false))
    ensures var r := R.OnSubPacket(w.rx, w.rxSlots.sub, false);
            && r.id == w.rx.id
            && (!w.rx.alive ==> r == w.rx)
            && (w.rx.alive ==> Lacking(r) == Lacking(w.rx) - {w.rxSlots.sub.index})
            && (w.rx.alive ==> r.alive == !r.done && r.posted == w.rx.posted + if r.done then 1 else 0)
  {
    RepliesForParts(w, id);
    hide Events, Bits, R.OnSubPacket, R.Session, R.CarriesSlice, RepliesFor, Lacking;
    assert w.rxSlots.queue[0] in w.rxSlots.queue;
    PopKeeps(w.rxSlots, c);
    OnSubPacketKeeps(w.rx, w.rxSlots.sub, c, false);
    AcceptsOne(w.rx, w.rxSlots.sub, c);
  }

  // An event that is dropped leaves the session as it was, but for a request.
  lemma DropsSubPacket(w: World, c: Bytes, id: uint16, expired: bool, fault: bool, ok: bool)
    requires w.Valid() && Sendable(c) && GoodReceiver(w.rx, c) && RepliesQueued(w.rxSlots, c)
    requires RepliesFor(w, id) && w.rxSlots.queue != [] && (expired || fault) && TakesLossless(w, expired, fault)
    ensures var next := ReceiverEventStep(w, expired, fault, ok);
            && next.rx == w.rx.(left := next.rx.left) && (!w.rx.alive ==> next.rx == w.rx)
            && next.tx == w.tx && next.rxSlots == w.rxSlots.Pop() && next.toReceiver == w.toReceiver
  {
    RepliesForParts(w, id);
    hide Events, Bits, R.Store, R.Session, R.CarriesSlice, RepliesFor, Lacking, Missing, Carry, Spare;
    assert w.rxSlots.queue[0] in w.rxSlots.queue;
    PopKeeps(w.rxSlots, c);
    OnSubPacketKeeps(w.rx, w.rxSlots.sub, c, fault);
  }

  lemma LivesOrPostedStays(w: World, s: Step, c: Bytes, id: uint16, posts: nat)
    requires w.Valid() && Sendable(c) && GoodReceiver(w.rx, c) && RepliesQueued(w.rxSlots, c)
    requires LivesOrPosted(w.rx, id, posts) && RepliesFor(w, id) && Lossless(w, s, c)
    ensures LivesOrPosted(Apply(w, s).rx, id, posts)
    ensures !w.rx.alive ==> Apply(w, s).rx == w.rx
  {
    StepFrame(w, s);
    StepCases(w, s);
    hide Apply, Events, Bits, Carry, S.Timer, S.Reply, SenderEventStep, ReceiverEventStep, Lacking, GoodReceiver;
    hide RepliesQueued, RepliesFor, Missing, R.OnSubPacket, TakesLossless;
    if !w.crashed && s.ReceiverEvent? {
      if w.rxSlots.queue == [] {
        NoEvent(w, s.expired, s.fault, s.ok);
      } else if s.expired || s.fault {
        DropsSubPacket(w, c, id, s.expired, s.fault, s.ok);
      } else {
        TakesSubPacket(w, c, id, s.ok);
      }
    }
  }

  lemma AcceptsOne(rx: R.Rx, m: Message, c: Bytes)
    requires Sendable(c) && GoodReceiver(rx, c) && R.Carries(m, c) && m.id == rx.id
    requires R.StoresSafely(rx, m, false)
    ensures var r := R.OnSubPacket(rx, m, false);
            && r.id == rx.id
            && (!rx.alive ==> r == rx)
            && (rx.alive ==> Lacking(r) == Lacking(rx) - {m.index})
            && (rx.alive ==> r.alive == !r.done && r.posted == rx.posted + if r.done then 1 else 0)
  {
    hide Bits, R.Store, R.CarriesSlice, InPlace;
    if rx.alive {
      R.StoreReceives(rx, m, c);
      R.StoreOutcome(rx, m);
    }
  }

  lemma TransmitFor(w: World, o: S.Outcome, id: uint16)
    requires AllValid(o.out) && AllFor(o.out, id) && RepliesFor(w, id)
    ensures RepliesFor(Transmit(w, o), id)
  {
    hide Events, Carry;
    forall d | d in Carry(w.toReceiver, o.out) && |Events(d)| == 1 && Events(d)[0].SubPacket?
      ensures Events(d)[0].id == id
    {
      if d !in w.toReceiver {
        var k := CarriedDatagram(w.toReceiver, o.out, d);
      }
    }
  }

  lemma FrameFor(w: World, next: World, id: uint16)
    requires RepliesFor(w, id) && forall d :: d in next.toReceiver ==> d in w.toReceiver
    requires next.rxSlots.sub == w.rxSlots.sub && forall k :: k in next.rxSlots.queue ==> k in w.rxSlots.queue
    ensures RepliesFor(next, id)
  {
    hide Events;
  }

  lemma HearsFor(w: World, d: Bytes, room: bool, id: uint16)
    requires w.Valid() && RepliesFor(w, id) && (room ==> forall m <- Events(d) :: m.SubPacket?)
    ensures RepliesFor(Apply(w, ReceiverHears(d, room)), id)
  {
    hide Events, Overflows;
    DispatchIsExclusive(d);
    ArriveIsOnePut(w.rxSlots, d, room);
  }

  // A signal in flight is no sub-packet of another packet.
  lemma NotifyFor(w: World, content: Bytes, ok: bool, id: uint16)
    requires w.Valid() && RepliesFor(w, id)
    ensures RepliesFor(NotifyStep(w, content, ok), id)
  {
    hide Events, Pack, Carry;
    if Sendable(content) {
      CountBounds(content);
      var out := R.Sent(Signal(w.packetId, Count(content)), ok);
      forall d | d in Carry(w.toReceiver, out) && |Events(d)| == 1 && Events(d)[0].SubPacket?
        ensures Events(d)[0].id == id
      {
        if d !in w.toReceiver {
          var k := CarriedDatagram(w.toReceiver, out, d);
        }
      }
    }
  }

  lemma RepliesForStay(w: World, s: Step, c: Bytes, id: uint16)
    requires w.Valid() && GoodSender(w.tx, c) && Ready(w.tx, id) && w.rx.id == id && HeadIsGood(w, c)
    requires Lossless(w, s, c)
    requires RepliesFor(w, id)
    ensures RepliesFor(Apply(w, s), id)
  {
    hide Apply, Events, Bits, Carry, Overflows, S.Timer, Lacking, ReceiverEventStep, SenderEventStep, RepliesFor;
    hide HeadIsGood;
    StepFrame(w, s);
    StepCases(w, s);
    if !w.crashed {
      if s.SendTimer? {
        TimerLeavesNothing(w.tx, id);
        TransmitFor(w, S.Timer(w.tx, true), id);
      } else if s.SenderEvent? {
        ServesFor(w, c, id);
      } else if s.ReceiverEvent? {
        ReceiverEventFor(w, s.expired, s.fault, s.ok, id);
      } else if s.ReceiverHears? {
        HearsFor(w, s.d, s.room, id);
      } else if s.Notify? {
        NotifyFor(w, s.content, s.ok, id);
      } else {
        FrameFor(w, Apply(w, s), id);
      }
    }
  }

  lemma ServesFor(w: World, c: Bytes, id: uint16)
    requires w.Valid() && GoodSender(w.tx, c) && (w.tx.suspended ==> w.tx.status >= 0) && w.rx.id == id
    requires HeadIsGood(w, c)
    requires RepliesFor(w, id)
    ensures RepliesFor(SenderEventStep(w, true), id)
  {
    hide Events, Bits, Carry, S.Reply, Lacking, RepliesFor;
    if w.txSlots.queue != [] {
      var r := w.txSlots.Head();
      ReplyIsReady(w.tx, r);
      FrameFor(w, TakeRequest(w), id);
      TransmitFor(TakeRequest(w), S.Reply(w.tx, r, true), id);
    }
  }

  lemma NoEvent(w: World, expired: bool, fault: bool, ok: bool)
    requires w.Valid() && w.rxSlots.queue == []
    ensures ReceiverEventStep(w, expired, fault, ok) == w
  {
  }

  lemma PopStays(w: World, expired: bool, fault: bool, ok: bool)
    requires w.Valid() && w.rxSlots.queue != []
    ensures var next := ReceiverEventStep(w, expired, fault, ok);
            next.rxSlots == w.rxSlots.Pop() && forall k :: k in next.rxSlots.queue ==> k in w.rxSlots.queue
  {
    hide R.OnTimeout, R.OnSubPacket, R.OnSignal;
    assert forall k :: k in w.rxSlots.queue[1..] ==> k in w.rxSlots.queue;
  }

  lemma ReceiverEventFor(w: World, expired: bool, fault: bool, ok: bool, id: uint16)
    requires w.Valid() && RepliesFor(w, id)
    ensures RepliesFor(ReceiverEventStep(w, expired, fault, ok), id)
  {
    hide Events, RepliesFor, ReceiverEventStep;
    if w.rxSlots.queue != [] { PopStays(w, expired, fault, ok); } else { NoEvent(w, expired, fault, ok); }
    FrameFor(w, ReceiverEventStep(w, expired, fault, ok), id);
  }

  // -------------------------------------------------------------------------
  // What is lacking stays on its way
  // -------------------------------------------------------------------------

  // The sender moves indices from its mask, or replaces the mask, and sends.
  lemma TransmitOnTheirWay(w: World, o: S.Outcome)
    requires AllValid(o.out) && AllSubPackets(o.out)
    requires (AllOnTheirWay(w) && Bits(w.tx.mask) <= Bits(o.tx.mask) + R.Indices(o.out))
          || Lacking(w.rx) <= Bits(o.tx.mask) + R.Indices(o.out)
    ensures AllOnTheirWay(Transmit(w, o))
  {
    hide Events, Bits, Carry, InFlight, R.Indices;
    forall i | i in Lacking(w.rx) ensures OnItsWay(Transmit(w, o), i) {
      CarriedInFlight(w.toReceiver, o.out, i);
      assert AllOnTheirWay(w) ==> OnItsWay(w, i);
    }
  }

  // What was on its way still is, when the mask and the slot stay and no datagram leaves.
  lemma StaysOnItsWay(w: World, next: World)
    requires AllOnTheirWay(w) && next.rx.mask == w.rx.mask && next.rx.num == w.rx.num && next.tx.mask == w.tx.mask
    requires next.rxSlots == w.rxSlots && forall d :: d in w.toReceiver ==> d in next.toReceiver
    ensures AllOnTheirWay(next)
  {
    hide Events, Bits;
    forall i | i in Lacking(next.rx) ensures OnItsWay(next, i) {
      assert OnItsWay(w, i);
      if InFlight(w.toReceiver, i) {
        var d :| d in w.toReceiver && |Events(d)| == 1 && Events(d)[0].SubPacket? && Events(d)[0].index == i;
        assert d in next.toReceiver;
      }
    }
  }

  // A datagram that moves from the network into the slot, or is refused.
  lemma ArrivesOnItsWay(w: World, d: Bytes, room: bool)
    requires AllOnTheirWay(w) && d in w.toReceiver && HearsLossless(w, d, room) && OnlySubPackets(w.rxSlots.queue)
    ensures AllOnTheirWay(w.(toReceiver := w.toReceiver - multiset{d}, rxSlots := w.rxSlots.Arrive(d, room)))
  {
    hide Events, Bits, Lacking;
    ArriveIsOnePut(w.rxSlots, d, room);
    var net := w.toReceiver - multiset{d};
    var next := w.(toReceiver := net, rxSlots := w.rxSlots.Arrive(d, room));
    assert next.rxSlots.sub == Events(d)[0];
    if room || w.rxSlots.queue != [] { SubPacketWaits(w.rxSlots, next.rxSlots, room); }
    forall i | i in Lacking(w.rx) ensures OnItsWay(next, i) {
      assert OnItsWay(w, i);
      if InFlight(w.toReceiver, i) && i != Events(d)[0].index {
        var e :| e in w.toReceiver && |Events(e)| == 1 && Events(e)[0].SubPacket? && Events(e)[0].index == i;
        assert e in net;
      }
    }
  }

  lemma SubPacketWaits(before: Slots, after: Slots, room: bool)
    requires OnlySubPackets(before.queue) && (room || before.queue != [])
    requires after.queue == if room then before.queue + [SubPacketEvent] else before.queue
    ensures SubPacketEvent in after.queue
  {
    if room {
      assert after.queue[|before.queue|] == SubPacketEvent;
    } else {
      assert before.queue[0] in before.queue;
    }
  }

  // A datagram is lost that was spare.
  lemma LosesOnItsWay(w: World, d: Bytes)
    requires AllOnTheirWay(w)
    requires IsSubPacket(d) ==> Spare(w, Events(d)[0].index, w.toReceiver - multiset{d})
    ensures AllOnTheirWay(w.(toReceiver := w.toReceiver - multiset{d}))
  {
    hide Events, Bits, Lacking;
    var next := w.(toReceiver := w.toReceiver - multiset{d});
    forall i | i in Lacking(w.rx) ensures OnItsWay(next, i) {
      assert OnItsWay(w, i);
      if InFlight(w.toReceiver, i) && !(IsSubPacket(d) && Events(d)[0].index == i) {
        var e :| e in w.toReceiver && |Events(e)| == 1 && Events(e)[0].SubPacket? && Events(e)[0].index == i;
        assert e in next.toReceiver;
      }
    }
  }

  // An event is dropped whose sub-packet was spare, or is shown again.
  lemma DropsOnItsWay(w: World, next: World)
    requires AllOnTheirWay(w) && w.rxSlots.queue != [] && w.rxSlots.sub.SubPacket? && OnlySubPackets(w.rxSlots.queue)
    requires w.rxSlots.queue[1..] != [] || Spare(w, w.rxSlots.sub.index, w.toReceiver)
    requires next.tx == w.tx && next.rxSlots == w.rxSlots.Pop() && next.toReceiver == w.toReceiver
    requires next.rx.mask == w.rx.mask && next.rx.num == w.rx.num
    ensures AllOnTheirWay(next)
  {
    hide Events, Bits, InFlight;
    if w.rxSlots.queue[1..] != [] {
      assert w.rxSlots.queue[1..][0] in w.rxSlots.queue;
      assert w.rxSlots.queue[1..][0] in next.rxSlots.queue;
    }
    forall i | i in Lacking(next.rx) ensures OnItsWay(next, i) {
      assert OnItsWay(w, i);
    }
  }

  lemma NotifyOnTheirWay(w: World, content: Bytes, ok: bool)
    requires w.Valid() && AllOnTheirWay(w)
    ensures AllOnTheirWay(NotifyStep(w, content, ok))
  {
    hide Events, Bits, Carry, AllOnTheirWay, Pack;
    if Sendable(content) {
      CountBounds(content);
      CarryKeeps(w.toReceiver, R.Sent(Signal(w.packetId, Count(content)), ok));
    }
    StaysOnItsWay(w, NotifyStep(w, content, ok));
  }

  // The event at the head is stored.
  lemma StoredOnItsWay(w: World, rx: R.Rx)
    requires AllOnTheirWay(w) && w.rxSlots.queue != [] && w.rxSlots.sub.SubPacket?
    requires Lacking(rx) == Lacking(w.rx) - {w.rxSlots.sub.index}
    ensures AllOnTheirWay(w.(rxSlots := w.rxSlots.Pop(), rx := rx))
  {
    hide Events, Bits, InFlight, Lacking;
    forall i | i in Lacking(rx) ensures OnItsWay(w.(rxSlots := w.rxSlots.Pop(), rx := rx), i) {
      assert OnItsWay(w, i);
    }
  }

  lemma ServedOnTheirWay(w: World, c: Bytes)
    requires w.Valid() && GoodSender(w.tx, c) && w.txSlots.queue != [] && HeadIsGood(w, c)
    ensures AllOnTheirWay(SenderEventStep(w, true))
  {
    hide Events, Bits, Carry, S.Reply, Lacking, AllOnTheirWay, R.Indices;
    var r := w.txSlots.Head();
    ReplyLeavesNothing(w.tx, r, true);
    TransmitOnTheirWay(TakeRequest(w), S.Reply(w.tx, r, true));
  }

  lemma OnTheirWayStay(w: World, s: Step, c: Bytes, id: uint16)
    requires Running(w, c) && !w.crashed && w.Valid() && Ready(w.tx, id) && w.rx.id == id && HeadIsGood(w, c)
    requires RepliesFor(w, id) && AllOnTheirWay(w) && w.rx.alive && Lossless(w, s, c)
    ensures AllOnTheirWay(Apply(w, s))
  {
    hide Events, Bits, Carry, Overflows, S.Timer, SenderEventStep, ReceiverEventStep, AllOnTheirWay, R.Indices;
    hide R.OnSubPacket, Lacking;
    hide RepliesFor, GoodReceiver, HeadIsGood, RepliesQueued, RequestsQueued, RepliesInFlight, RequestsInFlight;
    StepFrame(w, s);
    StepCases(w, s);
    if s.SendTimer? {
      hide Apply;
      TimerLeavesNothing(w.tx, id);
      TransmitOnTheirWay(w, S.Timer(w.tx, true));
    } else if s.SenderEvent? {
      if w.txSlots.queue != [] { ServedOnTheirWay(w, c); } else { NoRequest(w); }
    } else if s.ReceiverEvent? {
      ReceiverEventOnTheirWay(w, c, id, s.expired, s.fault, s.ok);
    } else if s.ReceiverHears? && s.d in w.toReceiver && !Overflows(s.d) {
      RepliesForParts(w, id);
      ArrivesOnItsWay(w, s.d, s.room);
    } else if s.LoseReply? {
      LosesOnItsWay(w, s.d);
    } else if s.Notify? {
      NotifyOnTheirWay(w, s.content, s.ok);
    } else {
      StaysOnItsWay(w, Apply(w, s));
    }
  }

  lemma ReceiverEventOnTheirWay(w: World, c: Bytes, id: uint16, expired: bool, fault: bool, ok: bool)
    requires Running(w, c) && w.Valid() && w.rx.id == id && RepliesFor(w, id) && AllOnTheirWay(w) && w.rx.alive
    requires TakesLossless(w, expired, fault)
    ensures AllOnTheirWay(ReceiverEventStep(w, expired, fault, ok))
  {
    hide Events, Bits, ReceiverEventStep, AllOnTheirWay, R.OnSubPacket, Lacking, Spare;
    hide RepliesFor, GoodReceiver, GoodSender, RepliesQueued, RequestsQueued, RepliesInFlight, RequestsInFlight;
    if w.rxSlots.queue == [] {
      NoEvent(w, expired, fault, ok);
    } else if expired || fault {
      ReceiverIsValid(w, c);
      RepliesForParts(w, id);
      DropsSubPacket(w, c, id, expired, fault, ok);
      DropsOnItsWay(w, ReceiverEventStep(w, expired, fault, ok));
    } else {
      ReceiverIsValid(w, c);
      TakesSubPacket(w, c, id, ok);
      StoredOnItsWay(w, R.OnSubPacket(w.rx, w.rxSlots.sub, false));
    }
  }

  lemma NoRequest(w: World)
    requires w.Valid() && w.txSlots.queue == []
    ensures SenderEventStep(w, true) == w
  {
  }

  lemma ReceiverIsValid(w: World, c: Bytes)
    requires RepliesQueued(w.rxSlots, c)
    ensures w.rxSlots.Valid()
  {
  }

  // -------------------------------------------------------------------------
  // The theorems
  // -------------------------------------------------------------------------

  lemma LosslessKeeps(w: World, s: Step, c: Bytes, id: uint16, posts: nat)
    requires Transfer(w, c, id, posts) && Lossless(w, s, c)
    ensures Transfer(Apply(w, s), c, id, posts)
  {
    hide Apply, Ready, RepliesFor, RequestsCover, AllOnTheirWay, Lossless, HeadIsGood;
    hide GoodSender, GoodReceiver, RepliesQueued, RequestsQueued, RepliesInFlight, RequestsInFlight;
    LosslessContent(w, s, c);
    RepliesForParts(w, id);
    ReceiverIsValid(w, c);
    HeadsAreGood(w, c);
    RunningStays(w, s, c);
    CoverStays(w, s);
    ReadyStays(w, s, c, id);
    LivesOrPostedStays(w, s, c, id, posts);
    RepliesForStay(w, s, c, id);
    if w.rx.alive {
      OnTheirWayStay(w, s, c, id);
    }
  }

  lemma LosslessContent(w: World, s: Step, c: Bytes)
    requires Lossless(w, s, c)
    ensures s.Notify? ==> s.content == c
  {
  }

  lemma {:induction false} LosslessRunKeeps(w: World, steps: seq<Step>, c: Bytes, id: uint16, posts: nat)
    requires Transfer(w, c, id, posts) && w.Valid() && AllLossless(w, steps, c)
    ensures Transfer(Exec(w, steps), c, id, posts)
    decreases |steps|
  {
    hide Transfer, Apply, Lossless;
    if steps != [] {
      LosslessKeeps(w, steps[0], c, id, posts);
      LosslessRunKeeps(Apply(w, steps[0]), steps[1..], c, id, posts);
    }
  }

  // Nothing left to send, nothing in flight, nothing waiting.
  ghost predicate Quiet(w: World) {
    && w.tx.mask == 0
    && w.rxSlots.queue == []
    && forall d :: d in w.toReceiver && |Events(d)| == 1 ==> !Events(d)[0].SubPacket?
  }

  lemma QuietCarriesNothing(w: World, i: nat)
    requires Quiet(w)
    ensures !OnItsWay(w, i)
  {
    hide Bits, Events;
    BitsZero(w.tx.mask);
  }

  lemma QuietLacksNothing(w: World)
    ensures AllOnTheirWay(w) && Quiet(w) ==> Lacking(w.rx) == {}
  {
    hide Quiet, OnItsWay, Lacking;
    if Quiet(w) {
      forall i: nat ensures !OnItsWay(w, i) { QuietCarriesNothing(w, i); }
    }
  }

  lemma NothingLackingIsDone(rx: R.Rx, c: Bytes)
    requires R.Session(rx, c)
    ensures Lacking(rx) == {} ==> rx.done
  {
    hide Bits, InPlace;
    assert Lacking(rx) == {} ==> forall i :: i in Range(rx.num) ==> i in Bits(rx.mask) || i in Lacking(rx);
  }

  /** When nothing is left to send, in flight or waiting, the session is over: it has posted exactly once
      more, and the storage starts with the content. */
  lemma QuietMeansDelivered(w: World, c: Bytes, id: uint16, posts: nat)
    requires Transfer(w, c, id, posts) && Quiet(w)
    ensures w.rx.done && w.rx.posted == posts + 1 && Sendable(c) && w.rx.storage[..|c|] == c
  {
    hide Bits, Events, Quiet, AllOnTheirWay, Lacking, RequestsCover, RepliesFor, GoodSender, RepliesInFlight;
    hide RequestsInFlight, InPlace;
    QuietLacksNothing(w);
    NothingLackingIsDone(w.rx, c);
    R.DoneMeansContent(w.rx, c);
  }

  /** Serving a request that covers what the receiver lacks starts a transfer, in any state of a session,
      whatever was lost before and whether or not the send loop is busy. */
  lemma ServingStartsTransfer(w: World, c: Bytes)
    requires Running(w, c) && !w.crashed && w.Valid() && w.txSlots.queue != [] && RequestsCover(w, {})
    requires w.rx.alive && RepliesFor(w, w.rx.id) && (w.tx.suspended ==> w.tx.status >= 0)
    ensures Transfer(Apply(w, SenderEvent(true)), c, w.rx.id, w.rx.posted)
  {
    hide Bits, Events, RepliesFor, RequestsCover, AllOnTheirWay, HeadIsGood, SenderEventStep, S.Reply, InPlace;
    hide RepliesQueued, RequestsQueued, RepliesInFlight, RequestsInFlight;
    HeadsAreGood(w, c);
    RunningStays(w, SenderEvent(true), c);
    SenderEventCovers(w, true, {});
    ServesFor(w, c, w.rx.id);
    ServedOnTheirWay(w, c);
    ServedIsReady(w, c);
  }

  lemma ServedIsReady(w: World, c: Bytes)
    requires w.Valid() && GoodSender(w.tx, c) && w.txSlots.queue != [] && HeadIsGood(w, c)
    requires w.tx.suspended ==> w.tx.status >= 0
    ensures Ready(SenderEventStep(w, true).tx, w.rx.id)
  {
    hide Bits, Events, Carry, S.Reply, Lacking;
    ReplyIsReady(w.tx, w.txSlots.Head());
  }
}
