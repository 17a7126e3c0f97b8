/** Why only the requests of the session itself are safe to serve: one left over from an earlier session for the
    same packet id may ask for less than the receiver lacks, and one for another id ends the session. */
module StaleRequests {
  import opened Types
  import opened Messages
  import opened Fragments
  import opened Masks
  import opened Slots
  import opened Network
  import opened Safety
  import opened Overwrite
  import opened Recovery
  import opened Completion
  import opened Reregistration
  import S = Sender
  import R = Receiver

  function Announcement(c: Bytes): (m: Message)
    requires Sendable(c)
    ensures m.Signal?
  {
    CountBounds(c);
    Signal(0, Count(c))
  }

  function FirstRequest(c: Bytes): (m: Message)
    requires Sendable(c)
    ensures m.Request?
  {
    CountBounds(c);
    Request(0, Whole(Count(c)), R.REQUEST_PERIOD)
  }

  // Asked for when only sub-packet 0 has come.
  function SecondRequest(c: Bytes): (m: Message)
    requires Sendable(c)
    ensures m.Request?
  {
    Request(0, Missing(With(0, 0), Count(c)), R.REQUEST_PERIOD)
  }

  // Both nodes wait, and the network holds a copy of the signal.
  ghost predicate Waiting(w: World, c: Bytes)
    requires Sendable(c)
  {
    && w.Valid() && !w.crashed && w.txSlots.Valid() && w.rxSlots.Valid()
    && w.txSlots.queue == [] && w.rxSlots.queue == []
    && w.rx.alive && w.rx.num == Count(c) && w.rx.id == 0 && w.rx.period == R.REQUEST_PERIOD && w.rx.left == 4
    && Pack(Announcement(c)) in w.toReceiver
  }

  // The signal arrives twice; the first copy sets up a session.
  function Announced(c: Bytes): seq<Step>
    requires Sendable(c)
  {
    var d := Pack(Announcement(c));
    [Notify(c, true), DuplicateReply(d), ReceiverHears(d, true), ReceiverEvent(false, false, true)]
  }

  lemma FirstSession(c: Bytes)
    requires Sendable(c)
    ensures var w := Exec(INITIAL, Announced(c));
            && Waiting(w, c) && w.rx.mask == 0 && w.tx.payload == c && !w.tx.sending
                  && Pack(FirstRequest(c)) in w.toSender
  {
    hide Pack, Events, Bits, Whole;
    CountBounds(c);
    var m, d := Announcement(c), Pack(Announcement(c));
    var steps := Announced(c);
    var w1 := Apply(INITIAL, steps[0]);
    DatagramsOfOne(m);
    assert w1.toReceiver == multiset{d};
    var w2 := Apply(w1, steps[1]);
    HearReply(w2, m);
    var w3 := Apply(w2, steps[2]);
    assert w3.rxSlots.queue == [SignalEvent];
    DatagramsOfOne(FirstRequest(c));
    ExecFour(INITIAL, steps);
  }

  // The first request is served, and its first sub-packet arrives.
  function OneArrives(c: Bytes): seq<Step>
    requires Sendable(c)
  {
    [SenderHears(Pack(FirstRequest(c)), true), SenderEvent(true),
     ReceiverHears(Pack(S.Part(c, 0, 0)), true), ReceiverEvent(false, false, true)]
  }

  lemma ServesFirst(tx: S.Tx, c: Bytes)
    requires Sendable(c) && tx.Valid() && tx.payload == c && !tx.sending
    ensures S.Reply(tx, FirstRequest(c), true).out == [S.Part(c, 0, 0)]
    ensures S.Reply(tx, FirstRequest(c), true).tx.sending
  {
    hide S.LoopTest, S.Reply, S.Part, Whole;
    var r := FirstRequest(c);
    ReplyStarts(tx, r, true);
    var asked := tx.(id := r.id, mask := r.mask, period := r.period);
    SendsFirst(asked.(suspended := false, sending := true, status := 0), c);
  }

  lemma SendsFirst(tx: S.Tx, c: Bytes)
    requires Sendable(c) && tx.Valid() && tx.payload == c && tx.id == 0 && tx.status >= 0
    requires Count(c) <= 64 && tx.mask == Whole(Count(c))
    ensures S.LoopTest(tx, true).out == [S.Part(c, 0, 0)]
    ensures S.LoopTest(tx, true).tx.sending == tx.sending
  {
    hide Bits, Whole, SubPacketCount, S.LoopTest, S.NextSend, S.Part, S.PickFrom;
    CountBounds(c);
    assert Bits(tx.mask) == Range(Count(c)) by { BitsWhole(Count(c)); }
    assert 0 in Bits(tx.mask);
    BitsZero(tx.mask);
    var i := S.NextSendIsExact(tx);
    assert i == 0;
    LoopTestSends(tx);
  }

  lemma ReplyStarts(tx: S.Tx, r: Message, ok: bool)
    requires tx.Valid() && !tx.sending && r.Request?
    ensures var asked := tx.(id := r.id, mask := r.mask, period := r.period);
            S.Reply(tx, r, ok) == S.LoopTest(asked.(suspended := false, sending := true, status := 0), ok)
  {
    hide S.LoopTest;
  }

  lemma LoopTestSends(tx: S.Tx)
    requires tx.Valid() && tx.mask != 0 && tx.status >= 0
    ensures S.LoopTest(tx, true).out == S.NextSend(tx, true).out && S.LoopTest(tx, true).tx.sending == tx.sending
  {
  }

  lemma FirstIsSent(w: World, c: Bytes)
    requires Sendable(c) && 0 < Count(c) && Waiting(w, c) && w.tx.payload == c && !w.tx.sending
    requires Pack(FirstRequest(c)) in w.toSender
    ensures var next := Apply(Apply(w, SenderHears(Pack(FirstRequest(c)), true)), SenderEvent(true));
            Waiting(next, c) && next.rx == w.rx && next.tx.sending && Pack(S.Part(c, 0, 0)) in next.toReceiver
  {
    hide Pack, Events, Bits, Whole, S.Reply, S.Part, Announcement;
    HearRequest(w, FirstRequest(c));
    var heard := Apply(w, SenderHears(Pack(FirstRequest(c)), true));
    assert heard.txSlots.queue == [RequestEvent];
    ServesFirst(heard.tx, c);
    FirstPart(c);
    DatagramsOfOne(S.Part(c, 0, 0));
  }

  lemma FirstIsHeard(w: World, c: Bytes)
    requires Sendable(c) && Count(c) >= 2 && Waiting(w, c) && w.rx.mask == 0 && Pack(S.Part(c, 0, 0)) in w.toReceiver
    ensures var next := Apply(Apply(w, ReceiverHears(Pack(S.Part(c, 0, 0)), true)), ReceiverEvent(false, false, true));
            Waiting(next, c) && next.rx.mask == With(0, 0) && next.tx == w.tx
  {
    hide Pack, Events, Bits, Whole, With, S.Part, Announcement, R.OnSubPacket, R.StoresSafely;
    var part := S.Part(c, 0, 0);
    FirstPart(c);
    HearReply(w, part);
    var heard := Apply(w, ReceiverHears(Pack(part), true));
    assert heard.rxSlots.queue == [SubPacketEvent];
    FirstIsStored(w.rx, c);
    SignalIsNoPart(c);
  }

  lemma SignalIsNoPart(c: Bytes)
    requires Sendable(c) && 0 < Count(c)
    ensures Pack(Announcement(c)) != Pack(S.Part(c, 0, 0))
  {
    hide Pack;
    EventsOfPack(Announcement(c));
    EventsOfPack(S.Part(c, 0, 0));
  }

  lemma WaitingIsValid(w: World, c: Bytes)
    requires Sendable(c) && Waiting(w, c)
    ensures w.Valid()
  {
  }

  lemma FirstArrives(w: World, c: Bytes)
    requires Sendable(c) && Count(c) >= 2 && Waiting(w, c) && w.rx.mask == 0 && w.tx.payload == c && !w.tx.sending
    requires Pack(FirstRequest(c)) in w.toSender
    ensures var next := Exec(w, OneArrives(c));
            Waiting(next, c) && next.rx.mask == With(0, 0) && next.tx.sending
  {
    hide Pack, Apply, Waiting, With, S.Part, FirstRequest;
    var steps := OneArrives(c);
    WaitingIsValid(w, c);
    FirstIsSent(w, c);
    FirstIsHeard(Apply(Apply(w, steps[0]), steps[1]), c);
    ExecFour(w, steps);
  }

  lemma FirstPart(c: Bytes)
    requires Sendable(c)
    ensures 0 < Count(c)
    ensures var part := S.Part(c, 0, 0);
            part.SubPacket? && part.Valid() && |part.payload| <= SUB_MAX && part.id == 0 && R.Carries(part, c)
  {
    CountBounds(c);
    PickedLengthIsFragmentLength(c, 0);
  }

  // With two sub-packets or more, the first one does not end the session.
  lemma FirstIsStored(rx: R.Rx, c: Bytes)
    requires Sendable(c) && Count(c) >= 2 && rx.Valid() && rx.num == Count(c) && rx.mask == 0 && rx.alive && rx.id == 0
    ensures var part := S.Part(c, 0, 0);
            R.StoresSafely(rx, part, false)
            && var r := R.OnSubPacket(rx, part, false);
               r == R.Store(rx, part) && r.mask == With(0, 0) && r.alive
               && r.num == rx.num && r.id == rx.id && r.left == rx.left && r.period == rx.period
  {
    hide Bits, Whole, With, Write, S.Part, R.Carries;
    CountBounds(c);
    var part := S.Part(c, 0, 0);
    FirstPart(c);
    R.CarriedFits(part, c);
    PartHasIndexAndCount(c);
    BitsWith(0, 0);
    BitsZero(0);
    BitsWhole(Count(c));
    assert 1 in Range(Count(c));
  }

  lemma PartHasIndexAndCount(c: Bytes)
    requires Sendable(c) && 0 < Count(c)
    ensures var part := S.Part(c, 0, 0);
            part.SubPacket? && part.index == 0 && part.n == Count(c)
  {
  }

  // The receiver asks again, and then the second copy of the signal arrives.
  function AsksAndRestarts(c: Bytes): seq<Step>
    requires Sendable(c)
  {
    [ReceiveTimer(true), ReceiverHears(Pack(Announcement(c)), true)]
  }

  lemma SecondSignal(w: World, c: Bytes)
    requires Sendable(c) && Waiting(w, c) && w.rx.mask == With(0, 0)
    ensures var next := Exec(w, AsksAndRestarts(c));
            && next.Valid() && !next.crashed && next.rxSlots.queue == [SignalEvent]
                  && next.rxSlots.signal == Announcement(c)
            && next.txSlots.queue == [] && Pack(SecondRequest(c)) in next.toSender && next.tx == w.tx
  {
    hide Pack, Events, Bits, Missing, With;
    var steps := AsksAndRestarts(c);
    DatagramsOfOne(SecondRequest(c));
    var w1 := Apply(w, steps[0]);
    HearReply(w1, Announcement(c));
    ExecStep(w, steps);
    ExecStep(w1, steps[1..]);
  }

  // The second session's own request is served while the send loop is busy, and then the old one arrives.
  function OldOneArrives(c: Bytes): seq<Step>
    requires Sendable(c)
  {
    [SenderHears(Pack(FirstRequest(c)), true), SenderEvent(true), SenderHears(Pack(SecondRequest(c)), true)]
  }

  lemma RequestsDiffer(c: Bytes)
    requires Sendable(c)
    ensures Pack(FirstRequest(c)) != Pack(SecondRequest(c))
  {
    hide Pack, Bits, Missing, With, Whole;
    CountBounds(c);
    EventsOfPack(FirstRequest(c));
    EventsOfPack(SecondRequest(c));
    SecondAsksForLess(c);
  }

  // The first sub-packet is in the whole mask, and the old request does not ask for it.
  lemma SecondAsksForLess(c: Bytes)
    requires Sendable(c)
    ensures 0 in Bits(FirstRequest(c).mask) && 0 !in Bits(SecondRequest(c).mask)
  {
    hide Bits, Missing, With, Whole;
    CountBounds(c);
    BitsZero(0);
    BitsWith(0, 0);
    BitsMissing(With(0, 0), Count(c));
    BitsWhole(Count(c));
  }

  lemma SecondSession(w: World, c: Bytes)
    requires Sendable(c) && w.Valid() && !w.crashed && w.rxSlots.queue == [SignalEvent]
    requires w.rxSlots.signal == Announcement(c)
    requires w.txSlots.queue == [] && Pack(SecondRequest(c)) in w.toSender && w.tx.sending
    ensures var first := Apply(w, ReceiverEvent(false, false, true));
            && !first.crashed && first.rx.mask == 0 && first.rx.num == Count(c) && first.tx == w.tx
            && first.txSlots.queue == [] && first.rxSlots.queue == []
            && Pack(FirstRequest(c)) in first.toSender && Pack(SecondRequest(c)) in first.toSender
  {
    hide Pack, Events, Bits, Missing, With, Whole;
    DatagramsOfOne(FirstRequest(c));
  }

  lemma OldOneIsHeard(first: World, c: Bytes)
    requires Sendable(c) && first.Valid() && !first.crashed && first.tx.sending && first.txSlots.queue == []
    requires Pack(FirstRequest(c)) in first.toSender && Pack(SecondRequest(c)) in first.toSender
    ensures var now := Exec(first, OldOneArrives(c));
            && now.rx == first.rx && now.tx.sending && now.tx.mask == FirstRequest(c).mask
            && now.txSlots.queue == [RequestEvent] && now.txSlots.request == SecondRequest(c)
  {
    hide Pack, Events, Bits, Missing, With, Whole, FirstRequest, SecondRequest;
    var steps := OldOneArrives(c);
    RequestsDiffer(c);
    HearRequest(first, FirstRequest(c));
    var heard := Apply(first, steps[0]);
    assert heard.txSlots.queue == [RequestEvent];
    BusyReply(heard.tx, FirstRequest(c));
    var served := Apply(heard, steps[1]);
    assert served.txSlots.queue == [] && served.tx.mask == FirstRequest(c).mask;
    HearRequest(served, SecondRequest(c));
    ExecThree(first, steps);
  }

  lemma BusyReply(tx: S.Tx, r: Message)
    requires tx.Valid() && tx.sending && r.Request?
    ensures S.Reply(tx, r, true) == S.Outcome(tx.(id := r.id, mask := r.mask, period := r.period), [])
  {
  }

  function UpToSecondSignal(c: Bytes): seq<Step>
    requires Sendable(c)
  {
    Announced(c) + (OneArrives(c) + AsksAndRestarts(c))
  }

  lemma SecondSignalWaits(c: Bytes)
    requires Sendable(c) && Count(c) >= 2
    ensures var w := Exec(INITIAL, UpToSecondSignal(c));
            && !w.crashed && w.rxSlots.queue == [SignalEvent] && w.rxSlots.signal == Announcement(c)
            && w.txSlots.queue == [] && Pack(SecondRequest(c)) in w.toSender && w.tx.sending
  {
    hide Apply, Exec, Pack, Waiting, With, SecondRequest, Announcement, FirstRequest;
    FirstSession(c);
    var w := Exec(INITIAL, Announced(c));
    FirstArrives(w, c);
    var next := Exec(w, OneArrives(c));
    SecondSignal(next, c);
    ExecAppend(INITIAL, Announced(c), OneArrives(c) + AsksAndRestarts(c));
    ExecAppend(w, OneArrives(c), AsksAndRestarts(c));
  }

  /** For every content of two sub-packets or more there is a run in which a request left over from before
      the session is served in the middle of the session's transfer, and takes a sub-packet out of the send
      set that was in it and that the receiver still lacks. */
  lemma StaleRequestDropsLacking(c: Bytes, ok: bool) returns (steps: seq<Step>, start: Step, more: seq<Step>)
    requires Sendable(c) && Count(c) >= 2
    ensures Registers(steps, c) && AllSmooth(steps) && Smooth(start) && AllSmooth(more)
    ensures var w := Exec(INITIAL, steps);
            && SessionStarts(w, start, c) && Serves(w, start, more, c)
            && var now := Exec(Apply(w, start), more);
               now.tx.sending && now.txSlots.Head() in LeftOver(w) && DropsLacking(now, ok)
  {
    hide Apply, Exec, Pack, Inv, DropsLacking, LeftOver, UpToSecondSignal, SecondRequest, Announcement, SessionStarts;
    steps := UpToSecondSignal(c);
    start := ReceiverEvent(false, false, true);
    more := OldOneArrives(c);
    SecondSignalWaits(c);
    FirstContentOnly(c);
    InitialInv(c);
    RunKeeps(INITIAL, steps, c);
    OldOneDrops(Exec(INITIAL, steps), c, ok);
  }

  lemma OldOneDrops(w: World, c: Bytes, ok: bool)
    requires Sendable(c) && w.Valid() && Inv(w, c) && !w.crashed
    requires w.rxSlots.queue == [SignalEvent] && w.rxSlots.signal == Announcement(c)
    requires w.txSlots.queue == [] && Pack(SecondRequest(c)) in w.toSender && w.tx.sending
    ensures var start := ReceiverEvent(false, false, true);
            && SessionStarts(w, start, c) && Serves(w, start, OldOneArrives(c), c) && AllSmooth(OldOneArrives(c))
            && var now := Exec(Apply(w, start), OldOneArrives(c));
               now.tx.sending && now.txSlots.Head() in LeftOver(w) && DropsLacking(now, ok)
  {
    hide Apply, Exec, Pack, Inv, DropsLacking, FirstRequest, SecondRequest, Announcement, LeftOver, Lacking, Bits;
    var start := ReceiverEvent(false, false, true);
    SecondSession(w, c);
    var first := Apply(w, start);
    OldOneIsHeard(first, c);
    var now := Exec(first, OldOneArrives(c));
    StepKeeps(w, start, c);
    RunKeeps(first, OldOneArrives(c), c);
    NoReceiverEvents(first, OldOneArrives(c));
    SecondIsLeftOver(w, c);
    FirstIsLacking(now, c);
    SecondAsksForLess(c);
    DropsUnlessAsked(now, c, ok, 0);
  }

  lemma FirstContentOnly(c: Bytes)
    requires Sendable(c)
    ensures Registers(UpToSecondSignal(c), c) && AllSmooth(UpToSecondSignal(c))
  {
    hide Pack;
  }

  lemma {:induction false} NoReceiverEvents(w: World, steps: seq<Step>)
    requires w.Valid() && forall k | 0 <= k < |steps| :: !steps[k].ReceiverEvent?
    ensures AllSameSession(w, steps)
    decreases |steps|
  {
    hide Apply;
    if steps != [] {
      NoReceiverEvents(Apply(w, steps[0]), steps[1..]);
    }
  }

  lemma FirstIsLacking(w: World, c: Bytes)
    requires Sendable(c) && w.rx.mask == 0 && w.rx.num == Count(c)
    ensures 0 in Lacking(w.rx)
  {
    hide Bits;
    CountBounds(c);
    BitsZero(0);
  }

  lemma SecondIsLeftOver(w: World, c: Bytes)
    requires Sendable(c) && Pack(SecondRequest(c)) in w.toSender && w.rxSlots.signal == Announcement(c)
    ensures SecondRequest(c) in LeftOver(w)
  {
    hide Pack, Events, Bits, SecondRequest;
    CountBounds(c);
    EventsOfPack(SecondRequest(c));
    SecondAsksForLess(c);
    assert Events(Pack(SecondRequest(c)))[0] in Pending(w);
    assert 0 in Range(Count(c));
  }

  // -------------------------------------------------------------------------
  // A left-over request for another packet id
  // -------------------------------------------------------------------------

  // The request for the whole packet under an id.
  function WholeRequest(c: Bytes, id: uint16): (m: Message)
    requires Sendable(c)
    ensures m.Request?
  {
    CountBounds(c);
    Request(id, Whole(Count(c)), R.REQUEST_PERIOD)
  }

  // The packet is registered again, under id 1, and its signal arrives.
  function Again(c: Bytes): seq<Step>
    requires Sendable(c)
  {
    CountBounds(c);
    [Notify(c, true), ReceiverHears(Pack(Signal(1, Count(c))), true)]
  }

  // The old request is in flight, and the new signal waits.
  ghost predicate SecondIdWaits(w: World, c: Bytes)
    requires Sendable(c)
  {
    && Inv(w, c) && w.Valid() && !w.crashed && w.txSlots.Valid() && w.rxSlots.Valid()
    && w.rxSlots.queue == [SignalEvent] && w.rxSlots.signal == Signal(1, Count(c))
    && w.txSlots.queue == [] && !w.tx.sending && w.tx.payload == c && Pack(WholeRequest(c, 0)) in w.toSender
  }

  lemma FirstRequestIsOut(c: Bytes)
    requires Sendable(c)
    ensures var w := Exec(INITIAL, Signalled(c));
            && Pack(WholeRequest(c, 0)) in w.toSender && w.txSlots == EMPTY && !w.tx.sending
  {
    hide Pack, Events, Bits, Inv, Whole;
    var steps := Signalled(c);
    SignalIsHeard(c);
    DatagramsOfOne(WholeRequest(c, 0));
    ExecThree(INITIAL, steps);
    CountBounds(c);
    StepFrame(INITIAL, steps[0]);
    StepFrame(Apply(INITIAL, steps[0]), steps[1]);
  }

  lemma SecondIdIsAnnounced(c: Bytes)
    requires Sendable(c)
    ensures SecondIdWaits(Exec(INITIAL, Signalled(c) + Again(c)), c)
  {
    hide Pack, Events, Bits, Running, Whole, Undisturbed;
    SessionIsSetUp(c);
    FirstRequestIsOut(c);
    var w := Exec(INITIAL, Signalled(c));
    var steps := Again(c);
    RegisteredIdIsNew(w, c, true);
    var m := Signal(1, Count(c));
    CountBounds(c);
    DatagramsOfOne(m);
    var named := Apply(w, steps[0]);
    SenderHas(named, c);
    HearReply(named, m);
    ExecTwo(w, steps);
    ExecAppend(INITIAL, Signalled(c), steps);
    InitialInv(c);
    RunKeeps(INITIAL, Signalled(c) + Again(c), c);
  }

  // The new request is served, then the old one in the middle of the transfer.
  function BothAreServed(c: Bytes): seq<Step>
    requires Sendable(c)
  {
    [SenderHears(Pack(WholeRequest(c, 1)), true), SenderEvent(true), SenderHears(Pack(WholeRequest(c, 0)), true)]
  }

  lemma WholeRequestsDiffer(c: Bytes)
    requires Sendable(c)
    ensures Pack(WholeRequest(c, 0)) != Pack(WholeRequest(c, 1))
  {
    hide Pack, Whole;
    EventsOfPack(WholeRequest(c, 0));
    EventsOfPack(WholeRequest(c, 1));
  }

  lemma WholeIsNotZero(c: Bytes)
    requires Sendable(c)
    ensures WholeRequest(c, 0).mask != 0 && WholeRequest(c, 1).mask == WholeRequest(c, 0).mask
    ensures Bits(WholeRequest(c, 0).mask) == Range(Count(c))
  {
    hide Bits, Whole;
    CountBounds(c);
    BitsWhole(Count(c));
    BitsZero(Whole(Count(c)));
    assert 0 in Range(Count(c));
  }

  // An idle sender that serves the whole packet waits for its timer afterwards.
  lemma IdleStarts(tx: S.Tx, r: Message)
    requires tx.Valid() && !tx.sending && r.Request? && r.mask != 0
    ensures var t := S.Reply(tx, r, true).tx;
            t.sending && t.suspended && t.status == 0 && t.payload == tx.payload
  {
    hide S.NextMessage, Without;
  }

  lemma SecondIdStarts(w: World, c: Bytes)
    requires Sendable(c) && SecondIdWaits(w, c)
    ensures var first := Apply(w, ReceiverEvent(false, false, true));
            && SessionStarts(w, ReceiverEvent(false, false, true), c)
            && first.txSlots.queue == [] && !first.tx.sending && first.rxSlots.queue == []
            && first.rx.id == 1 && first.rx.alive && !first.rx.done && first.rx.left == R.RE_REQUESTS
            && Pack(WholeRequest(c, 0)) in first.toSender && Pack(WholeRequest(c, 1)) in first.toSender
            && Running(first, c) && !first.crashed
  {
    hide Pack, Events, Bits, Running, Whole, Inv;
    var start := ReceiverEvent(false, false, true);
    SessionStartsRunning(w, start, c);
    StartKeepsSender(w, start, c);
    SetUp(w, c, false, false, true);
    StepCases(w, start);
    DatagramsOfOne(WholeRequest(c, 1));
  }

  // The new request sets the loop to work.
  lemma NewIdIsServed(first: World, c: Bytes)
    requires Sendable(c) && first.Valid() && Running(first, c) && !first.crashed
    requires first.txSlots.queue == [] && !first.tx.sending
    requires Pack(WholeRequest(c, 0)) in first.toSender && Pack(WholeRequest(c, 1)) in first.toSender
    ensures var once := Apply(Apply(first, SenderHears(Pack(WholeRequest(c, 1)), true)), SenderEvent(true));
            && once.rx == first.rx && once.rxSlots == first.rxSlots && once.txSlots.queue == []
            && once.tx.sending && once.tx.suspended && once.tx.status == 0
            && Pack(WholeRequest(c, 0)) in once.toSender && Running(once, c) && !once.crashed
  {
    hide Pack, Events, Bits, Running, WholeRequest, S.Reply;
    WholeRequestsDiffer(c);
    WholeIsNotZero(c);
    SenderSlots(first, c);
    HearRequest(first, WholeRequest(c, 1));
    var s := SenderHears(Pack(WholeRequest(c, 1)), true);
    RunningStays(first, s, c);
    var heard := Apply(first, s);
    IdleStarts(heard.tx, WholeRequest(c, 1));
    RunningStays(heard, SenderEvent(true), c);
  }

  // The old one is served while it is at work.
  lemma OldIdIsHeard(once: World, c: Bytes)
    requires Sendable(c) && once.Valid() && Running(once, c) && !once.crashed && once.txSlots.queue == []
    requires once.tx.sending && once.tx.suspended && once.tx.status == 0 && Pack(WholeRequest(c, 0)) in once.toSender
    ensures var now := Apply(once, SenderHears(Pack(WholeRequest(c, 0)), true));
            var served := Apply(now, SenderEvent(true));
            && now.rx == once.rx && now.rxSlots == once.rxSlots && now.tx.sending
            && now.txSlots.queue == [RequestEvent] && now.txSlots.request == WholeRequest(c, 0)
            && served.rx == once.rx && served.rxSlots == once.rxSlots && AtWork(served.tx) && served.tx.id == 0
            && Running(served, c) && !served.crashed
  {
    hide Pack, Events, Bits, Running, WholeRequest, S.Reply;
    WholeIsNotZero(c);
    OldIdMask(c);
    SenderSlots(once, c);
    var s := SenderHears(Pack(WholeRequest(c, 0)), true);
    HearRequest(once, WholeRequest(c, 0));
    RunningStays(once, s, c);
    var now := Apply(once, s);
    BusyReply(now.tx, WholeRequest(c, 0));
    RunningStays(now, SenderEvent(true), c);
  }

  lemma OldIdIsServed(first: World, c: Bytes)
    requires Sendable(c) && first.Valid() && Running(first, c) && !first.crashed
    requires first.txSlots.queue == [] && !first.tx.sending
    requires Pack(WholeRequest(c, 0)) in first.toSender && Pack(WholeRequest(c, 1)) in first.toSender
    ensures var now := Exec(first, BothAreServed(c));
            var served := Apply(now, SenderEvent(true));
            && now.rx == first.rx && now.rxSlots == first.rxSlots && now.tx.sending
            && now.txSlots.queue == [RequestEvent] && now.txSlots.request == WholeRequest(c, 0)
            && served.rx == first.rx && served.rxSlots == first.rxSlots && AtWork(served.tx) && served.tx.id == 0
            && Running(served, c) && !served.crashed
  {
    hide Pack, Running, WholeRequest, Apply, Exec;
    var steps := BothAreServed(c);
    NewIdIsServed(first, c);
    OldIdIsHeard(Apply(Apply(first, steps[0]), steps[1]), c);
    ExecThree(first, steps);
  }

  lemma OldIdMask(c: Bytes)
    requires Sendable(c)
    ensures WholeRequest(c, 0).id == 0 && WholeRequest(c, 1).id == 1
  {
  }

  lemma SenderSlots(w: World, c: Bytes)
    requires Running(w, c)
    ensures w.txSlots.Valid()
  {
    hide Events, Bits, R.Session, R.CarriesSlice;
  }

  // Serving the request at the head, in the middle of a transfer, leads to the end of the live session with
  // all its re-requests unused, although the request asks for the whole packet.
  ghost predicate EndedByServing(now: World, last: seq<Step>, c: Bytes)
    requires now.Valid() && now.txSlots.queue != []
  {
    && now.tx.sending && now.rx.alive
    && now.txSlots.Head().Request? && Bits(now.txSlots.Head().mask) == Range(Count(c))
    && var end := Exec(Apply(now, SenderEvent(true)), last);
       CutShort(end.rx) && end.rx.left == R.RE_REQUESTS
  }

  /** For every content there is a run, with nothing lost and nothing failing, in which a request left over
      from a session for an earlier packet id, although it asks for the whole packet, is served in the middle
      of the next session's transfer: the loop goes on under the old id, and the receiver abandons the live
      session with all its re-requests unused. */
  lemma StaleRequestCutsShort(c: Bytes) returns (steps: seq<Step>, start: Step, more: seq<Step>, last: seq<Step>)
    requires Sendable(c)
    ensures Registers(steps, c) && AllSmooth(steps) && Smooth(start) && AllSmooth(more) && AllSmooth(last)
    ensures var w := Exec(INITIAL, steps);
            && SessionStarts(w, start, c) && Serves(w, start, more, c)
            && var now := Exec(Apply(w, start), more);
               now.txSlots.Head() in LeftOver(w) && EndedByServing(now, last, c)
  {
    hide Apply, Exec, Pack, Inv, Signalled, Again, WholeRequest, SecondIdWaits, LeftOver, EndedByServing;
    hide SessionStarts;
    steps := Signalled(c) + Again(c);
    start := ReceiverEvent(false, false, true);
    more := BothAreServed(c);
    OldStepsAreSmooth(c);
    SecondIdIsAnnounced(c);
    last := OldIdEndsSession(Exec(INITIAL, steps), c);
  }

  lemma OldIdEndsSession(w: World, c: Bytes) returns (last: seq<Step>)
    requires Sendable(c) && SecondIdWaits(w, c) && w.Valid()
    ensures AllSmooth(BothAreServed(c)) && AllSmooth(last)
    ensures var start := ReceiverEvent(false, false, true);
            && SessionStarts(w, start, c) && Serves(w, start, BothAreServed(c), c)
            && var now := Exec(Apply(w, start), BothAreServed(c));
               now.txSlots.Head() in LeftOver(w) && EndedByServing(now, last, c)
  {
    hide Apply, Exec, Pack, Inv, Running, WholeRequest, SecondIdWaits, CutShort, LeftOver, Bits, SessionStarts, Range;
    SecondIdStarts(w, c);
    var first := Apply(w, ReceiverEvent(false, false, true));
    OldIdIsServed(first, c);
    WholeIsNotZero(c);
    OldIdMask(c);
    NoReceiverEvents(first, BothAreServed(c));
    OldIdIsLeftOver(w, c);
    last := OldIdCutsShort(Apply(Exec(first, BothAreServed(c)), SenderEvent(true)), c);
  }

  lemma OldIdCutsShort(w: World, c: Bytes) returns (last: seq<Step>)
    requires Running(w, c) && !w.crashed && w.Valid() && AtWork(w.tx) && w.tx.id != w.rx.id
    requires w.rxSlots.queue == [] && w.rx.alive && !w.rx.done && w.rx.left > 0
    ensures AllSmooth(last)
    ensures var end := Exec(w, last);
            CutShort(end.rx) && end.rx.left == w.rx.left
  {
    hide Running, Apply, Exec, Pack, S.Part;
    SenderHas(w, c);
    var i := SendsUnderNewId(w, c);
    var m := S.Part(c, w.tx.id, i);
    last := NextArrives(m);
    ForeignCutsShort(Apply(w, SendTimer(true)), m);
    ExecThree(w, last);
  }

  lemma OldStepsAreSmooth(c: Bytes)
    requires Sendable(c)
    ensures Registers(Signalled(c) + Again(c), c) && AllSmooth(Signalled(c) + Again(c))
  {
    hide Pack;
  }

  lemma OldIdIsLeftOver(w: World, c: Bytes)
    requires Sendable(c) && SecondIdWaits(w, c)
    ensures WholeRequest(c, 0) in LeftOver(w)
  {
    hide Pack, Events, Bits, WholeRequest;
    EventsOfPack(WholeRequest(c, 0));
    OldIdMask(c);
    assert Events(Pack(WholeRequest(c, 0)))[0] in Pending(w);
  }
}
