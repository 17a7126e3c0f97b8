/** Whole sessions: from the signal that starts one, through any losses, to the last byte. */
module Completion {
  import opened Types
  import opened Messages
  import opened Fragments
  import opened Masks
  import opened Slots
  import opened Network
  import opened Safety
  import opened Overwrite
  import opened Recovery
  import S = Sender
  import R = Receiver

  // -------------------------------------------------------------------------
  // A session that no other packet disturbs
  // -------------------------------------------------------------------------

  // Nothing of another packet is under way, every request on its way covers what is lacking, and the
  // session has ended only by posting or by running out of re-requests.
  ghost predicate Undisturbed(w: World, id: uint16, posts: nat) {
    && w.rx.id == id && Accounted(w.rx, posts)
    && (AtWork(w.tx) ==> w.tx.id == id)
    && RepliesFor(w, id) && RequestsCover(w, {})
  }

  ghost predicate Accounted(rx: R.Rx, posts: nat) {
    rx.posted == posts + (if rx.done then 1 else 0) && (rx.alive || rx.done || rx.left == 0)
  }

  // Anything may happen but the arrival of a signal and a registration that changes the id under which the
  // send loop is at work.
  ghost predicate Undisturbing(w: World, s: Step, c: Bytes) {
    && (s.Notify? ==> s.content == c && KeepsId(w))
    && (s.ReceiverHears? && s.room ==> forall m <- Events(s.d) :: m.SubPacket?)
  }

  ghost predicate AllUndisturbing(w: World, steps: seq<Step>, c: Bytes)
    requires w.Valid()
    decreases |steps|
  {
    steps == [] || (Undisturbing(w, steps[0], c) && AllUndisturbing(Apply(w, steps[0]), steps[1..], c))
  }

  // A signal waits at the head of the queue. What is left over from before belongs to the same packet id,
  // and no request that is left over asks for less than the whole packet.
  ghost predicate Starting(w: World) {
    var m := w.rxSlots.signal;
    && w.rxSlots.queue != [] && w.rxSlots.Head().Signal? && m.Signal?
    && (AtWork(w.tx) ==> w.tx.id == m.id)
    && (forall d :: d in w.toReceiver && |Events(d)| == 1 && Events(d)[0].SubPacket? ==> Events(d)[0].id == m.id)
    && (forall k :: k in w.rxSlots.queue[1..] ==> k == SubPacketEvent && w.rxSlots.sub.id == m.id)
    && LeftOver(w) == {}
  }

  // The requests on their way, when a session has just been set up.
  lemma RequestsAtStart(w: World, c: Bytes, expired: bool, fault: bool, ok: bool)
    requires Running(w, c) && !w.crashed && w.Valid() && w.rxSlots.queue != [] && w.rxSlots.Head().Signal?
    ensures RequestsCover(ReceiverEventStep(w, expired, fault, ok), {}) <==> LeftOver(w) == {}
  {
    hide Events, Bits, Carry, R.OnSignal, ReceiverEventStep, Covers, AsksForAll, GoodSender, GoodReceiver;
    hide RepliesQueued, RepliesInFlight, RequestsInFlight;
    SetUp(w, c, expired, fault, ok);
    SessionStartCovers(w, c, expired, fault, ok);
    var next := ReceiverEventStep(w, expired, fault, ok);
    forall r ensures Covers(r, next.rx) <==> AsksForAll(r, w.rxSlots.signal) {
      CoversIsAsksForAll(r, w.rxSlots.signal, next.rx);
    }
    CarryKeeps(w.toSender, R.OnSignal(w.rx, w.rxSlots.signal, ok).out);
    if RequestsCover(next, {}) {
      forall m | m in Pending(w) ensures AsksForAll(m, w.rxSlots.signal) {
        if !(RequestEvent in w.txSlots.queue && m == w.txSlots.request) {
          var d, k :| d in w.toSender && 0 <= k < |Events(d)| && Events(d)[k] == m;
          assert d in next.toSender;
        }
      }
    }
  }

  // A signal starts an undisturbed session exactly when nothing of another packet id is left over, and no
  // request that asks for less than the whole packet.
  lemma StartUndisturbedIff(w: World, c: Bytes, expired: bool, fault: bool, ok: bool)
    requires Running(w, c) && !w.crashed && w.Valid() && w.rxSlots.queue != [] && w.rxSlots.Head().Signal?
    ensures var next := ReceiverEventStep(w, expired, fault, ok);
            && (Undisturbed(next, w.rxSlots.signal.id, w.rx.posted) <==> Starting(w))
            && next.rx.alive && next.rx.left == R.RE_REQUESTS
  {
    hide Events, Bits, Carry, R.OnSignal, ReceiverEventStep, RequestsCover, LeftOver, GoodSender, GoodReceiver;
    hide RepliesQueued, RequestsQueued, RepliesInFlight, RequestsInFlight;
    SetUp(w, c, expired, fault, ok);
    RequestsAtStart(w, c, expired, fault, ok);
  }

  // The receive process, while only its own sub-packets reach it.
  lemma ReceiverUndisturbed(w: World, s: Step, c: Bytes, id: uint16, posts: nat)
    requires w.Valid() && Sendable(c) && GoodReceiver(w.rx, c) && RepliesQueued(w.rxSlots, c) && RepliesFor(w, id)
    requires w.rx.id == id && Accounted(w.rx, posts)
    ensures Apply(w, s).rx.id == id && Accounted(Apply(w, s).rx, posts)
  {
    hide Events, Bits, Carry, Overflows, S.Timer, S.Reply, Missing, R.Store, R.CarriesSlice, InPlace, RepliesFor;
    hide SenderEventStep;
    RepliesForParts(w, id);
    if s.ReceiverEvent? && w.rxSlots.queue != [] {
      assert w.rxSlots.queue[0] in w.rxSlots.queue;
      if !s.expired && R.StoresSafely(w.rx, w.rxSlots.sub, s.fault) && R.Fits(w.rxSlots.sub) {
        R.StoreOutcome(w.rx, w.rxSlots.sub);
      }
    }
  }

  // The send loop works for the session only.
  lemma LoopTestFor(tx: S.Tx, ok: bool, id: uint16)
    requires tx.Valid() && S.InRange(tx) && (tx.mask != 0 && tx.status >= 0 ==> tx.id == id)
    ensures var o := S.LoopTest(tx, ok);
            (AtWork(o.tx) ==> o.tx.id == id) && AllFor(o.out, id)
  {
    hide Bits, Without, S.LoopTest, S.Ascending, S.InRange, Fragment;
    var i := S.LoopTestCases(tx, ok);
  }

  lemma TimerFor(tx: S.Tx, ok: bool, id: uint16)
    requires tx.Valid() && S.InRange(tx) && (AtWork(tx) ==> tx.id == id)
    ensures var o := S.Timer(tx, ok);
            (AtWork(o.tx) ==> o.tx.id == id) && AllFor(o.out, id)
  {
    hide S.LoopTest, S.InRange;
    if tx.suspended { LoopTestFor(tx, ok, id); }
  }

  lemma ReplyFor(tx: S.Tx, r: Message, ok: bool)
    requires tx.Valid() && r.Request? && Bits(r.mask) <= Range(tx.num)
    ensures var o := S.Reply(tx, r, ok);
            (AtWork(o.tx) ==> o.tx.id == r.id) && AllFor(o.out, r.id)
  {
    hide Bits, Range, S.LoopTest;
    var asked := tx.(id := r.id, mask := r.mask, period := r.period);
    LoopTestFor(asked.(suspended := false, sending := true, status := 0), ok, r.id);
  }

  ghost predicate SendsFor(w: World, id: uint16) {
    (AtWork(w.tx) ==> w.tx.id == id) && RepliesFor(w, id)
  }

  lemma SenderEventFor(w: World, c: Bytes, ok: bool, id: uint16)
    requires w.Valid() && GoodSender(w.tx, c) && w.rx.id == id && HeadIsGood(w, c) && SendsFor(w, id)
    ensures SendsFor(SenderEventStep(w, ok), id)
  {
    hide Events, Bits, Carry, S.Reply, Lacking, RepliesFor;
    if w.txSlots.queue != [] {
      var r := w.txSlots.Head();
      ReplyFor(w.tx, r, ok);
      FrameFor(w, TakeRequest(w), id);
      TransmitFor(TakeRequest(w), S.Reply(w.tx, r, ok), id);
    }
  }

  lemma NotifySendsFor(w: World, content: Bytes, ok: bool, id: uint16)
    requires w.Valid() && w.rx.id == id && SendsFor(w, id) && KeepsId(w)
    ensures SendsFor(NotifyStep(w, content, ok), id)
  {
    hide RepliesFor, Carry;
    NotifyFor(w, content, ok, id);
  }

  lemma StepSendsFor(w: World, s: Step, c: Bytes, id: uint16)
    requires w.Valid() && GoodSender(w.tx, c) && w.rx.id == id && HeadIsGood(w, c) && SendsFor(w, id)
    requires Undisturbing(w, s, c)
    ensures SendsFor(Apply(w, s), id)
  {
    hide Apply, Events, Carry, Overflows, S.Timer, ReceiverEventStep, SenderEventStep, RepliesFor, HeadIsGood, Bits;
    StepFrame(w, s);
    StepCases(w, s);
    if !w.crashed {
      if s.SendTimer? {
        TimerFor(w.tx, s.ok, id);
        TransmitFor(w, S.Timer(w.tx, s.ok), id);
      } else if s.SenderEvent? {
        SenderEventFor(w, c, s.ok, id);
      } else if s.ReceiverEvent? {
        ReceiverEventFor(w, s.expired, s.fault, s.ok, id);
      } else if s.ReceiverHears? {
        HearsFor(w, s.d, s.room, id);
      } else if s.Notify? {
        NotifySendsFor(w, s.content, s.ok, id);
      } else {
        FrameFor(w, Apply(w, s), id);
      }
    }
  }

  // The state of a session under way.
  ghost predicate InSession(w: World, c: Bytes, id: uint16, posts: nat) {
    Running(w, c) && !w.crashed && w.Valid() && Undisturbed(w, id, posts)
  }

  lemma StepInSession(w: World, s: Step, c: Bytes, id: uint16, posts: nat)
    requires InSession(w, c, id, posts) && Undisturbing(w, s, c)
    ensures InSession(Apply(w, s), c, id, posts)
  {
    hide Apply, RepliesFor, RequestsCover, HeadIsGood, Events;
    hide GoodSender, GoodReceiver, RepliesQueued, RequestsQueued, RepliesInFlight, RequestsInFlight;
    RepliesForParts(w, id);
    ReceiverIsValid(w, c);
    HeadsAreGood(w, c);
    RunningStays(w, s, c);
    CoverStays(w, s);
    ReceiverUndisturbed(w, s, c, id, posts);
    StepSendsFor(w, s, c, id);
  }

  lemma {:induction false} RunInSession(w: World, steps: seq<Step>, c: Bytes, id: uint16, posts: nat)
    requires InSession(w, c, id, posts) && w.Valid() && AllUndisturbing(w, steps, c)
    ensures InSession(Exec(w, steps), c, id, posts)
    decreases |steps|
  {
    hide InSession, Apply, Undisturbing;
    if steps != [] {
      StepInSession(w, steps[0], c, id, posts);
      RunInSession(Apply(w, steps[0]), steps[1..], c, id, posts);
    }
  }

  // -------------------------------------------------------------------------
  // Progress
  // -------------------------------------------------------------------------

  // The step takes only a datagram that is in flight.
  predicate Present(w: World, s: Step) {
    match s
    case SenderHears(d, _) => d in w.toSender
    case ReceiverHears(d, _) => d in w.toReceiver
    case LoseRequest(d) => d in w.toSender
    case LoseReply(d) => d in w.toReceiver
    case DuplicateRequest(d) => d in w.toSender
    case DuplicateReply(d) => d in w.toReceiver
    case _ => true
  }

  predicate AllPresent(w: World, steps: seq<Step>)
    requires w.Valid()
    decreases |steps|
  {
    steps == [] || (Present(w, steps[0]) && AllPresent(Apply(w, steps[0]), steps[1..]))
  }

  // What is left to do: send, hear and store each sub-packet.
  ghost function Work(w: World): nat {
    3 * |Bits(w.tx.mask)| + 2 * |w.toReceiver| + |w.rxSlots.queue|
  }

  lemma TimerWorks(w: World, c: Bytes, id: uint16)
    requires w.Valid() && Sendable(c) && GoodSender(w.tx, c) && Ready(w.tx, id) && w.tx.mask != 0 && !w.crashed
    ensures Work(Apply(w, SendTimer(true))) < Work(w)
  {
    hide Events, Bits, Without, S.LoopTest, S.Ascending, S.Part, R.Carries, Carry;
    var o := S.Timer(w.tx, true);
    TimerKeeps(w.tx, c, true);
    S.TimerIsLoopTest(w.tx, true);
    var i := S.LoopTestCases(w.tx, true);
    CarrySize(w.toReceiver, o.out);
  }

  lemma HearingWorks(w: World, d: Bytes, c: Bytes)
    requires w.Valid() && Sendable(c) && RepliesQueued(w.rxSlots, c) && !w.crashed
    requires d in w.toReceiver && |Events(d)| == 1 && GoodReply(Events(d)[0], c)
    ensures Work(Apply(w, ReceiverHears(d, true))) < Work(w)
  {
    hide Events, Bits, Overflows, GoodReply;
    QueueReply(w.rxSlots, d, true, c);
    ArriveIsOnePut(w.rxSlots, d, true);
    assert |w.toReceiver - multiset{d}| == |w.toReceiver| - 1;
  }

  lemma StoringWorks(w: World)
    requires w.Valid() && !w.crashed && w.rxSlots.queue != []
    ensures Work(Apply(w, ReceiverEvent(false, false, true))) < Work(w)
  {
    hide ReceiverEventStep, Bits;
    PopStays(w, false, false, true);
  }

  // Until everything has arrived, some lossless step makes progress.
  lemma NextStep(w: World, c: Bytes, id: uint16, posts: nat) returns (s: Step)
    requires Transfer(w, c, id, posts) && !Quiet(w)
    ensures Lossless(w, s, c) && Work(Apply(w, s)) < Work(w)
    ensures Present(w, s)
  {
    hide Apply, Bits, Events, Work, GoodReply, R.Session, Ready, RequestsCover, RepliesFor, AllOnTheirWay;
    if w.tx.mask != 0 {
      s := SendTimer(true);
      TimerWorks(w, c, id);
    } else if w.rxSlots.queue != [] {
      s := ReceiverEvent(false, false, true);
      StoringWorks(w);
    } else {
      var d :| d in w.toReceiver && |Events(d)| == 1 && Events(d)[0].SubPacket?;
      s := ReceiverHears(d, true);
      HearingWorks(w, d, c);
    }
  }

  /** A transfer can always be completed: a bounded number of lossless steps brings everything through. */
  lemma {:induction false} TransferCompletes(w: World, c: Bytes, id: uint16, posts: nat) returns (steps: seq<Step>)
    requires Transfer(w, c, id, posts) && w.Valid()
    ensures AllLossless(w, steps, c) && |steps| <= Work(w) && Quiet(Exec(w, steps))
    ensures AllPresent(w, steps)
    decreases Work(w)
  {
    hide Transfer, Apply, Work, Lossless, Quiet, Present;
    steps := [];
    if !Quiet(w) {
      var s := NextStep(w, c, id, posts);
      LosslessKeeps(w, s, c, id, posts);
      var rest := TransferCompletes(Apply(w, s), c, id, posts);
      steps := [s] + rest;
      assert steps[1..] == rest;
    }
  }

  // -------------------------------------------------------------------------
  // The theorems
  // -------------------------------------------------------------------------

  // Some session, from its signal through any undisturbing steps.
  ghost predicate Reached(w: World, start: Step, before: seq<Step>, now: World, c: Bytes) {
    && Inv(w, c) && Starting(w) && start.ReceiverEvent? && w.Valid()
    && AllUndisturbing(Apply(w, start), before, c)
    && now == Exec(Apply(w, start), before)
  }

  lemma ReachedInSession(w: World, start: Step, before: seq<Step>, now: World, c: Bytes)
    requires Reached(w, start, before, now, c)
    ensures InSession(now, c, w.rxSlots.signal.id, w.rx.posted)
  {
    hide Running, ReceiverEventStep, Undisturbing, Undisturbed, Starting;
    StartingRuns(w, c);
    StepKeeps(w, start, c);
    StartUndisturbedIff(w, c, start.expired, start.fault, start.ok);
    RunningStays(w, start, c);
    StepCases(w, start);
    RunInSession(Apply(w, start), before, c, w.rxSlots.signal.id, w.rx.posted);
  }

  lemma StartingRuns(w: World, c: Bytes)
    requires Inv(w, c) && Starting(w)
    ensures Running(w, c) && !w.crashed && w.rxSlots.queue != [] && w.rxSlots.Head().Signal?
  {
    hide Events;
  }

  /** Recovery: whatever was lost, duplicated, delayed, reordered, dropped by a full queue or by a failed
      send since the session started, once one of its requests is served while no failed send is pending,
      and nothing is lost from there on, the session ends: as soon as everything sent has got through it
      has posted exactly once and the storage starts with the content. */
  lemma SessionRecovers(w: World, start: Step, before: seq<Step>, now: World, after: seq<Step>, c: Bytes)
    requires Reached(w, start, before, now, c)
    requires now.rx.alive && now.txSlots.queue != [] && (now.tx.suspended ==> now.tx.status >= 0)
    requires AllLossless(Apply(now, SenderEvent(true)), after, c)
    ensures var end := Exec(Apply(now, SenderEvent(true)), after);
            Quiet(end) ==> end.rx.done && end.rx.posted == w.rx.posted + 1 && Sendable(c) && end.rx.storage[..|c|] == c
  {
    hide Apply, Running, AllLossless, Quiet, RepliesFor, RequestsCover, Transfer, Reached;
    ReachedInSession(w, start, before, now, c);
    AliveIsNotDone(now, c);
    ServingStartsTransfer(now, c);
    var served := Apply(now, SenderEvent(true));
    LosslessRunKeeps(served, after, c, now.rx.id, now.rx.posted);
    if Quiet(Exec(served, after)) {
      QuietMeansDelivered(Exec(served, after), c, now.rx.id, now.rx.posted);
    }
  }

  lemma AliveIsNotDone(w: World, c: Bytes)
    requires Running(w, c) && w.rx.alive
    ensures !w.rx.done
  {
    hide Bits, InPlace, Events;
  }

  // The receive timer expires, and its request gets through to the sender process.
  function ReRequest(rx: R.Rx): seq<Step> {
    var request := Request(rx.id, Missing(rx.mask, rx.num), rx.period);
    [ReceiveTimer(true), SenderHears(Pack(request), true), SenderEvent(true)]
  }

  lemma ReRequestIsQueued(w: World, c: Bytes)
    requires Running(w, c) && !w.crashed && w.Valid() && w.rx.alive && w.rx.left > 0
    ensures var steps := ReRequest(w.rx);
            var asked := Apply(Apply(w, steps[0]), steps[1]);
            asked.txSlots.queue != [] && asked.rx == w.rx.(left := w.rx.left - 1) && asked.tx == w.tx
  {
    hide Bits, Missing, Pack, Events, GoodRequest, GoodSender, RequestsQueued, RepliesQueued, R.Session;
    var r := Request(w.rx.id, Missing(w.rx.mask, w.rx.num), w.rx.period);
    DatagramsOfOne(r);
    HearRequest(Apply(w, ReceiveTimer(true)), r);
  }

  lemma ReRequestIsPresent(w: World, c: Bytes)
    requires Running(w, c) && !w.crashed && w.Valid() && w.rx.alive && w.rx.left > 0
    ensures AllPresent(w, ReRequest(w.rx))
  {
    hide Running, Missing, Pack, Events, Overflows, SenderEventStep;
    var steps := ReRequest(w.rx);
    DatagramsOfOne(Request(w.rx.id, Missing(w.rx.mask, w.rx.num), w.rx.period));
    var timed := Apply(w, steps[0]);
    assert Present(timed, steps[1]);
    hide Apply;
    assert steps[1..][1..] == [steps[2]];
    assert AllPresent(Apply(timed, steps[1]), [steps[2]]) by { assert [steps[2]][1..] == []; }
    assert AllPresent(timed, steps[1..]);
  }

  lemma ReRequestDelivers(now: World, c: Bytes, id: uint16, posts: nat) returns (after: seq<Step>)
    requires InSession(now, c, id, posts)
    requires now.rx.alive && now.rx.left > 0 && (now.tx.suspended ==> now.tx.status >= 0)
    ensures var served := Exec(now, ReRequest(now.rx));
            var end := Exec(served, after);
            && AllLossless(served, after, c) && |after| <= Work(served) && end.rx.id == id
            && AllPresent(now, ReRequest(now.rx)) && AllPresent(served, after)
            && end.rx.done && end.rx.posted == posts + 1 && Sendable(c) && end.rx.storage[..|c|] == c
  {
    hide Apply, Running, Quiet, RepliesFor, RequestsCover, Missing, Pack, Work;
    ReRequestIsPresent(now, c);
    AliveIsNotDone(now, c);
    var steps := ReRequest(now.rx);
    ReRequestIsQueued(now, c);
    var timed := Apply(now, steps[0]);
    var asked := Apply(timed, steps[1]);
    StepInSession(now, steps[0], c, id, posts);
    StepInSession(timed, steps[1], c, id, posts);
    ServingStartsTransfer(asked, c);
    var served := Apply(asked, steps[2]);
    ExecThree(now, steps);
    after := TransferCompletes(served, c, id, posts);
    LosslessRunKeeps(served, after, c, id, posts);
    QuietMeansDelivered(Exec(served, after), c, id, posts);
    hide Transfer;
    TransferHasId(Exec(served, after), c, id, posts);
  }

  lemma TransferHasId(w: World, c: Bytes, id: uint16, posts: nat)
    requires Transfer(w, c, id, posts)
    ensures w.rx.id == id
  {
    hide Running, RepliesFor, RequestsCover, AllOnTheirWay;
  }

  /** The k-th re-request is enough, for every k up to the fourth: in every state of a session that may
      still re-request, whatever was lost before, if this re-request gets through to a sender with no failed
      send pending, then a bounded number of further steps without loss delivers the content. */
  lemma ReRequestCompletes(w: World, start: Step, before: seq<Step>, now: World, c: Bytes) returns (after: seq<Step>)
    requires Reached(w, start, before, now, c)
    requires now.rx.alive && now.rx.left > 0 && (now.tx.suspended ==> now.tx.status >= 0)
    ensures var served := Exec(now, ReRequest(now.rx));
            var end := Exec(served, after);
            && AllLossless(served, after, c) && |after| <= Work(served)
            && AllPresent(now, ReRequest(now.rx)) && AllPresent(served, after)
            && end.rx.done && end.rx.posted == w.rx.posted + 1 && Sendable(c) && end.rx.storage[..|c|] == c
  {
    hide Apply, Running, Reached, Work, Exec, ReRequest, AllLossless, Undisturbed;
    ReachedInSession(w, start, before, now, c);
    after := ReRequestDelivers(now, c, w.rxSlots.signal.id, w.rx.posted);
  }

  // -------------------------------------------------------------------------
  // From the start of the system
  // -------------------------------------------------------------------------

  // A content is registered, its signal arrives, and the receiver sets up a session.
  function Signalled(a: Bytes): seq<Step>
    requires Sendable(a)
  {
    CountBounds(a);
    [Notify(a, true), ReceiverHears(Pack(Signal(0, Count(a))), true), ReceiverEvent(false, false, true)]
  }

  lemma SignalIsHeard(a: Bytes)
    requires Sendable(a)
    ensures var steps := Signalled(a);
            var w := Apply(Apply(INITIAL, steps[0]), steps[1]);
            && Starting(w) && Inv(w, a) && w.rxSlots.queue == [SignalEvent] && w.rxSlots.signal == Signal(0, Count(a))
            && w.packetId == 1 && w.toReceiver == multiset{} && w.rx == INITIAL.rx && w.tx == S.Register(S.IDLE, a, 0)
  {
    hide Pack, Events, Bits, Inv;
    CountBounds(a);
    var m := Signal(0, Count(a));
    InitialInv(a);
    StepKeeps(INITIAL, Signalled(a)[0], a);
    StepKeeps(Apply(INITIAL, Signalled(a)[0]), Signalled(a)[1], a);
    DatagramsOfOne(m);
    var announced := Apply(INITIAL, Signalled(a)[0]);
    assert announced.toReceiver == multiset{Pack(m)};
    HearReply(announced, m);
  }

  lemma SessionIsSetUp(a: Bytes)
    requires Sendable(a)
    ensures var w := Exec(INITIAL, Signalled(a));
            && InSession(w, a, 0, 0) && w.rx.alive && w.rx.left == R.RE_REQUESTS && w.rx.mask == 0
            && w.rxSlots.queue == [] && w.toReceiver == multiset{} && !w.tx.suspended && w.tx.mask == 0
            && w.packetId == 1
  {
    hide Pack, Events, Bits, Inv, Running, Whole, Undisturbed;
    var steps := Signalled(a);
    SignalIsHeard(a);
    var w := Apply(Apply(INITIAL, steps[0]), steps[1]);
    StartingRuns(w, a);
    InvIsSafe(w, a);
    SetUp(w, a, false, false, true);
    StartUndisturbedIff(w, a, false, false, true);
    RunningStays(w, steps[2], a);
    ExecThree(INITIAL, steps);
    CountBounds(a);
  }

  lemma {:induction false} LosslessRegisters(w: World, steps: seq<Step>, c: Bytes)
    requires w.Valid() && AllLossless(w, steps, c)
    ensures Registers(steps, c)
    decreases |steps|
  {
    hide Apply;
    if steps != [] {
      LosslessRegisters(Apply(w, steps[0]), steps[1..], c);
      assert forall k | 0 < k < |steps| :: steps[k] == steps[1..][k - 1];
    }
  }

  /** Every sendable content can be delivered from the initial state, and is posted once. */
  lemma EveryContentCanBeDelivered(a: Bytes) returns (steps: seq<Step>)
    requires Sendable(a)
    ensures Registers(steps, a)
    ensures var w := Exec(INITIAL, steps);
            w.rx.done && w.rx.posted == 1 && a <= w.rx.storage
  {
    hide Apply, InSession, Pack, Missing, AllLossless, Work;
    SessionIsSetUp(a);
    var w := Exec(INITIAL, Signalled(a));
    var after := ReRequestDelivers(w, a, 0, 0);
    LosslessRegisters(Exec(w, ReRequest(w.rx)), after, a);
    steps := Signalled(a) + (ReRequest(w.rx) + after);
    ExecAppend(INITIAL, Signalled(a), ReRequest(w.rx) + after);
    ExecAppend(w, ReRequest(w.rx), after);
  }
}
