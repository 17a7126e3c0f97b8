/** Why a request may overwrite the send mask in the middle of a transfer. */
module Overwrite {
  import opened Types
  import opened Messages
  import opened Fragments
  import opened Masks
  import opened Slots
  import opened Network
  import opened Safety
  import S = Sender
  import R = Receiver

  // What the receiver has not got yet.
  ghost function Lacking(rx: R.Rx): set<nat> {
    Range(rx.num) - Bits(rx.mask)
  }

  // A request of the session that asks for everything the receiver still lacks.
  ghost predicate Covers(r: Message, rx: R.Rx) {
    r.Request? && r.id == rx.id && Lacking(rx) <= Bits(r.mask)
  }

  // Every request on its way to the sender is an old one or covers what is lacking.
  ghost predicate RequestsCover(w: World, stale: set<Message>) {
    && (forall d :: d in w.toSender ==> |Events(d)| == 1 && (Events(d)[0] in stale || Covers(Events(d)[0], w.rx)))
    && (RequestEvent in w.txSlots.queue ==> w.txSlots.request in stale || Covers(w.txSlots.request, w.rx))
    && w.txSlots.Valid()
  }

  // The step does not start another session.
  ghost predicate SameSession(w: World, s: Step) {
    s.ReceiverEvent? && w.rxSlots.queue != [] ==> !w.rxSlots.Head().Signal?
  }

  ghost predicate AllSameSession(w: World, steps: seq<Step>)
    requires w.Valid()
    decreases |steps|
  {
    steps == [] || (SameSession(w, steps[0]) && AllSameSession(Apply(w, steps[0]), steps[1..]))
  }

  // Within a session the mask only grows.
  ghost predicate Grows(before: R.Rx, after: R.Rx) {
    after.id == before.id && after.num == before.num && Lacking(after) <= Lacking(before)
  }

  lemma TimeoutCovers(rx: R.Rx, ok: bool)
    requires rx.num <= 64
    ensures var o := R.OnTimeout(rx, ok);
            Grows(rx, o.rx) && forall k | 0 <= k < |o.out| :: Covers(o.out[k], o.rx)
  {
    hide Bits, Missing, R.OnTimeout;
    R.TimeoutAsksForMissing(rx, ok);
  }

  lemma SubPacketGrows(rx: R.Rx, m: Message, fault: bool)
    requires rx.Valid() && R.StoresSafely(rx, m, fault)
    ensures Grows(rx, R.OnSubPacket(rx, m, fault))
  {
    hide Bits, With, Whole, Write;
    if rx.alive && !fault && m.id == rx.id {
      BitsWith(rx.mask, m.index);
    }
  }

  lemma CarryCovering(net: multiset<Bytes>, out: seq<Message>, d: Bytes, rx: R.Rx)
    requires AllValid(out) && (forall k | 0 <= k < |out| :: Covers(out[k], rx)) && d in Carry(net, out) && d !in net
    ensures |Events(d)| == 1 && Covers(Events(d)[0], rx)
  {
    hide Events, Covers;
    var k := CarriedDatagram(net, out, d);
  }

  lemma AskCovers(w: World, o: R.Outcome, stale: set<Message>)
    requires AllValid(o.out) && RequestsCover(w, stale) && Grows(w.rx, o.rx)
    requires forall k | 0 <= k < |o.out| :: Covers(o.out[k], o.rx)
    ensures RequestsCover(Ask(w, o), stale)
  {
    hide Events, Bits, Carry;
    forall d | d in Carry(w.toSender, o.out)
      ensures |Events(d)| == 1 && (Events(d)[0] in stale || Covers(Events(d)[0], o.rx))
    {
      if d !in w.toSender {
        CarryCovering(w.toSender, o.out, d, o.rx);
      }
    }
  }

  lemma ReceiverEventCovers(w: World, stale: set<Message>, expired: bool, fault: bool, ok: bool)
    requires w.Valid() && RequestsCover(w, stale) && SameSession(w, ReceiverEvent(expired, fault, ok))
    ensures RequestsCover(ReceiverEventStep(w, expired, fault, ok), stale)
  {
    hide Events, Bits, Ask, R.OnTimeout, R.OnSubPacket;
    if w.rxSlots.queue != [] {
      var m := w.rxSlots.Head();
      var next := w.(rxSlots := w.rxSlots.Pop());
      if m.SubPacket? && expired {
        TimeoutCovers(w.rx, ok);
        AskCovers(next, R.OnTimeout(w.rx, ok), stale);
      } else if m.SubPacket? && R.StoresSafely(w.rx, m, fault) {
        SubPacketGrows(w.rx, m, fault);
      }
    }
  }

  // A step that adds no request and no receiver progress.
  lemma FrameCovers(w: World, next: World, stale: set<Message>)
    requires RequestsCover(w, stale) && next.rx == w.rx && next.txSlots.Valid()
    requires forall d :: d in next.toSender ==> d in w.toSender
    requires RequestEvent in next.txSlots.queue ==>
      RequestEvent in w.txSlots.queue && next.txSlots.request == w.txSlots.request
    ensures RequestsCover(next, stale)
  {
    hide Events, Covers;
  }

  lemma SenderEventCovers(w: World, ok: bool, stale: set<Message>)
    requires w.Valid() && RequestsCover(w, stale)
    ensures RequestsCover(SenderEventStep(w, ok), stale)
  {
    hide Events, Carry, S.Reply, RequestsCover;
    if w.txSlots.queue != [] {
      assert forall k :: k in w.txSlots.queue[1..] ==> k in w.txSlots.queue;
      CoverParts(w, stale);
      FrameCovers(w, SenderEventStep(w, ok), stale);
    }
  }

  lemma CoverParts(w: World, stale: set<Message>)
    requires RequestsCover(w, stale)
    ensures w.txSlots.Valid()
  {
  }

  lemma SenderHearsCovers(w: World, d: Bytes, room: bool, stale: set<Message>)
    requires w.Valid() && RequestsCover(w, stale)
    ensures RequestsCover(Apply(w, SenderHears(d, room)), stale)
  {
    hide Events, Covers, Overflows;
    ArriveIsOnePut(w.txSlots, d, room);
  }

  lemma StepCovers(w: World, s: Step, stale: set<Message>)
    requires w.Valid() && RequestsCover(w, stale) && SameSession(w, s)
    ensures RequestsCover(Apply(w, s), stale)
  {
    hide Apply, Events, RequestsCover, Overflows, Carry, S.Timer, R.OnTimeout, ReceiverEventStep, SenderEventStep;
    CoverParts(w, stale);
    StepFrame(w, s);
    StepCases(w, s);
    if !w.crashed {
      match s {
        case ReceiverEvent(expired, fault, ok) => ReceiverEventCovers(w, stale, expired, fault, ok);
        case ReceiveTimer(ok) =>
          TimeoutCovers(w.rx, ok);
          AskCovers(w, R.OnTimeout(w.rx, ok), stale);
        case SenderEvent(ok) => SenderEventCovers(w, ok, stale);
        case SenderHears(d, room) => SenderHearsCovers(w, d, room, stale);
        case _ => FrameCovers(w, Apply(w, s), stale);
      }
    }
  }

  lemma {:induction false} RunCovers(w: World, steps: seq<Step>, stale: set<Message>)
    requires w.Valid() && RequestsCover(w, stale) && AllSameSession(w, steps)
    ensures RequestsCover(Exec(w, steps), stale)
    decreases |steps|
  {
    hide Apply, RequestsCover, SameSession;
    if steps != [] {
      StepCovers(w, steps[0], stale);
      RunCovers(Apply(w, steps[0]), steps[1..], stale);
    }
  }

  // The requests on their way to the sender: in flight, or queued.
  ghost function Pending(w: World): set<Message> {
    (set d, k | d in w.toSender && 0 <= k < |Events(d)| :: Events(d)[k])
    + if RequestEvent in w.txSlots.queue then {w.txSlots.request} else {}
  }

  // A request for the whole packet that a signal announces, under its id.
  ghost predicate AsksForAll(r: Message, signal: Message) {
    signal.Signal? && r.Request? && r.id == signal.id && Range(signal.n) <= Bits(r.mask)
  }

  // The requests on their way that ask for something else.
  ghost function LeftOver(w: World): set<Message> {
    set m | m in Pending(w) && !AsksForAll(m, w.rxSlots.signal)
  }

  lemma CoversIsAsksForAll(r: Message, signal: Message, rx: R.Rx)
    requires signal.Signal? && rx.id == signal.id && rx.num == signal.n && rx.mask == 0
    ensures Covers(r, rx) <==> AsksForAll(r, signal)
  {
    hide Bits;
    BitsZero(rx.mask);
    assert Range(rx.num) - {} == Range(rx.num);
  }

  // The session that a signal sets up.
  lemma SetUp(w: World, c: Bytes, expired: bool, fault: bool, ok: bool)
    requires Running(w, c) && !w.crashed && w.Valid() && w.rxSlots.queue != [] && w.rxSlots.Head().Signal?
    ensures w.rxSlots.queue[0] == SignalEvent && w.rxSlots.Head() == w.rxSlots.signal
    ensures w.rxSlots.Valid() && w.txSlots.Valid() && w.rxSlots.signal.n == Count(c) <= 64
    ensures var next := ReceiverEventStep(w, expired, fault, ok);
            && next == Ask(w.(rxSlots := w.rxSlots.Pop(), history := next.history.(requests := w.history.requests)),
                           R.OnSignal(w.rx, w.rxSlots.signal, ok))
            && next.rx.id == w.rxSlots.signal.id && next.rx.num == Count(c) && next.rx.mask == 0
            && next.rx.alive && !next.rx.done && next.rx.left == R.RE_REQUESTS && next.rx.posted == w.rx.posted
  {
    hide Events, Bits, Whole, Carry, R.Session, R.CarriesSlice;
    assert w.rxSlots.queue[0] in w.rxSlots.queue;
    CountBounds(c);
  }

  // What is on its way to the sender when a session has just been set up.
  lemma SessionStartCovers(w: World, c: Bytes, expired: bool, fault: bool, ok: bool)
    requires Running(w, c) && !w.crashed && w.Valid() && w.rxSlots.queue != [] && w.rxSlots.Head().Signal?
    ensures RequestsCover(ReceiverEventStep(w, expired, fault, ok), LeftOver(w))
  {
    hide Events, Bits, Carry, R.OnSignal, ReceiverEventStep, Covers, AsksForAll, GoodSender, GoodReceiver;
    hide RepliesQueued, RepliesInFlight;
    SetUp(w, c, expired, fault, ok);
    var next := ReceiverEventStep(w, expired, fault, ok);
    var m, o := w.rxSlots.signal, R.OnSignal(w.rx, w.rxSlots.signal, ok);
    forall r ensures Covers(r, next.rx) <==> AsksForAll(r, m) { CoversIsAsksForAll(r, m, next.rx); }
    SignalCovers(w.rx, m, ok);
    forall d | d in next.toSender
      ensures |Events(d)| == 1 && (Events(d)[0] in LeftOver(w) || Covers(Events(d)[0], next.rx))
    {
      if d !in w.toSender {
        CarryCovering(w.toSender, o.out, d, next.rx);
      } else {
        InFlightIsRequest(w, c, d);
        assert Events(d)[0] in Pending(w);
      }
    }
  }

  lemma SignalCovers(rx: R.Rx, s: Message, ok: bool)
    requires s.Signal? && s.n <= 64
    ensures var o := R.OnSignal(rx, s, ok);
            forall k | 0 <= k < |o.out| :: Covers(o.out[k], o.rx)
  {
    hide Bits, Whole;
    R.SignalAsksForAll(rx, s, ok);
  }

  // Serving the request at the head of the sender's queue leaves nothing lacking behind: everything lacking
  // is in the mask, or went out in this very step, and the loop sends under the id of the session.
  ghost predicate ServesAllLacking(w: World, ok: bool)
    requires w.Valid() && w.txSlots.queue != []
  {
    var r := w.txSlots.Head();
    r.Request? && var o := S.Reply(w.tx, r, ok);
    o.tx.id == w.rx.id && Lacking(w.rx) <= Bits(o.tx.mask) + R.Indices(o.out)
  }

  lemma IndicesOfOne(m: Message)
    requires m.SubPacket?
    ensures R.Indices([m]) == {m.index}
  {
    assert [m][1..] == [];
    assert R.Indices([]) == {};
  }

  lemma LoopTestLeavesNothing(tx: S.Tx, ok: bool)
    requires tx.Valid() && S.InRange(tx)
    ensures var o := S.LoopTest(tx, ok);
            Bits(tx.mask) == Bits(o.tx.mask) + R.Indices(o.out)
  {
    hide Bits, Without, S.LoopTest, S.Part, S.Ascending, Range, R.Indices;
    var i := S.LoopTestCases(tx, ok);
    assert R.Indices([]) == {} by { NoIndices(); }
    if tx.mask != 0 && tx.status >= 0 && ok {
      S.PartIndex(tx.payload, tx.id, i);
      IndicesOfOne(S.Part(tx.payload, tx.id, i));
    }
  }

  lemma NoIndices()
    ensures R.Indices([]) == {}
  {
  }

  lemma ReplyLeavesNothing(tx: S.Tx, r: Message, ok: bool)
    requires tx.Valid() && r.Request? && Bits(r.mask) <= Range(tx.num)
    ensures var o := S.Reply(tx, r, ok);
            Bits(r.mask) == Bits(o.tx.mask) + R.Indices(o.out)
  {
    hide Bits, S.LoopTest, R.Indices, Range;
    NoIndices();
    var asked := tx.(id := r.id, mask := r.mask, period := r.period);
    LoopTestLeavesNothing(asked.(suspended := false, sending := true, status := 0), ok);
  }

  lemma ReplyTakesId(tx: S.Tx, r: Message, ok: bool)
    requires tx.Valid() && r.Request?
    ensures S.Reply(tx, r, ok).tx.id == r.id
  {
    hide S.NextMessage, Without;
  }

  /** What a served request does, exactly: nothing lacking is left behind if and only if the request asks for
      everything lacking, under the id of the session. */
  lemma ServesIffCovers(w: World, c: Bytes, ok: bool)
    requires Inv(w, c) && w.txSlots.queue != [] && w.txSlots.Head().Request?
    ensures ServesAllLacking(w, ok) <==> Covers(w.txSlots.Head(), w.rx)
  {
    hide Bits, Events, S.Reply, R.Session, R.Carries, Lacking, R.Indices;
    PopKeeps(w.txSlots, c);
    ReplyLeavesNothing(w.tx, w.txSlots.Head(), ok);
    ReplyTakesId(w.tx, w.txSlots.Head(), ok);
  }

  // Serving it takes a sub-packet out of the send set that the receiver still lacks.
  ghost predicate DropsLacking(w: World, ok: bool)
    requires w.Valid() && w.txSlots.queue != []
  {
    var r := w.txSlots.Head();
    r.Request? && var o := S.Reply(w.tx, r, ok);
    exists i :: i in Lacking(w.rx) && i in Bits(w.tx.mask) && i !in Bits(o.tx.mask) + R.Indices(o.out)
  }

  lemma DropsUnlessAsked(w: World, c: Bytes, ok: bool, i: nat)
    requires Inv(w, c) && w.txSlots.queue != [] && w.txSlots.Head().Request?
    requires i in Lacking(w.rx) && i in Bits(w.tx.mask) && i !in Bits(w.txSlots.Head().mask)
    ensures DropsLacking(w, ok)
  {
    hide Bits, Events, S.Reply, R.Session, R.Carries, Lacking, R.Indices;
    PopKeeps(w.txSlots, c);
    ReplyLeavesNothing(w.tx, w.txSlots.Head(), ok);
  }

  // -------------------------------------------------------------------------
  // The theorems
  // -------------------------------------------------------------------------

  // A signal is about to start a session.
  ghost predicate SessionStarts(w: World, start: Step, c: Bytes) {
    Inv(w, c) && w.rxSlots.queue != [] && w.rxSlots.Head().Signal? && start.ReceiverEvent?
  }

  // A run of that session, after which a request waits to be served.
  ghost predicate Serves(w: World, start: Step, steps: seq<Step>, c: Bytes)
    requires w.Valid()
  {
    && Registers(steps, c) && AllSameSession(Apply(w, start), steps)
    && Exec(Apply(w, start), steps).txSlots.queue != []
  }

  lemma SessionStartsRunning(w: World, start: Step, c: Bytes)
    requires SessionStarts(w, start, c)
    ensures Running(w, c) && !w.crashed && w.Valid()
  {
    hide Events;
  }

  lemma SessionRuns(w: World, start: Step, steps: seq<Step>, c: Bytes)
    requires SessionStarts(w, start, c) && w.Valid() && Serves(w, start, steps, c)
    ensures var now := Exec(Apply(w, start), steps);
            Inv(now, c) && RequestsCover(now, LeftOver(w))
  {
    SessionStartsRunning(w, start, c);
    hide Running, ReceiverEventStep, RequestsCover, LeftOver, Inv;
    StepKeeps(w, start, c);
    SessionStartCovers(w, c, start.expired, start.fault, start.ok);
    StepCases(w, start);
    RunKeeps(Apply(w, start), steps, c);
    RunCovers(Apply(w, start), steps, LeftOver(w));
  }

  lemma HeadCovers(now: World, c: Bytes, stale: set<Message>)
    requires Inv(now, c) && RequestsCover(now, stale) && now.txSlots.queue != []
    ensures var r := now.txSlots.Head();
            r.Request? && (r in stale || Covers(r, now.rx))
  {
    hide Events, Bits, R.Session, R.Carries;
    PopKeeps(now.txSlots, c);
    assert now.txSlots.queue[0] in now.txSlots.queue;
  }

  /** Overwriting loses nothing needed: take any reachable state in which a signal starts a session, and
      any run of that session. When a request is served, whether in the middle of a transfer or not, every
      sub-packet that the receiver still lacks is in the send set, under the id that it waits for, unless the
      request was on its way when the session started and asks for anything but the whole packet announced. */
  lemma OverwritingLosesNothing(w: World, start: Step, steps: seq<Step>, c: Bytes, ok: bool)
    requires SessionStarts(w, start, c) && w.Valid() && Serves(w, start, steps, c)
    ensures var now := Exec(Apply(w, start), steps);
            now.txSlots.Head() !in LeftOver(w) ==> ServesAllLacking(now, ok)
  {
    hide Bits, Events, Apply, S.Reply, Pending, Inv, Running, RequestsCover, ServesAllLacking;
    var now := Exec(Apply(w, start), steps);
    SessionRuns(w, start, steps, c);
    HeadCovers(now, c, LeftOver(w));
    ServesIffCovers(now, c, ok);
  }

  // In every run of the session, whatever request is served leaves nothing lacking behind.
  ghost predicate NothingIsLeftBehind(w: World, start: Step, c: Bytes)
    requires w.Valid()
  {
    forall steps, ok :: Serves(w, start, steps, c) ==> ServesAllLacking(Exec(Apply(w, start), steps), ok)
  }

  // What the start of a session does not touch.
  lemma StartKeepsSender(w: World, start: Step, c: Bytes)
    requires SessionStarts(w, start, c) && w.Valid()
    ensures var next := Apply(w, start);
            && Running(next, c) && !next.crashed
            && next.tx == w.tx && next.txSlots == w.txSlots && next.toReceiver == w.toReceiver
            && next.rxSlots == w.rxSlots.Pop() && (forall d :: d in w.toSender ==> d in next.toSender)
            && next.rx.id == w.rxSlots.signal.id && next.rx.num == w.rxSlots.signal.n && next.rx.mask == 0
            && next.rx.alive && !next.rx.done && next.rx.left == R.RE_REQUESTS && w.rxSlots.signal.Signal?
  {
    SessionStartsRunning(w, start, c);
    StepCases(w, start);
    SetUp(w, c, start.expired, start.fault, start.ok);
    SignalCovers(w.rx, w.rxSlots.signal, start.ok);
    CarryKeeps(w.toSender, R.OnSignal(w.rx, w.rxSlots.signal, start.ok).out);
    hide Running, Apply, Carry, R.OnSignal, ReceiverEventStep;
    StepKeeps(w, start, c);
    StartIsNotSilent(w, start, c);
  }

  lemma StartIsNotSilent(w: World, start: Step, c: Bytes)
    requires Running(w, c) && !w.crashed && w.Valid() && start.ReceiverEvent?
    ensures !Silent(Apply(w, start))
  {
    StepFrame(w, start);
    hide Apply, Events, Bits, R.Session;
    CountBounds(c);
  }

  // A left-over request can be the first one that the session serves.
  lemma LeftOverIsServed(w: World, start: Step, c: Bytes, m: Message) returns (steps: seq<Step>)
    requires SessionStarts(w, start, c) && w.Valid() && m in LeftOver(w)
    ensures Serves(w, start, steps, c)
    ensures var now := Exec(Apply(w, start), steps);
            now.rx == Apply(w, start).rx && now.txSlots.Head() == m
  {
    hide Bits, Events, Apply, Inv, Running, Exec;
    SessionStartsRunning(w, start, c);
    StartKeepsSender(w, start, c);
    var first := Apply(w, start);
    if RequestEvent in w.txSlots.queue && m == w.txSlots.request {
      steps := [];
      ExecNothing(first);
      QueueIsRequests(w, c);
    } else {
      var d, k :| d in w.toSender && 0 <= k < |Events(d)| && Events(d)[k] == m;
      InFlightIsRequest(w, c, d);
      steps := [SenderHears(d, true)];
      ExecOne(first, steps[0]);
      OneMoreStep(first, steps[0]);
      HeadIsHeard(first, c, d);
    }
  }

  lemma QueueIsRequests(w: World, c: Bytes)
    requires Running(w, c) && w.txSlots.queue != []
    ensures w.txSlots.Head() == w.txSlots.request
  {
    hide Events, Bits, R.Session, R.Carries;
    PopKeeps(w.txSlots, c);
  }

  lemma InFlightIsRequest(w: World, c: Bytes, d: Bytes)
    requires Running(w, c) && d in w.toSender
    ensures |Events(d)| == 1 && GoodRequest(Events(d)[0], c)
  {
    hide Events, Bits, R.Session, R.Carries;
  }

  // A request that arrives stands at the head, since all queued events point at its record.
  lemma HeadIsHeard(w: World, c: Bytes, d: Bytes)
    requires Running(w, c) && w.Valid() && !w.crashed && d in w.toSender
    ensures |Events(d)| == 1
    ensures var next := Apply(w, SenderHears(d, true));
            next.rx == w.rx && next.txSlots.queue != [] && next.txSlots.Head() == Events(d)[0]
  {
    hide Events, Bits, Overflows, R.Session, R.Carries, RepliesQueued, RepliesInFlight;
    InFlightIsRequest(w, c, d);
    QueueRequest(w.txSlots, d, true, c);
    ArriveIsOnePut(w.txSlots, d, true);
    if w.txSlots.queue != [] { QueueIsRequests(w, c); }
  }

  lemma OneMoreStep(w: World, s: Step)
    requires w.Valid() && !s.ReceiverEvent?
    ensures AllSameSession(w, [s])
  {
    hide Apply;
    assert [s][1..] == [];
  }

  /** When overwriting is safe, exactly: for every start of a session, every request served in every run
      of it leaves nothing lacking behind if and only if, at its start, every request on its way to the
      sender asks for the whole packet announced, under its id. */
  lemma OverwritingIsSafeIffNoLeftOver(w: World, start: Step, c: Bytes)
    requires SessionStarts(w, start, c) && w.Valid()
    ensures NothingIsLeftBehind(w, start, c) <==> LeftOver(w) == {}
  {
    hide Apply, Exec, ServesAllLacking, LeftOver, SessionStarts;
    if LeftOver(w) == {} {
      forall steps, ok | Serves(w, start, steps, c) ensures ServesAllLacking(Exec(Apply(w, start), steps), ok) {
        OverwritingLosesNothing(w, start, steps, c, ok);
      }
    } else {
      var m :| m in LeftOver(w);
      var steps := LeftOverIsServed(w, start, c, m);
      LeftOverLeavesBehind(w, start, steps, c, m, true);
    }
  }

  lemma LeftOverLeavesBehind(w: World, start: Step, steps: seq<Step>, c: Bytes, m: Message, ok: bool)
    requires SessionStarts(w, start, c) && w.Valid() && Serves(w, start, steps, c) && m in LeftOver(w)
    requires var now := Exec(Apply(w, start), steps);
             now.rx == Apply(w, start).rx && now.txSlots.Head() == m
    ensures !ServesAllLacking(Exec(Apply(w, start), steps), ok)
  {
    hide Apply, Bits, Events, Pending, Inv, Running, RequestsCover, ServesAllLacking, Covers, AsksForAll;
    var now := Exec(Apply(w, start), steps);
    SessionRuns(w, start, steps, c);
    HeadCovers(now, c, LeftOver(w));
    ServesIffCovers(now, c, ok);
    StartKeepsSender(w, start, c);
    CoversIsAsksForAll(m, w.rxSlots.signal, now.rx);
  }
}
