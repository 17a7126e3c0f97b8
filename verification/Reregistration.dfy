/** What a registration does to a session under way: large_packet_register_tx overwrites the id that the
    suspended send loop is working with. */
module Reregistration {
  import opened Types
  import opened Messages
  import opened Fragments
  import opened Masks
  import opened Slots
  import opened Network
  import opened Safety
  import opened Overwrite
  import opened Recovery
  import opened Completion
  import S = Sender
  import R = Receiver

  /** A registration of the same content leaves a session undisturbed exactly when the send loop is not at
      work, or the id that it registers is the one of the session. */
  lemma NotifyKeepsSessionIff(w: World, c: Bytes, ok: bool, id: uint16, posts: nat)
    requires InSession(w, c, id, posts)
    ensures InSession(Apply(w, Notify(c, ok)), c, id, posts) <==> KeepsId(w)
  {
    if KeepsId(w) {
      hide Apply, Running, Undisturbed;
      StepInSession(w, Notify(c, ok), c, id, posts);
    } else {
      RegisteredIdIsNew(w, c, ok);
      hide Apply, Running, RepliesFor, RequestsCover;
    }
  }

  lemma RegisteredIdIsNew(w: World, c: Bytes, ok: bool)
    requires Running(w, c) && !w.crashed && w.Valid()
    ensures var next := Apply(w, Notify(c, ok));
            && next.tx == w.tx.(id := w.packetId) && next.rx == w.rx && next.rxSlots == w.rxSlots
            && !next.crashed
            && Running(next, c)
  {
    RunningStays(w, Notify(c, ok), c);
    hide Running, Events, Pack;
    SenderHas(w, c);
  }

  lemma SenderHas(w: World, c: Bytes)
    requires Running(w, c)
    ensures Sendable(c) && w.tx.Valid() && w.tx.payload == c && S.InRange(w.tx) && w.rxSlots.Valid()
  {
    hide Events, Bits, R.Session, R.CarriesSlice;
  }

  // The session is over without a post, although it may still re-request.
  ghost predicate CutShort(rx: R.Rx) {
    !rx.alive && !rx.done && rx.left > 0
  }

  // An undisturbed session never ends like that.
  lemma InSessionIsNotCutShort(w: World, c: Bytes, id: uint16, posts: nat)
    requires InSession(w, c, id, posts)
    ensures !CutShort(w.rx)
  {
    hide Running, RepliesFor, RequestsCover;
  }

  // The loop sends its next sub-packet, which arrives and is taken: nothing is lost and nothing fails.
  function NextArrives(m: Message): seq<Step>
    requires m.Valid()
  {
    [SendTimer(true), ReceiverHears(Pack(m), true), ReceiverEvent(false, false, true)]
  }

  // A live session that may still re-request.
  ghost predicate Live(w: World, c: Bytes, id: uint16, posts: nat) {
    InSession(w, c, id, posts) && w.rx.alive && w.rx.left > 0
  }

  lemma SendsUnderNewId(w: World, c: Bytes) returns (i: nat)
    requires Running(w, c) && !w.crashed && w.Valid() && AtWork(w.tx)
    ensures Sendable(c) && i < Count(c)
    ensures var m := S.Part(c, w.tx.id, i);
            var next := Apply(w, SendTimer(true));
            && m.Valid() && m.SubPacket? && m.id == w.tx.id && |m.payload| <= SUB_MAX
            && Pack(m) in next.toReceiver && next.rx == w.rx && next.rxSlots == w.rxSlots && !next.crashed
  {
    hide Running, Bits, Without, S.LoopTest, S.Ascending, S.Part, Pack, S.InRange;
    SenderHas(w, c);
    i := S.LoopTestCases(w.tx, true);
    S.TimerIsLoopTest(w.tx, true);
    PartFits(c, w.tx.id, i);
    DatagramsOfOne(S.Part(c, w.tx.id, i));
    StepCases(w, SendTimer(true));
  }

  lemma PartFits(c: Bytes, id: uint16, i: nat)
    requires Sendable(c) && i < Count(c)
    ensures var m := S.Part(c, id, i);
            m.Valid() && m.SubPacket? && m.id == id && |m.payload| <= SUB_MAX
  {
    CountBounds(c);
    PickedLengthIsFragmentLength(c, i);
  }

  // A sub-packet of another id is taken: the session is over.
  lemma ForeignEventCutsShort(w: World)
    requires w.Valid() && !w.crashed && w.rxSlots.Valid() && w.rxSlots.queue != []
    requires w.rxSlots.queue[0] == SubPacketEvent && w.rxSlots.sub.id != w.rx.id && w.rx.alive
    ensures Apply(w, ReceiverEvent(false, false, true)).rx == w.rx.(alive := false)
  {
    hide Events, Overflows, R.Store;
  }

  // It arrives and is taken.
  lemma ForeignDatagramCutsShort(w: World, d: Bytes)
    requires w.Valid() && !w.crashed && w.rxSlots.Valid() && OnlySubPackets(w.rxSlots.queue)
    requires d in w.toReceiver && |Events(d)| == 1 && Events(d)[0].SubPacket? && !Overflows(d)
    requires w.rx.alive && Events(d)[0].id != w.rx.id
    ensures var end := Apply(Apply(w, ReceiverHears(d, true)), ReceiverEvent(false, false, true));
            end.rx == w.rx.(alive := false)
  {
    hide Events, Overflows, R.Store, ReceiverEventStep;
    ArriveIsOnePut(w.rxSlots, d, true);
    var heard := Apply(w, ReceiverHears(d, true));
    assert heard.rxSlots.queue[0] == SubPacketEvent by {
      if w.rxSlots.queue != [] { assert w.rxSlots.queue[0] in w.rxSlots.queue; }
    }
    ForeignEventCutsShort(heard);
  }

  lemma ForeignCutsShort(w: World, m: Message)
    requires w.Valid() && !w.crashed && w.rxSlots.Valid() && OnlySubPackets(w.rxSlots.queue)
    requires m.SubPacket? && m.Valid() && |m.payload| <= SUB_MAX && Pack(m) in w.toReceiver
    requires w.rx.alive && m.id != w.rx.id
    ensures var end := Apply(Apply(w, ReceiverHears(Pack(m), true)), ReceiverEvent(false, false, true));
            end.rx == w.rx.(alive := false)
  {
    hide Pack, Events, Apply;
    EventsOfPack(m);
    ForeignDatagramCutsShort(w, Pack(m));
  }

  /** A registration under another id in the middle of a transfer ends the session: the loop sends its next
      sub-packet under the new id, and the receiver aborts, although nothing is lost and nothing fails. */
  lemma RegisteringCutsShort(w: World, c: Bytes, ok: bool, id: uint16, posts: nat) returns (m: Message)
    requires Live(w, c, id, posts) && !KeepsId(w)
    ensures m.SubPacket? && m.Valid() && m.id == w.packetId
    ensures var end := Exec(Apply(w, Notify(c, ok)), NextArrives(m));
            CutShort(end.rx) && end.rx.posted == w.rx.posted
  {
    hide Running, RequestsCover, Pack, Apply, S.Part;
    RegisteredIdIsNew(w, c, ok);
    RepliesForParts(w, id);
    AliveIsNotDone(w, c);
    SenderHas(w, c);
    var named := Apply(w, Notify(c, ok));
    var i := SendsUnderNewId(named, c);
    m := S.Part(c, w.packetId, i);
    var sent := Apply(named, SendTimer(true));
    ForeignCutsShort(sent, m);
    ExecThree(named, NextArrives(m));
  }

  // Whatever happens, but for a signal or another registration under another id, the session is not cut short.
  ghost predicate NeverCutShort(w: World, c: Bytes)
    requires w.Valid()
  {
    forall steps :: AllUndisturbing(w, steps, c) ==> !CutShort(Exec(w, steps).rx)
  }

  /** When the packet may be registered again in the middle of a session, exactly: the session is safe from
      being cut short in every continuation if and only if the send loop is not at work, or the id is the same. */
  lemma RegisteringIsSafeIff(w: World, c: Bytes, ok: bool, id: uint16, posts: nat)
    requires Live(w, c, id, posts)
    ensures NeverCutShort(Apply(w, Notify(c, ok)), c) <==> KeepsId(w)
  {
    var named := Apply(w, Notify(c, ok));
    hide Apply, Exec, InSession, CutShort, KeepsId;
    if KeepsId(w) {
      NotifyKeepsSessionIff(w, c, ok, id, posts);
      forall steps | AllUndisturbing(named, steps, c) ensures !CutShort(Exec(named, steps).rx) {
        RunInSession(named, steps, c, id, posts);
        InSessionIsNotCutShort(Exec(named, steps), c, id, posts);
      }
    } else {
      var m := RegisteringCutsShort(w, c, ok, id, posts);
      NextArrivesUndisturbed(named, m, c);
    }
  }

  lemma NextArrivesUndisturbed(w: World, m: Message, c: Bytes)
    requires w.Valid() && m.SubPacket? && m.Valid()
    ensures AllUndisturbing(w, NextArrives(m), c)
  {
    hide Apply, Pack, Events;
    var steps := NextArrives(m);
    EventsOfPack(m);
    var rest := steps[1..];
    assert rest[0] == steps[1] && rest[1..][0] == steps[2] && rest[1..][1..] == [];
    assert Undisturbing(Apply(w, steps[0]), steps[1], c);
    var w1 := Apply(w, steps[0]);
    var w2 := Apply(w1, steps[1]);
    assert AllUndisturbing(w2, rest[1..], c);
    assert AllUndisturbing(w1, rest, c);
  }

  // -------------------------------------------------------------------------
  // It happens
  // -------------------------------------------------------------------------

  // A served request for two sub-packets or more leaves the loop at work.
  lemma ServingLeavesWork(w: World, c: Bytes)
    requires Running(w, c) && !w.crashed && w.Valid() && w.txSlots.queue != [] && HeadIsGood(w, c)
    requires |Bits(w.txSlots.Head().mask)| >= 2
    ensures Apply(w, SenderEvent(true)).tx.mask != 0
  {
    hide Bits, S.Reply, R.Session, Events, R.CarriesSlice, Covers;
    var r := w.txSlots.Head();
    ReplyKeeps(w.tx, r, c, true);
    AtMostOne(w.tx, r, true);
    BitsZero(S.Reply(w.tx, r, true).tx.mask);
  }

  lemma AtMostOne(tx: S.Tx, r: Message, ok: bool)
    requires tx.Valid() && r.Request?
    ensures |S.Reply(tx, r, ok).out| <= 1
  {
    hide S.PickFrom, Without;
  }

  /** For every content of two sub-packets or more there is a run from the initial state, with nothing lost
      and nothing failing, in which registering the same content again cuts a live session short. */
  lemma RegisteringCanCutShort(c: Bytes) returns (steps: seq<Step>)
    requires Sendable(c) && Count(c) >= 2
    ensures Registers(steps, c) && AllSmooth(steps)
    ensures var rx := Exec(INITIAL, steps).rx;
            CutShort(rx) && rx.posted == 0
  {
    hide Apply, Exec, InSession, CutShort, Pack, Missing;
    SessionIsSetUp(c);
    var w := Exec(INITIAL, Signalled(c));
    var asked := ReRequest(w.rx);
    var now := Exec(w, asked);
    ServedIsLive(w, c);
    var m := RegisteringCutsShort(now, c, true, 0, 0);
    var last := [Notify(c, true)] + NextArrives(m);
    steps := Signalled(c) + (asked + last);
    ExecAppend(INITIAL, Signalled(c), asked + last);
    ExecAppend(w, asked, last);
    ExecFirst(now, Notify(c, true), NextArrives(m));
  }

  lemma ServedIsLive(w: World, c: Bytes)
    requires InSession(w, c, 0, 0) && Count(c) >= 2 && w.rx.alive && w.rx.mask == 0 && w.rx.left == R.RE_REQUESTS
    requires w.packetId == 1 && !w.tx.suspended
    ensures var now := Exec(w, ReRequest(w.rx));
            Live(now, c, 0, 0) && !KeepsId(now) && now.rx.posted == 0
  {
    hide Apply, Exec, Running, RepliesFor, RequestsCover, Missing, Pack, AllOnTheirWay;
    AliveIsNotDone(w, c);
    var steps := ReRequest(w.rx);
    ReRequestIsQueued(w, c);
    var timed := Apply(w, steps[0]);
    var asked := Apply(timed, steps[1]);
    StepInSession(w, steps[0], c, 0, 0);
    StepInSession(timed, steps[1], c, 0, 0);
    StepInSession(asked, steps[2], c, 0, 0);
    ServingStartsTransfer(asked, c);
    HeadsAreGood(asked, c);
    StepFrame(w, steps[0]);
    StepFrame(timed, steps[1]);
    StepFrame(asked, steps[2]);
    ExecThree(w, steps);
    CoversTwo(asked, c);
    ServingLeavesWork(asked, c);
  }

  lemma CoversTwo(w: World, c: Bytes)
    requires Running(w, c) && w.rx.alive && w.rx.mask == 0 && Count(c) >= 2 && w.txSlots.queue != [] && HeadIsGood(w, c)
    ensures |Bits(w.txSlots.Head().mask)| >= 2
  {
    hide Bits, Events, R.CarriesSlice, InPlace;
    BitsZero(0);
    var s := Bits(w.txSlots.Head().mask);
    assert 0 in Range(Count(c)) && 1 in Range(Count(c));
    assert {0, 1} <= s;
    assert |{0, 1}| == 2;
    SubsetSize({0, 1}, s);
  }
}
