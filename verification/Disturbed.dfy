/** What is left over from before a session can do to it: when a session starts undisturbed, exactly, in terms
    of what can go wrong in its runs. */
module Disturbed {
  import opened Types
  import opened Messages
  import opened Fragments
  import opened Masks
  import opened Slots
  import opened Network
  import opened Safety
  import opened Overwrite
  import opened Recovery
  import opened Completion
  import opened Reregistration
  import S = Sender
  import R = Receiver

  // The session is safe in all its runs: it is not cut short, and no request leaves anything lacking behind.
  ghost predicate SafeSession(w: World, start: Step, c: Bytes)
    requires w.Valid()
  {
    NeverCutShort(Apply(w, start), c) && NothingIsLeftBehind(w, start, c)
  }

  // Behind the signal wait only sub-packets.
  ghost predicate OnlySubPacketsBehind(w: World) {
    w.rxSlots.queue != [] ==> OnlySubPackets(w.rxSlots.queue[1..])
  }

  // A foreign sub-packet on its way, and how it reaches the receiver process without any loss.
  lemma LoopIsForeign(w: World, start: Step, c: Bytes) returns (steps: seq<Step>)
    requires SessionStarts(w, start, c) && w.Valid() && OnlySubPacketsBehind(w)
    requires AtWork(w.tx) && w.tx.id != w.rxSlots.signal.id
    ensures var first := Apply(w, start);
            AllUndisturbing(first, steps, c) && CutShort(Exec(first, steps).rx)
  {
    SessionStartsRunning(w, start, c);
    StartKeepsSender(w, start, c);
    hide Running, Apply, Exec, Pack, S.Part;
    var first := Apply(w, start);
    SenderHas(first, c);
    var i := SendsUnderNewId(first, c);
    var m := S.Part(c, w.tx.id, i);
    steps := NextArrives(m);
    ForeignCutsShort(Apply(first, SendTimer(true)), m);
    ExecThree(first, steps);
    NextArrivesUndisturbed(first, m, c);
  }

  // A foreign sub-packet in flight reaches a live session.
  lemma InFlightIsForeign(first: World, c: Bytes, d: Bytes) returns (steps: seq<Step>)
    requires Running(first, c) && !first.crashed && first.Valid() && OnlySubPackets(first.rxSlots.queue)
    requires first.rx.alive && !first.rx.done && first.rx.left > 0
    requires d in first.toReceiver && |Events(d)| == 1 && Events(d)[0].SubPacket? && Events(d)[0].id != first.rx.id
    ensures AllUndisturbing(first, steps, c) && CutShort(Exec(first, steps).rx)
  {
    hide Running, Apply, Exec, Events, Overflows;
    SenderHas(first, c);
    InFlightFits(first, c, d);
    steps := [ReceiverHears(d, true), ReceiverEvent(false, false, true)];
    ForeignDatagramCutsShort(first, d);
    ExecTwo(first, steps);
    TwoUndisturbing(first, steps, c);
  }

  lemma QueuedIsForeign(w: World, start: Step, c: Bytes) returns (steps: seq<Step>)
    requires SessionStarts(w, start, c) && w.Valid() && OnlySubPacketsBehind(w)
    requires w.rxSlots.queue[1..] != [] && w.rxSlots.sub.id != w.rxSlots.signal.id
    ensures var first := Apply(w, start);
            AllUndisturbing(first, steps, c) && CutShort(Exec(first, steps).rx)
  {
    SessionStartsRunning(w, start, c);
    StartKeepsSender(w, start, c);
    hide Running, Apply, Exec, Events;
    var first := Apply(w, start);
    SenderHas(first, c);
    assert first.rxSlots.queue[0] in w.rxSlots.queue[1..];
    steps := [ReceiverEvent(false, false, true)];
    ForeignEventCutsShort(first);
    ExecOne(first, steps[0]);
    OneUndisturbing(first, steps[0], c);
  }

  lemma InFlightFits(w: World, c: Bytes, d: Bytes)
    requires Running(w, c) && d in w.toReceiver
    ensures !Overflows(d)
  {
    hide Events, Bits, R.Session, R.CarriesSlice, GoodReply;
    QueueReply(w.rxSlots, d, true, c);
  }

  lemma OneUndisturbing(w: World, s: Step, c: Bytes)
    requires w.Valid() && Undisturbing(w, s, c)
    ensures AllUndisturbing(w, [s], c)
  {
    hide Apply, Undisturbing;
    assert [s][1..] == [];
  }

  lemma TwoUndisturbing(w: World, steps: seq<Step>, c: Bytes)
    requires w.Valid() && |steps| == 2
    requires Undisturbing(w, steps[0], c) && Undisturbing(Apply(w, steps[0]), steps[1], c)
    ensures AllUndisturbing(w, steps, c)
  {
    hide Apply, Undisturbing;
    OneUndisturbing(Apply(w, steps[0]), steps[1], c);
    assert steps[1..] == [steps[1]];
  }

  lemma StartingIsSafe(w: World, start: Step, c: Bytes)
    requires SessionStarts(w, start, c) && w.Valid() && Starting(w)
    ensures SafeSession(w, start, c)
  {
    SessionStartsRunning(w, start, c);
    StartKeepsSender(w, start, c);
    StartUndisturbedIff(w, c, start.expired, start.fault, start.ok);
    StepCases(w, start);
    OverwritingIsSafeIffNoLeftOver(w, start, c);
    var first := Apply(w, start);
    hide Running, Apply, Exec, Undisturbed, CutShort;
    forall steps | AllUndisturbing(first, steps, c) ensures !CutShort(Exec(first, steps).rx) {
      RunInSession(first, steps, c, w.rxSlots.signal.id, w.rx.posted);
      InSessionIsNotCutShort(Exec(first, steps), c, w.rxSlots.signal.id, w.rx.posted);
    }
  }

  /** When a session is safe from what was left over, exactly: for every start of a session behind which only
      sub-packets wait, no run cuts it short and no request served in any run leaves anything lacking behind
      if and only if what is left over belongs to the announced id, and every request left over asks for the
      whole packet. */
  lemma SessionIsSafeIffStarting(w: World, start: Step, c: Bytes)
    requires SessionStarts(w, start, c) && w.Valid() && OnlySubPacketsBehind(w)
    ensures SafeSession(w, start, c) <==> Starting(w)
  {
    if Starting(w) {
      StartingIsSafe(w, start, c);
    } else {
      NotStarting(w, start, c);
    }
  }

  lemma NotStarting(w: World, start: Step, c: Bytes)
    requires SessionStarts(w, start, c) && w.Valid() && OnlySubPacketsBehind(w) && !Starting(w)
    ensures !SafeSession(w, start, c)
  {
    SessionStartsRunning(w, start, c);
    StartKeepsSender(w, start, c);
    hide Running, Apply, Exec, Events, CutShort, LeftOver, NothingIsLeftBehind;
    if LeftOver(w) != {} {
      OverwritingIsSafeIffNoLeftOver(w, start, c);
    } else if AtWork(w.tx) && w.tx.id != w.rxSlots.signal.id {
      var steps := LoopIsForeign(w, start, c);
    } else if w.rxSlots.queue[1..] != [] && w.rxSlots.sub.id != w.rxSlots.signal.id {
      var steps := QueuedIsForeign(w, start, c);
    } else {
      var d :| d in w.toReceiver && |Events(d)| == 1 && Events(d)[0].SubPacket?
            && Events(d)[0].id != w.rxSlots.signal.id;
      var steps := InFlightIsForeign(Apply(w, start), c, d);
    }
  }
}
