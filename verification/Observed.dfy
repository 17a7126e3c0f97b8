/** What the processes of the whole system observe: in every run, the slots of either node go through a
    sequence of arrivals and dispatches, so the refinement proved for the slots holds of the system. */
module Observed {
  import opened Types
  import opened Messages
  import opened Slots
  import opened Masks
  import opened Fragments
  import opened Network
  import opened Safety
  import Traffic

  // What a step of the system is to the slots of the receiver, and to those of the sender.
  function AtReceiver(w: World, s: Step, t: Trace): Trace {
    if w.crashed then t
    else
      match s
      case ReceiverHears(d, room) => if d in w.toReceiver && !Overflows(d) then Observe(t, Arrival(d, room)) else t
      case ReceiverEvent(_, _, _) => Observe(t, Dispatch)
      case _ => t
  }

  function AtSender(w: World, s: Step, t: Trace): Trace {
    if w.crashed then t
    else
      match s
      case SenderHears(d, room) => if d in w.toSender && !Overflows(d) then Observe(t, Arrival(d, room)) else t
      case SenderEvent(_) => Observe(t, Dispatch)
      case _ => t
  }

  // What has been accepted and seen at the two nodes after a run.
  datatype Seen = Seen(atReceiver: Trace, atSender: Trace)

  function Observing(w: World, steps: seq<Step>, seen: Seen): Seen
    requires w.Valid()
    decreases |steps|
  {
    if steps == [] then seen
    else
      var next := Seen(AtReceiver(w, steps[0], seen.atReceiver), AtSender(w, steps[0], seen.atSender));
      Observing(Apply(w, steps[0]), steps[1..], next)
  }

  ghost predicate Agrees(w: World, seen: Seen) {
    && seen.atReceiver.slots == w.rxSlots && Consistent(seen.atReceiver)
    && seen.atSender.slots == w.txSlots && Consistent(seen.atSender)
  }

  lemma ReceiverAgrees(w: World, s: Step, t: Trace)
    requires w.Valid() && t.slots == w.rxSlots && Consistent(t)
    ensures Apply(w, s).rxSlots == AtReceiver(w, s, t).slots && Consistent(AtReceiver(w, s, t))
  {
    hide Consistent, Events, Overflows, SenderEventStep, ReceiverEventStep;
    StepFrame(w, s);
    if s.ReceiverHears? { ObserveKeeps(t, Arrival(s.d, s.room)); }
    ObserveKeeps(t, Dispatch);
    if !w.crashed { EventsAreTaken(w, s); }
  }

  lemma SenderAgrees(w: World, s: Step, t: Trace)
    requires w.Valid() && t.slots == w.txSlots && Consistent(t)
    ensures Apply(w, s).txSlots == AtSender(w, s, t).slots && Consistent(AtSender(w, s, t))
  {
    hide Consistent, Events, Overflows, SenderEventStep, ReceiverEventStep;
    StepFrame(w, s);
    if s.SenderHears? { ObserveKeeps(t, Arrival(s.d, s.room)); }
    ObserveKeeps(t, Dispatch);
    if !w.crashed { EventsAreTaken(w, s); }
  }

  lemma {:induction false} RunAgrees(w: World, steps: seq<Step>, seen: Seen)
    requires w.Valid() && Agrees(w, seen)
    ensures Agrees(Exec(w, steps), Observing(w, steps, seen))
    decreases |steps|
  {
    hide Apply, Consistent, AtReceiver, AtSender;
    if steps != [] {
      var next := Seen(AtReceiver(w, steps[0], seen.atReceiver), AtSender(w, steps[0], seen.atSender));
      ReceiverAgrees(w, steps[0], seen.atReceiver);
      SenderAgrees(w, steps[0], seen.atSender);
      RunAgrees(Apply(w, steps[0]), steps[1..], next);
    }
  }

  /** In every run, whatever is registered, lost or duplicated, the event that the next dispatch shows to a
      process of either node is one complete message that this node accepted before: the latest of its kind. */
  lemma EventsShowAcceptedMessages(steps: seq<Step>)
    ensures var w := Exec(INITIAL, steps);
            var seen := Observing(INITIAL, steps, Seen(START, START));
            && Agrees(w, seen)
            && (w.rxSlots.queue != [] ==> IsLatest(w.rxSlots.Head(), seen.atReceiver.sent))
            && (w.txSlots.queue != [] ==> IsLatest(w.txSlots.Head(), seen.atSender.sent))
  {
    hide Apply, Exec, Observing;
    assert Consistent(START);
    RunAgrees(INITIAL, steps, Seen(START, START));
    var w := Exec(INITIAL, steps);
    var seen := Observing(INITIAL, steps, Seen(START, START));
    HeadIsLatest(seen.atReceiver);
    HeadIsLatest(seen.atSender);
  }

  ghost predicate IsLatest(m: Message, sent: seq<Message>) {
    var i := LastOf(sent, KindOf(m));
    i >= 0 && sent[i] == m
  }

  lemma HeadIsLatest(t: Trace)
    requires Consistent(t)
    ensures t.slots.queue != [] ==> IsLatest(t.slots.Head(), t.sent)
  {
    if t.slots.queue != [] {
      assert t.slots.queue[0] in t.slots.queue;
    }
  }

  // -------------------------------------------------------------------------
  // The traffic budget, in terms of what was observed
  // -------------------------------------------------------------------------

  // Among the events that a process took: signals, requests, and the sub-packets that the requests asked for.
  function Signals(ms: seq<Message>): nat {
    if ms == [] then 0 else Signals(ms[..|ms| - 1]) + if ms[|ms| - 1].Signal? then 1 else 0
  }

  function Requests(ms: seq<Message>): nat {
    if ms == [] then 0 else Requests(ms[..|ms| - 1]) + if ms[|ms| - 1].Request? then 1 else 0
  }

  function Asked(ms: seq<Message>): nat {
    if ms == [] then 0
    else Asked(ms[..|ms| - 1]) + if ms[|ms| - 1].Request? then |Bits(ms[|ms| - 1].mask)| else 0
  }

  lemma OneMore(ms: seq<Message>, m: Message)
    ensures Signals(ms + [m]) == Signals(ms) + if m.Signal? then 1 else 0
    ensures Requests(ms + [m]) == Requests(ms) + if m.Request? then 1 else 0
    ensures Asked(ms + [m]) == Asked(ms) + if m.Request? then |Bits(m.mask)| else 0
  {
    hide Bits;
    assert (ms + [m])[..|ms|] == ms;
  }

  // The counters of the system count what the traces show.
  ghost predicate Counted(w: World, seen: Seen) {
    var h := w.history;
    && h.signals == Signals(seen.atReceiver.received)
    && h.taken == Requests(seen.atSender.received) && h.asked == Asked(seen.atSender.received)
  }

  // What a step adds to the events that the processes took.
  function TakenByReceiver(w: World, s: Step): seq<Message> {
    if !w.crashed && s.ReceiverEvent? && w.rxSlots.queue != [] then [w.rxSlots.Head()] else []
  }

  function TakenBySender(w: World, s: Step): seq<Message> {
    if !w.crashed && s.SenderEvent? && w.txSlots.queue != [] then [w.txSlots.Head()] else []
  }

  lemma TracesGrow(w: World, s: Step, seen: Seen)
    requires Agrees(w, seen)
    ensures AtReceiver(w, s, seen.atReceiver).received == seen.atReceiver.received + TakenByReceiver(w, s)
    ensures AtSender(w, s, seen.atSender).received == seen.atSender.received + TakenBySender(w, s)
  {
    hide Events, Overflows, Consistent;
  }

  lemma StepCounts(w: World, s: Step, seen: Seen)
    requires w.Valid() && Agrees(w, seen) && Counted(w, seen)
    ensures Counted(Apply(w, s), Seen(AtReceiver(w, s, seen.atReceiver), AtSender(w, s, seen.atSender)))
  {
    hide Apply, Bits, Consistent, Signals, Requests, Asked, AtReceiver, AtSender;
    TracesGrow(w, s, seen);
    StepCases(w, s);
    assert seen.atReceiver.received + [] == seen.atReceiver.received;
    assert seen.atSender.received + [] == seen.atSender.received;
    if !w.crashed {
      Traffic.CountersOfEvents(w, s);
      if w.rxSlots.queue != [] { OneMore(seen.atReceiver.received, w.rxSlots.Head()); }
      if w.txSlots.queue != [] { OneMore(seen.atSender.received, w.txSlots.Head()); }
    }
  }

  lemma {:induction false} RunCounts(w: World, steps: seq<Step>, seen: Seen)
    requires w.Valid() && Agrees(w, seen) && Counted(w, seen)
    ensures Counted(Exec(w, steps), Observing(w, steps, seen))
    decreases |steps|
  {
    hide Apply, Consistent, AtReceiver, AtSender, Counted;
    if steps != [] {
      var next := Seen(AtReceiver(w, steps[0], seen.atReceiver), AtSender(w, steps[0], seen.atSender));
      ReceiverAgrees(w, steps[0], seen.atReceiver);
      SenderAgrees(w, steps[0], seen.atSender);
      StepCounts(w, steps[0], seen);
      RunCounts(Apply(w, steps[0]), steps[1..], next);
    }
  }

  /** In every run with one content, the sub-packets sent and still to be sent are no more than the requests
      taken by the sender process asked for, and at most five whole packets go out per signal taken by the
      receiver process, and one more per copy of a request made by the network. */
  lemma ObservedTrafficBudget(steps: seq<Step>, c: Bytes)
    requires Registers(steps, c)
    ensures var w := Exec(INITIAL, steps);
            var seen := Observing(INITIAL, steps, Seen(START, START));
            && w.history.sent + |Bits(w.tx.mask)| <= Asked(seen.atSender.received)
            && w.history.sent <= (5 * Signals(seen.atReceiver.received) + w.history.copied) * Count(c)
  {
    hide Apply, Exec, Observing, Bits, Count;
    assert Consistent(START);
    RunCounts(INITIAL, steps, Seen(START, START));
    Traffic.TrafficBudget(steps, c);
  }
}
