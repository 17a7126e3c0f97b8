/** Why the registered content must stay the same: replies carry the requested id with whatever content
    is registered now. */
module Mislabelling {
  import opened Types
  import opened Messages
  import opened Fragments
  import opened Masks
  import opened Slots
  import opened Network
  import opened Safety
  import opened Overwrite
  import opened Recovery
  import opened Completion
  import S = Sender
  import R = Receiver

  // The run registers one content first, under packet id 0, and another one ever after.
  ghost predicate RegistersInTurn(steps: seq<Step>, a: Bytes, b: Bytes) {
    && steps != [] && steps[0].Notify? && steps[0].content == a
    && forall k | 0 < k < |steps| :: steps[k].Notify? ==> steps[k].content == b
  }

  // What is delivered under id 0 is the content registered under it.
  ghost predicate AsLabelled(steps: seq<Step>, a: Bytes) {
    var rx := Exec(INITIAL, steps).rx;
    rx.done && rx.id == 0 ==> a <= rx.storage
  }

  ghost predicate Delivers(steps: seq<Step>, b: Bytes) {
    var rx := Exec(INITIAL, steps).rx;
    rx.done && rx.id == 0 && b <= rx.storage
  }

  ghost predicate DeliversAsLabelled(a: Bytes, b: Bytes) {
    forall steps :: RegistersInTurn(steps, a, b) ==> AsLabelled(steps, a)
  }

  // Nothing tells the receiver's session for one content from a session for another of the same count.
  lemma RegisteringSwaps(w: World, a: Bytes, b: Bytes, id: uint16, posts: nat)
    requires InSession(w, a, id, posts) && Sendable(b) && Count(a) == Count(b)
    requires w.rx.alive && w.rx.mask == 0 && w.rxSlots.queue == [] && w.toReceiver == multiset{} && w.tx.mask == 0
    ensures var next := Apply(w, Notify(b, false));
            && InSession(next, b, id, posts) && next.rx == w.rx && next.tx.suspended == w.tx.suspended
  {
    hide Events, Covers;
    BitsZero(0);
    hide Bits;
    CountBounds(b);
    assert Datagrams([]) == [];
  }

  /** Changing the content under way is never safe: for two contents of one count, a run that registers one
      after the other can deliver the second under the id of the first. So for contents of one length every
      delivery under the first id is the first content if and only if the contents are equal. */
  lemma LabelsNeedFixedContent(a: Bytes, b: Bytes)
    requires Sendable(a) && Sendable(b) && Count(a) == Count(b)
    ensures exists steps :: RegistersInTurn(steps, a, b) && Delivers(steps, b)
    ensures |a| == |b| ==> (DeliversAsLabelled(a, b) <==> a == b)
    ensures |a| < |b| && !(a <= b) ==> !DeliversAsLabelled(a, b)
  {
    hide Exec, Apply, InSession, RegistersInTurn;
    var another := DeliverAnother(a, b);
    if a == b {
      forall steps | RegistersInTurn(steps, a, b) ensures AsLabelled(steps, a) {
        SameContentIsSafe(steps, a);
      }
    }
  }

  lemma SameContentIsSafe(steps: seq<Step>, a: Bytes)
    requires RegistersInTurn(steps, a, a)
    ensures AsLabelled(steps, a)
  {
    hide Apply, Bits;
    InitialInv(a);
    RunKeeps(INITIAL, steps, a);
    if Exec(INITIAL, steps).rx.done {
      R.DoneMeansContent(Exec(INITIAL, steps).rx, a);
    }
  }

  // A run that delivers b under the id of a.
  lemma DeliverAnother(a: Bytes, b: Bytes) returns (steps: seq<Step>)
    requires Sendable(a) && Sendable(b) && Count(a) == Count(b)
    ensures RegistersInTurn(steps, a, b) && Delivers(steps, b)
  {
    hide Apply, InSession, Pack, Missing, AllLossless, Work;
    SessionIsSetUp(a);
    var w := Exec(INITIAL, Signalled(a));
    RegisteringSwaps(w, a, b, 0, 0);
    var swapped := Apply(w, Notify(b, false));
    var after := ReRequestDelivers(swapped, b, 0, 0);
    var served := Exec(swapped, ReRequest(swapped.rx));
    LosslessRegisters(served, after, b);
    steps := Signalled(a) + ([Notify(b, false)] + (ReRequest(swapped.rx) + after));
    ExecAppend(INITIAL, Signalled(a), [Notify(b, false)] + (ReRequest(swapped.rx) + after));
    ExecAppend(w, [Notify(b, false)], ReRequest(swapped.rx) + after);
    ExecAppend(swapped, ReRequest(swapped.rx), after);
    ExecOne(w, Notify(b, false));
  }

  // -------------------------------------------------------------------------
  // When another content may be registered
  // -------------------------------------------------------------------------

  // No session lives, and nothing of the old packet is under way.
  ghost predicate Settled(w: World) {
    && !w.rx.alive && w.tx.mask == 0
    && w.txSlots.queue == [] && w.rxSlots.queue == []
    && w.toSender == multiset{} && w.toReceiver == multiset{}
  }

  // Nothing under way tells the registered content from another one: the requests ask for sub-packets that
  // both have, and what is in flight, waits or has been received by a live session fits the other one too.
  ghost predicate FitsToo(w: World, b: Bytes) {
    && Bits(w.tx.mask) <= Range(Count(b))
    && RequestsQueued(w.txSlots, b) && RequestsInFlight(w.toSender, b)
    && RepliesQueued(w.rxSlots, b) && RepliesInFlight(w.toReceiver, b)
    && (w.rx.alive ==> R.Session(w.rx, b))
  }

  // A session that has ended counts no more: its rx_done is not read again.
  function Forget(w: World): World {
    if w.rx.alive then w else w.(rx := w.rx.(done := false))
  }

  lemma InvForgets(w: World, c: Bytes)
    requires Inv(w, c)
    ensures Inv(Forget(w), c)
  {
    hide Events, Bits, RepliesInFlight, RequestsInFlight, RequestsQueued, RepliesQueued, GoodSender, R.Session;
  }

  // A step after the end of a session does the same whatever was forgotten.
  lemma AsideForgets(w: World, s: Step)
    requires w.Valid() && !w.rx.alive
    requires !s.Notify? && !s.SenderEvent? && !s.ReceiverEvent? && !s.ReceiveTimer?
    ensures Apply(Forget(w), s) == Apply(w, s).(rx := Forget(w).rx) && Apply(w, s).rx == w.rx
  {
    hide Events, Bits, Carry, Overflows, S.Timer;
  }

  lemma NotifyForgets(w: World, content: Bytes, ok: bool)
    requires w.Valid() && !w.rx.alive
    ensures NotifyStep(Forget(w), content, ok) == NotifyStep(w, content, ok).(rx := Forget(w).rx)
    ensures NotifyStep(w, content, ok).rx == w.rx
  {
    hide Carry, S.Register;
  }

  lemma SenderEventForgets(w: World, ok: bool)
    requires w.Valid() && !w.rx.alive
    ensures SenderEventStep(Forget(w), ok) == SenderEventStep(w, ok).(rx := Forget(w).rx)
  {
    hide Bits, Carry, S.Reply;
  }

  lemma TimeoutForgets(w: World, ok: bool)
    requires w.Valid() && !w.rx.alive
    ensures var asked := Ask(w, R.OnTimeout(w.rx, ok));
            Ask(Forget(w), R.OnTimeout(Forget(w).rx, ok)) == asked.(rx := Forget(w).rx) && asked.rx == w.rx
  {
    hide Missing, Pack;
  }

  lemma SignalForgets(rx: R.Rx, s: Message, ok: bool)
    requires s.Signal? && !rx.alive
    ensures var o, o' := R.OnSignal(rx, s, ok), R.OnSignal(rx.(done := false), s, ok);
            && o.out == o'.out && o.rx.posted == rx.posted
            && (if o.rx.alive then o.rx == o'.rx else o.rx == rx && o'.rx == rx.(done := false))
  {
    hide Whole;
  }

  lemma ReceiverEventForgets(w: World, expired: bool, fault: bool, ok: bool)
    requires w.Valid() && !w.rx.alive
    ensures var next := ReceiverEventStep(w, expired, fault, ok);
            && Forget(next) == Forget(ReceiverEventStep(Forget(w), expired, fault, ok))
            && next.rx.posted == w.rx.posted
  {
    hide Bits, Carry, R.OnTimeout, R.OnSignal, R.Store, R.Fits;
    if w.rxSlots.queue != [] {
      var m, popped := w.rxSlots.Head(), w.(rxSlots := w.rxSlots.Pop());
      if m.Signal? {
        SignalForgets(w.rx, m, ok);
      } else if m.SubPacket? && expired {
        hide Ask;
        TimeoutForgets(popped, ok);
      }
    }
  }

  lemma ForgetCommutes(w: World, s: Step)
    requires w.Valid() && !w.rx.alive
    ensures Forget(Apply(w, s)) == Forget(Apply(Forget(w), s))
    ensures Apply(w, s).rx.posted == w.rx.posted
  {
    StepCases(w, s);
    StepCases(Forget(w), s);
    hide Apply, Ask, Carry, R.OnTimeout, NotifyStep, SenderEventStep, ReceiverEventStep;
    if w.crashed {
    } else if s.Notify? {
      NotifyForgets(w, s.content, s.ok);
    } else if s.SenderEvent? {
      SenderEventForgets(w, s.ok);
    } else if s.ReceiverEvent? {
      ReceiverEventForgets(w, s.expired, s.fault, s.ok);
    } else if s.ReceiveTimer? {
      TimeoutForgets(w, s.ok);
    } else {
      AsideForgets(w, s);
    }
  }

  // The invariant for a content, up to what is left of ended sessions.
  ghost predicate Renewed(w: World, b: Bytes) {
    w.Valid() && Inv(Forget(w), b)
  }

  lemma StepRenewed(w: World, s: Step, b: Bytes)
    requires Renewed(w, b) && (s.Notify? ==> s.content == b)
    ensures Renewed(Apply(w, s), b)
    ensures var next := Apply(w, s);
            next.rx.posted != w.rx.posted ==> next.rx.done && Sendable(b) && b <= next.rx.storage
  {
    hide Apply, Inv;
    if w.rx.alive {
      StepKeeps(w, s, b);
      InvForgets(Apply(w, s), b);
      PostMeansDone(w, s);
      DoneIsContent(Apply(w, s), b);
    } else {
      StepKeeps(Forget(w), s, b);
      InvForgets(Apply(Forget(w), s), b);
      ForgetCommutes(w, s);
    }
  }

  lemma DoneIsContent(w: World, c: Bytes)
    requires Inv(w, c)
    ensures w.rx.done ==> Sendable(c) && c <= w.rx.storage
  {
    hide Bits, Events;
    if w.rx.done {
      R.DoneMeansContent(w.rx, c);
    }
  }

  lemma {:induction false} RunRenewed(w: World, steps: seq<Step>, b: Bytes)
    requires Renewed(w, b) && w.Valid() && Registers(steps, b)
    ensures Renewed(Exec(w, steps), b)
    decreases |steps|
  {
    hide Renewed, Apply;
    if steps != [] {
      StepRenewed(w, steps[0], b);
      RunRenewed(Apply(w, steps[0]), steps[1..], b);
    }
  }

  lemma SettledFits(w: World, a: Bytes, b: Bytes)
    requires Inv(w, a) && Settled(w)
    ensures FitsToo(w, b)
  {
    hide Bits, R.Session, GoodSender;
    BitsZero(0);
    SlotsAreValid(w, a);
  }

  lemma SlotsAreValid(w: World, a: Bytes)
    requires Inv(w, a)
    ensures w.txSlots.Valid() && w.rxSlots.Valid() && w.rx.Valid() && w.rx.left <= R.RE_REQUESTS && S.OneLoop(w.tx)
  {
    hide Events, Bits, R.Session;
  }

  /** The same invariant holds for another content from its registration on exactly when nothing under way
      tells it from the old one. */
  lemma RenewedIffFitsToo(w: World, a: Bytes, b: Bytes, ok: bool)
    requires Inv(w, a) && w.Valid() && Sendable(b)
    ensures Renewed(Apply(w, Notify(b, ok)), b) <==> FitsToo(w, b)
  {
    hide Bits, Pack, Events, R.Session, Carry, RequestsQueued, RequestsInFlight, RepliesQueued, RepliesInFlight;
    CountBounds(b);
    SlotsAreValid(w, a);
    var out := R.Sent(Signal(w.packetId, Count(b)), ok);
    CarryKeeps(w.toReceiver, out);
    var next := Apply(w, Notify(b, ok));
    if RepliesInFlight(w.toReceiver, b) {
      CarryReplies(w.toReceiver, out, b);
    } else if RepliesInFlight(next.toReceiver, b) {
      FewerReplies(next.toReceiver, w.toReceiver, b);
    }
  }

  /** Another content, of any length, may be registered at any time when nothing under way tells it from the
      old one (in particular once all is settled): in every run from there on, whatever is posted is the new
      content. */
  lemma AnotherContentWhenItFits(w: World, a: Bytes, b: Bytes, ok: bool, steps: seq<Step>, next: Step)
    requires Inv(w, a) && w.Valid() && (FitsToo(w, b) || Settled(w)) && Sendable(b) && Registers(steps + [next], b)
    ensures var now := Exec(Apply(w, Notify(b, ok)), steps);
            var end := Apply(now, next);
            && !now.crashed
            && (end.rx.posted != now.rx.posted ==> end.rx.done && b <= end.rx.storage)
  {
    hide Apply, Inv, Settled, FitsToo;
    if Settled(w) { SettledFits(w, a, b); }
    RenewedIffFitsToo(w, a, b, ok);
    var named := Apply(w, Notify(b, ok));
    assert Registers(steps, b) by {
      assert forall k | 0 <= k < |steps| :: (steps + [next])[k] == steps[k];
    }
    assert (steps + [next])[|steps|] == next;
    RunRenewed(named, steps, b);
    StepRenewed(Exec(named, steps), next, b);
    InvIsSafe(Forget(Exec(named, steps)), b);
  }
}
