/** How much a receiver can make the sender transmit. */
module Traffic {
  import opened Types
  import opened Messages
  import opened Fragments
  import opened Masks
  import opened Slots
  import opened Network
  import opened Safety
  import S = Sender
  import R = Receiver

  // -------------------------------------------------------------------------
  // The counters count what happens in the network and the slots
  // -------------------------------------------------------------------------

  function Grown(before: multiset<Bytes>, after: multiset<Bytes>): int {
    |after| - |before|
  }

  /** The counters are what they are called: sub-packets and requests that entered the network, */
  lemma CountersOfDatagrams(w: World, s: Step)
    requires w.Valid()
    ensures var next := Apply(w, s);
            && next.history.sent - w.history.sent
               == (if s.SendTimer? || s.SenderEvent? then Grown(w.toReceiver, next.toReceiver) else 0)
            && next.history.requests - w.history.requests
               == (if s.ReceiveTimer? || s.ReceiverEvent? then Grown(w.toSender, next.toSender) else 0)
            && next.history.copied - w.history.copied
               == (if s.DuplicateRequest? then Grown(w.toSender, next.toSender) else 0)
  {
    hide Events, Overflows, Bits, Carry, S.Timer, S.Reply, S.Register, R.OnTimeout, R.OnSignal, R.OnSubPacket;
    CarrySize(w.toReceiver, S.Timer(w.tx, true).out);
    CarrySize(w.toReceiver, S.Timer(w.tx, false).out);
    CarrySize(w.toSender, R.OnTimeout(w.rx, true).out);
    CarrySize(w.toSender, R.OnTimeout(w.rx, false).out);
    if s.SenderEvent? && w.txSlots.queue != [] && w.txSlots.Head().Request? {
      CarrySize(w.toReceiver, S.Reply(w.tx, w.txSlots.Head(), s.ok).out);
    }
    if s.ReceiverEvent? && w.rxSlots.queue != [] && w.rxSlots.Head().Signal? {
      CarrySize(w.toSender, R.OnSignal(w.rx, w.rxSlots.Head(), s.ok).out);
    }
  }

  /** and the signals and requests that reached a process, with what the requests asked for. */
  lemma CountersOfEvents(w: World, s: Step)
    requires w.Valid() && !w.crashed
    ensures var next := Apply(w, s);
            var served := s.SenderEvent? && w.txSlots.queue != [] && w.txSlots.Head().Request?;
            var heard := s.ReceiverEvent? && w.rxSlots.queue != [] && w.rxSlots.Head().Signal?;
            && next.history.taken == w.history.taken + (if served then 1 else 0)
            && next.history.asked == w.history.asked + (if served then |Bits(w.txSlots.Head().mask)| else 0)
            && next.history.signals == w.history.signals + (if heard then 1 else 0)
  {
    hide Events, Overflows, Bits, Carry, S.Timer, S.Reply, S.Register, R.OnTimeout, R.OnSignal, R.OnSubPacket;
  }

  // -------------------------------------------------------------------------
  // The budget
  // -------------------------------------------------------------------------

  // Requests that were sent or can still be sent by the current session.
  function Owed(rx: R.Rx): nat {
    if rx.alive then rx.left else 0
  }

  ghost predicate Budget(w: World, c: Bytes) {
    var h := w.history;
    && h.sent + |Bits(w.tx.mask)| <= h.asked
    && h.asked <= Count(c) * h.taken
    && h.taken + |w.txSlots.queue| + |w.toSender| <= h.requests + h.copied
    && h.requests + Owed(w.rx) <= 5 * h.signals
  }

  lemma MaskSize(r: Message, c: Bytes)
    requires GoodRequest(r, c)
    ensures |Bits(r.mask)| <= Count(c)
  {
    hide Bits;
    SubsetSize(Bits(r.mask), Range(Count(c)));
  }

  lemma TransmitBudget(w: World, o: S.Outcome, c: Bytes)
    requires AllValid(o.out) && Budget(w, c) && |o.out| + |Bits(o.tx.mask)| <= |Bits(w.tx.mask)|
    ensures Budget(Transmit(w, o), c)
  {
    hide Bits;
  }

  lemma AskBudget(w: World, o: R.Outcome, c: Bytes)
    requires AllValid(o.out) && Budget(w, c) && |o.out| + Owed(o.rx) <= Owed(w.rx)
    ensures Budget(Ask(w, o), c)
  {
    hide Bits;
    CarrySize(w.toSender, o.out);
  }

  lemma TimeoutBudget(rx: R.Rx, ok: bool)
    ensures |R.OnTimeout(rx, ok).out| + Owed(R.OnTimeout(rx, ok).rx) <= Owed(rx)
  {
    hide Missing;
  }

  lemma ServedBudget(w: World, o: S.Outcome, c: Bytes)
    requires AllValid(o.out) && Budget(w, c) && w.txSlots.queue != [] && w.txSlots.Head().Request?
    requires |o.out| + |Bits(o.tx.mask)| == |Bits(w.txSlots.Head().mask)| <= Count(c)
    ensures Budget(Transmit(TakeRequest(w), o), c)
  {
    hide Bits, Count, Carry;
    Distribute(Count(c), w.history.taken);
  }

  lemma Distribute(n: nat, k: nat)
    ensures n * (k + 1) == n * k + n
  {
  }

  lemma SenderEventBudget(w: World, c: Bytes, ok: bool)
    requires Running(w, c) && w.Valid() && Budget(w, c)
    ensures Budget(SenderEventStep(w, ok), c)
  {
    hide Bits, Budget, Transmit, TakeRequest, S.Reply, RequestsQueued, RepliesQueued, RepliesInFlight;
    hide RequestsInFlight, GoodReceiver;
    if w.txSlots.queue != [] {
      PopKeeps(w.txSlots, c);
      MaskSize(w.txSlots.Head(), c);
      ReplyKeeps(w.tx, w.txSlots.Head(), c, ok);
      ServedBudget(w, S.Reply(w.tx, w.txSlots.Head(), ok), c);
    }
  }

  lemma ReceiverEventBudget(w: World, c: Bytes, expired: bool, fault: bool, ok: bool)
    requires w.Valid() && Budget(w, c)
    ensures Budget(ReceiverEventStep(w, expired, fault, ok), c)
  {
    hide Bits, R.OnTimeout, R.Store, Whole;
    if w.rxSlots.queue != [] {
      var m := w.rxSlots.Head();
      var next := w.(rxSlots := w.rxSlots.Pop());
      if m.Signal? {
        var o := R.OnSignal(w.rx, m, ok);
        CarrySize(w.toSender, o.out);
      } else if m.SubPacket? && expired {
        TimeoutBudget(w.rx, ok);
        AskBudget(next, R.OnTimeout(w.rx, ok), c);
      } else if m.SubPacket? && R.StoresSafely(w.rx, m, fault) {
        if R.Fits(m) {
          R.StoreOutcome(w.rx, m);
        }
      }
    }
  }

  lemma SenderHearsBudget(w: World, d: Bytes, room: bool, c: Bytes)
    requires w.Valid() && Budget(w, c)
    ensures Budget(Apply(w, SenderHears(d, room)), c)
  {
    hide Bits, Events, Overflows;
    ArriveIsOnePut(w.txSlots, d, room);
    if d in w.toSender {
      assert |w.toSender - multiset{d}| == |w.toSender| - 1;
    }
  }

  // A step that serves and sends nothing, and lets no session ask for more.
  lemma FrameBudget(w: World, next: World, c: Bytes)
    requires Budget(w, c) && next.history == w.history && next.rx == w.rx && next.tx.mask == w.tx.mask
    requires |next.txSlots.queue| + |next.toSender| <= |w.txSlots.queue| + |w.toSender|
    ensures Budget(next, c)
  {
    hide Bits, Count;
  }

  // What the remaining steps change.
  lemma StepAside(w: World, s: Step)
    requires w.Valid() && (s.Notify? || s.ReceiverHears? || s.LoseRequest? || s.LoseReply? || s.DuplicateReply?)
    ensures var next := Apply(w, s);
            && next.history == w.history && next.rx == w.rx && next.tx.mask == w.tx.mask && next.txSlots == w.txSlots
            && |next.toSender| <= |w.toSender|
  {
    hide Events, Overflows, Bits, Carry;
    if s.LoseRequest? {
      assert |w.toSender - multiset{s.d}| <= |w.toSender|;
    }
  }

  lemma StepBudget(w: World, s: Step, c: Bytes)
    requires Inv(w, c) && Budget(w, c) && (s.Notify? ==> s.content == c)
    ensures Budget(Apply(w, s), c)
  {
    hide Budget, Running, Silent, Apply;
    StepCases(w, s);
    if s.SendTimer? {
      SendTimerBudget(w, c, s.ok);
    } else if s.ReceiveTimer? {
      TimeoutBudget(w.rx, s.ok);
      AskBudget(w, R.OnTimeout(w.rx, s.ok), c);
    } else if s.SenderEvent? {
      if Silent(w) {
        SilentStaysIdle(w, s.ok);
      } else {
        SenderEventBudget(w, c, s.ok);
      }
    } else if s.ReceiverEvent? {
      ReceiverEventBudget(w, c, s.expired, s.fault, s.ok);
    } else if s.SenderHears? {
      SenderHearsBudget(w, s.d, s.room, c);
    } else if s.DuplicateRequest? {
      CopyBudget(w, s.d, c);
    } else {
      StepAside(w, s);
      FrameBudget(w, Apply(w, s), c);
    }
  }

  lemma CopyBudget(w: World, d: Bytes, c: Bytes)
    requires Budget(w, c) && w.Valid()
    ensures Budget(Apply(w, DuplicateRequest(d)), c)
  {
    hide Bits, Count;
    assert |w.toSender + multiset{d}| == |w.toSender| + 1;
  }

  lemma SilentStaysIdle(w: World, ok: bool)
    requires Silent(w) && w.Valid()
    ensures SenderEventStep(w, ok) == w
  {
  }

  lemma SendTimerBudget(w: World, c: Bytes, ok: bool)
    requires Inv(w, c) && Budget(w, c)
    ensures Budget(Transmit(w, S.Timer(w.tx, ok)), c)
  {
    hide Budget, Bits, S.Timer, Transmit, RequestsQueued, RepliesQueued, RepliesInFlight, RequestsInFlight;
    hide GoodReceiver;
    if Running(w, c) {
      TimerKeeps(w.tx, c, ok);
    } else {
      SilentTimer(w, ok);
    }
    TransmitBudget(w, S.Timer(w.tx, ok), c);
  }

  lemma SilentTimer(w: World, ok: bool)
    requires Silent(w)
    ensures S.Timer(w.tx, ok) == S.Outcome(w.tx, [])
  {
  }

  lemma {:induction false} RunBudget(w: World, steps: seq<Step>, c: Bytes)
    requires Inv(w, c) && Budget(w, c) && Registers(steps, c)
    ensures Inv(Exec(w, steps), c) && Budget(Exec(w, steps), c)
    decreases |steps|
  {
    hide Inv, Budget, Apply;
    if steps != [] {
      InvIsValid(w, c);
      StepBudget(w, steps[0], c);
      StepKeeps(w, steps[0], c);
      InvIsValid(Apply(w, steps[0]), c);
      RunBudget(Apply(w, steps[0]), steps[1..], c);
    }
  }

  lemma {:induction false} CopiesOnlyByNetwork(w: World, steps: seq<Step>)
    requires w.Valid() && forall k | 0 <= k < |steps| :: !steps[k].DuplicateRequest?
    ensures Exec(w, steps).history.copied == w.history.copied
    decreases |steps|
  {
    hide Apply;
    if steps != [] {
      StepCopiesNothing(w, steps[0]);
      CopiesOnlyByNetwork(Apply(w, steps[0]), steps[1..]);
    }
  }

  lemma StepCopiesNothing(w: World, s: Step)
    requires w.Valid() && !s.DuplicateRequest?
    ensures Apply(w, s).history.copied == w.history.copied
  {
    hide Events, Overflows, Bits, Carry, S.Timer, S.Reply, S.Register, R.OnTimeout, R.OnSignal, R.OnSubPacket;
  }

  /** Traffic budget, in every run: the sub-packets sent and those still to be sent are paid for by the
      requests served, and in all at most five whole packets go out per signal that reached the receiver,
      and one more per copy of a request made by the network, whatever is overwritten, aborted or lost. */
  lemma TrafficBudget(steps: seq<Step>, c: Bytes)
    requires Registers(steps, c)
    ensures var w := Exec(INITIAL, steps);
            var h := w.history;
            && h.sent + |Bits(w.tx.mask)| <= h.asked
            && h.sent <= (5 * h.signals + h.copied) * Count(c)
            && ((forall k | 0 <= k < |steps| :: !steps[k].DuplicateRequest?) ==> h.sent <= 5 * h.signals * Count(c))
  {
    hide Bits, Exec, Count, Inv;
    InitialInv(c);
    BitsZero(0);
    RunBudget(INITIAL, steps, c);
    BudgetBounds(Exec(INITIAL, steps), c);
    if forall k | 0 <= k < |steps| :: !steps[k].DuplicateRequest? {
      CopiesOnlyByNetwork(INITIAL, steps);
    }
  }

  lemma BudgetBounds(w: World, c: Bytes)
    requires Budget(w, c)
    ensures var h := w.history;
            && h.sent + |Bits(w.tx.mask)| <= h.asked
            && h.sent <= (5 * h.signals + h.copied) * Count(c)
            && (h.copied == 0 ==> h.sent <= 5 * h.signals * Count(c))
  {
    hide Bits, Count;
    var h := w.history;
    Multiply(Count(c), h.taken, 5 * h.signals + h.copied);
  }

  lemma Multiply(n: nat, a: nat, b: nat)
    requires a <= b
    ensures n * a <= b * n
  {
  }
}
