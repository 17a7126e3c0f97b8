/** Left-overs that never arrive do not matter: a run beside them is the same run without them. */
module Beside {
  import opened Types
  import opened Messages
  import opened Fragments
  import opened Slots
  import opened Network
  import opened Safety
  import opened Recovery
  import opened Completion
  import S = Sender
  import R = Receiver

  // The system with more requests and replies in flight.
  function Joined(w: World, requests: multiset<Bytes>, replies: multiset<Bytes>): World {
    w.(toSender := w.toSender + requests, toReceiver := w.toReceiver + replies)
  }

  // The step takes none of them: a datagram that it hears, loses or copies is in flight without them, or not
  // among them.
  predicate Apart(w: World, s: Step, requests: multiset<Bytes>, replies: multiset<Bytes>) {
    match s
    case SenderHears(d, _) => d in w.toSender || d !in requests
    case LoseRequest(d) => d in w.toSender || d !in requests
    case DuplicateRequest(d) => d in w.toSender || d !in requests
    case ReceiverHears(d, _) => d in w.toReceiver || d !in replies
    case LoseReply(d) => d in w.toReceiver || d !in replies
    case DuplicateReply(d) => d in w.toReceiver || d !in replies
    case _ => true
  }

  predicate AllApart(w: World, steps: seq<Step>, requests: multiset<Bytes>, replies: multiset<Bytes>)
    requires w.Valid()
    decreases |steps|
  {
    || steps == []
    || (Apart(w, steps[0], requests, replies) && AllApart(Apply(w, steps[0]), steps[1..], requests, replies))
  }

  lemma TransmitBeside(w: World, o: S.Outcome, requests: multiset<Bytes>, replies: multiset<Bytes>)
    requires AllValid(o.out)
    ensures Transmit(Joined(w, requests, replies), o) == Joined(Transmit(w, o), requests, replies)
  {
    hide Pack;
    var out := multiset(Datagrams(o.out));
    assert (w.toReceiver + replies) + out == (w.toReceiver + out) + replies;
  }

  lemma AskBeside(w: World, o: R.Outcome, requests: multiset<Bytes>, replies: multiset<Bytes>)
    requires AllValid(o.out)
    ensures Ask(Joined(w, requests, replies), o) == Joined(Ask(w, o), requests, replies)
  {
    hide Pack;
    var out := multiset(Datagrams(o.out));
    assert (w.toSender + requests) + out == (w.toSender + out) + requests;
  }

  lemma NotifyBeside(w: World, content: Bytes, ok: bool, requests: multiset<Bytes>, replies: multiset<Bytes>)
    requires w.Valid()
    ensures NotifyStep(Joined(w, requests, replies), content, ok)
         == Joined(NotifyStep(w, content, ok), requests, replies)
  {
    hide Pack;
    if Sendable(content) {
      CountBounds(content);
      var out := multiset(Datagrams(R.Sent(Signal(w.packetId, Count(content)), ok)));
      assert (w.toReceiver + replies) + out == (w.toReceiver + out) + replies;
    }
  }

  lemma SenderEventBeside(w: World, ok: bool, requests: multiset<Bytes>, replies: multiset<Bytes>)
    requires w.Valid()
    ensures SenderEventStep(Joined(w, requests, replies), ok) == Joined(SenderEventStep(w, ok), requests, replies)
  {
    hide Transmit, S.Reply;
    if w.txSlots.queue != [] && w.txSlots.Head().Request? {
      TransmitBeside(TakeRequest(w), S.Reply(w.tx, w.txSlots.Head(), ok), requests, replies);
    }
  }

  lemma ReceiverEventBeside(w: World, expired: bool, fault: bool, ok: bool, requests: multiset<Bytes>,
                            replies: multiset<Bytes>)
    requires w.Valid()
    ensures ReceiverEventStep(Joined(w, requests, replies), expired, fault, ok)
         == Joined(ReceiverEventStep(w, expired, fault, ok), requests, replies)
  {
    hide Ask, R.OnSignal, R.OnTimeout, R.OnSubPacket, R.StoresSafely;
    if w.rxSlots.queue != [] {
      var m, popped := w.rxSlots.Head(), w.(rxSlots := w.rxSlots.Pop());
      if m.Signal? {
        var heard := popped.(history := w.history.(signals := w.history.signals + 1));
        AskBeside(heard, R.OnSignal(w.rx, m, ok), requests, replies);
      } else if m.SubPacket? && expired {
        AskBeside(popped, R.OnTimeout(w.rx, ok), requests, replies);
      }
    }
  }

  // The steps of the network, and datagrams that arrive.
  lemma NetworkBeside(w: World, s: Step, requests: multiset<Bytes>, replies: multiset<Bytes>)
    requires w.Valid() && !w.crashed && Apart(w, s, requests, replies)
    requires !s.Notify? && !s.SendTimer? && !s.SenderEvent? && !s.ReceiverEvent? && !s.ReceiveTimer?
    ensures Apply(Joined(w, requests, replies), s) == Joined(Apply(w, s), requests, replies)
  {
    hide Events, Overflows;
    var d := s.d;
    if s.SenderHears? || s.LoseRequest? || s.DuplicateRequest? {
      TakenBeside(w.toSender, requests, d);
    } else {
      TakenBeside(w.toReceiver, replies, d);
    }
  }

  lemma TakenBeside(net: multiset<Bytes>, more: multiset<Bytes>, d: Bytes)
    requires d in net || d !in more
    ensures (net + more) - multiset{d} == (net - multiset{d}) + more
    ensures (net + more) + multiset{d} == (net + multiset{d}) + more
    ensures d in net + more <==> d in net
  {
  }

  lemma StepBeside(w: World, s: Step, requests: multiset<Bytes>, replies: multiset<Bytes>)
    requires w.Valid() && Apart(w, s, requests, replies)
    ensures Apply(Joined(w, requests, replies), s) == Joined(Apply(w, s), requests, replies)
  {
    var more := Joined(w, requests, replies);
    StepCases(w, s);
    StepCases(more, s);
    hide Apply, NotifyStep, SenderEventStep, ReceiverEventStep, Transmit, Ask, S.Timer, R.OnTimeout;
    if !w.crashed {
      if s.Notify? {
        NotifyBeside(w, s.content, s.ok, requests, replies);
      } else if s.SendTimer? {
        TransmitBeside(w, S.Timer(w.tx, s.ok), requests, replies);
      } else if s.SenderEvent? {
        SenderEventBeside(w, s.ok, requests, replies);
      } else if s.ReceiverEvent? {
        ReceiverEventBeside(w, s.expired, s.fault, s.ok, requests, replies);
      } else if s.ReceiveTimer? {
        AskBeside(w, R.OnTimeout(w.rx, s.ok), requests, replies);
      } else {
        NetworkBeside(w, s, requests, replies);
      }
    }
  }

  /** In every run, datagrams in flight that are never heard change nothing: neither node sees a difference. */
  lemma {:induction false} RunBeside(w: World, steps: seq<Step>, requests: multiset<Bytes>, replies: multiset<Bytes>)
    requires w.Valid() && AllApart(w, steps, requests, replies)
    ensures Exec(Joined(w, requests, replies), steps) == Joined(Exec(w, steps), requests, replies)
    decreases |steps|
  {
    hide Apply, Apart, Joined;
    JoinedIsValid(w, requests, replies);
    if steps != [] {
      StepBeside(w, steps[0], requests, replies);
      RunBeside(Apply(w, steps[0]), steps[1..], requests, replies);
    }
  }

  lemma JoinedIsValid(w: World, requests: multiset<Bytes>, replies: multiset<Bytes>)
    ensures Joined(w, requests, replies).Valid() <==> w.Valid()
  {
  }

  lemma {:induction false} PresentIsApart(w: World, steps: seq<Step>, requests: multiset<Bytes>,
                                          replies: multiset<Bytes>)
    requires w.Valid() && AllPresent(w, steps)
    ensures AllApart(w, steps, requests, replies)
    decreases |steps|
  {
    hide Apply;
    if steps != [] {
      PresentIsApart(Apply(w, steps[0]), steps[1..], requests, replies);
    }
  }

  /** Recovery beside left-overs: whatever is in flight of other packet ids, and whatever partial requests,
      when the session starts, as long as it never arrives. */
  lemma SessionRecoversBeside(w: World, start: Step, before: seq<Step>, now: World, after: seq<Step>, c: Bytes,
                              requests: multiset<Bytes>, replies: multiset<Bytes>)
    requires Reached(w, start, before, now, c)
    requires now.rx.alive && now.txSlots.queue != [] && (now.tx.suspended ==> now.tx.status >= 0)
    requires AllLossless(Apply(now, SenderEvent(true)), after, c)
    requires w.Valid() && AllApart(w, [start] + before + [SenderEvent(true)] + after, requests, replies)
    ensures var steps := [start] + before + [SenderEvent(true)] + after;
            var end := Exec(Joined(w, requests, replies), steps);
            Quiet(Exec(w, steps)) ==>
              end.rx.done && end.rx.posted == w.rx.posted + 1 && Sendable(c) && c <= end.rx.storage
  {
    var steps := [start] + before + [SenderEvent(true)] + after;
    StepsInTurn(w, start, before, now, after, c);
    hide Apply, Exec, Reached, AllLossless, Quiet, AllApart;
    SessionRecovers(w, start, before, now, after, c);
    RunBeside(w, steps, requests, replies);
  }

  lemma StepsInTurn(w: World, start: Step, before: seq<Step>, now: World, after: seq<Step>, c: Bytes)
    requires Reached(w, start, before, now, c) && w.Valid()
    ensures Exec(w, [start] + before + [SenderEvent(true)] + after) == Exec(Apply(now, SenderEvent(true)), after)
  {
    hide Apply, Inv, Starting, AllUndisturbing;
    ExecAppend(w, [start] + before + [SenderEvent(true)], after);
    ExecAppend(w, [start] + before, [SenderEvent(true)]);
    ExecFirst(w, start, before);
    ExecOne(now, SenderEvent(true));
  }

  /** The same of a re-request: beside any left-overs that do not arrive, one that gets through is enough. */
  lemma ReRequestCompletesBeside(w: World, start: Step, before: seq<Step>, now: World, c: Bytes,
                                 requests: multiset<Bytes>, replies: multiset<Bytes>) returns (after: seq<Step>)
    requires Reached(w, start, before, now, c) && w.Valid() && AllApart(w, [start] + before, requests, replies)
    requires now.rx.alive && now.rx.left > 0 && (now.tx.suspended ==> now.tx.status >= 0)
    ensures var beside := Exec(Joined(w, requests, replies), [start] + before);
            var end := Exec(Exec(beside, ReRequest(now.rx)), after);
            beside.rx == now.rx
            && end.rx.done && end.rx.posted == w.rx.posted + 1 && Sendable(c) && c <= end.rx.storage
  {
    ExecFirst(w, start, before);
    hide Apply, Exec, Inv, Starting, AllUndisturbing, AllLossless, AllPresent, AllApart, Work, ReRequest;
    after := ReRequestCompletes(w, start, before, now, c);
    var served := Exec(now, ReRequest(now.rx));
    RunBeside(w, [start] + before, requests, replies);
    PresentIsApart(now, ReRequest(now.rx), requests, replies);
    RunBeside(now, ReRequest(now.rx), requests, replies);
    PresentIsApart(served, after, requests, replies);
    RunBeside(served, after, requests, replies);
  }

  // -------------------------------------------------------------------------
  // Losses and copies
  // -------------------------------------------------------------------------

  /** Left-overs that never arrive are the same as left-overs that are lost, */
  lemma {:induction false} LostIsNeverHeard(w: World, requests: multiset<Bytes>, replies: multiset<Bytes>)
    returns (steps: seq<Step>)
    requires w.Valid() && !w.crashed
    ensures JoinedIsFine(w, requests, replies) && Exec(Joined(w, requests, replies), steps) == w
    ensures forall k | 0 <= k < |steps| :: steps[k].LoseRequest? || steps[k].LoseReply?
    decreases |requests| + |replies|
  {
    hide Apply, Exec;
    JoinedIsValid(w, requests, replies);
    var more := Joined(w, requests, replies);
    if d :| d in requests {
      LoseOne(w, requests, replies, d);
      assert |requests - multiset{d}| == |requests| - 1;
      var rest := LostIsNeverHeard(w, requests - multiset{d}, replies);
      steps := [LoseRequest(d)] + rest;
      ExecFirst(more, LoseRequest(d), rest);
    } else if d :| d in replies {
      LoseOne(w, requests, replies, d);
      assert |replies - multiset{d}| == |replies| - 1;
      var rest := LostIsNeverHeard(w, requests, replies - multiset{d});
      steps := [LoseReply(d)] + rest;
      ExecFirst(more, LoseReply(d), rest);
    } else {
      steps := [];
      assert requests == replies == multiset{};
      ExecNothing(more);
    }
  }

  predicate JoinedIsFine(w: World, requests: multiset<Bytes>, replies: multiset<Bytes>) {
    Joined(w, requests, replies).Valid()
  }

  lemma LosesOne(w: World, d: Bytes)
    requires w.Valid() && !w.crashed
    ensures Apply(w, LoseRequest(d)) == w.(toSender := w.toSender - multiset{d})
    ensures Apply(w, LoseReply(d)) == w.(toReceiver := w.toReceiver - multiset{d})
  {
  }

  lemma LoseOne(w: World, requests: multiset<Bytes>, replies: multiset<Bytes>, d: Bytes)
    requires w.Valid() && !w.crashed
    ensures d in requests ==>
      Apply(Joined(w, requests, replies), LoseRequest(d)) == Joined(w, requests - multiset{d}, replies)
    ensures d in replies ==>
      Apply(Joined(w, requests, replies), LoseReply(d)) == Joined(w, requests, replies - multiset{d})
  {
    hide Apply;
    LosesOne(Joined(w, requests, replies), d);
    TakenFromMore(w.toSender, requests, d);
    TakenFromMore(w.toReceiver, replies, d);
  }

  lemma TakenFromMore(net: multiset<Bytes>, more: multiset<Bytes>, d: Bytes)
    ensures d in more ==> (net + more) - multiset{d} == net + (more - multiset{d})
  {
  }

  /** and a copy made by the network is one left-over more. */
  lemma CopyIsOneMore(w: World, d: Bytes)
    requires w.Valid() && !w.crashed
    ensures d in w.toReceiver ==> Apply(w, DuplicateReply(d)) == Joined(w, multiset{}, multiset{d})
    ensures d in w.toSender ==>
      Apply(w, DuplicateRequest(d)).(history := w.history) == Joined(w, multiset{d}, multiset{})
  {
  }
}
