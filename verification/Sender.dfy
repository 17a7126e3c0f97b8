/** The sending side: large_packet_register_tx, the suspended send loop, and the replies to requests
    that overwrite the shared transmit struct while the loop is suspended. */
module Sender {
  import opened Types
  import opened Messages
  import opened Fragments
  import opened Masks

  // large_packet_tx, large_packet_currently_sending, and the send process: suspended at its wait or not.
  datatype Tx = Tx(
    payload: Bytes, num: nat, id: uint16, period: uint16, mask: bv64,
    sending: bool, suspended: bool, status: int)
  {
    predicate Valid() {
      |payload| <= MAX_LENGTH && num == SubPacketCount(|payload|)
    }

    // Sending leaves the registered packet alone.
    predicate KeepsPacket(before: Tx) {
      payload == before.payload && num == before.num
    }
  }

  // What a step leaves behind and hands to the UDP layer.
  datatype Outcome = Outcome(tx: Tx, out: seq<Message>)

  const IDLE: Tx := Tx([], 0, 0, 0, 0, false, false, 0)

  // large_packet_register_tx
  function Register(tx: Tx, content: Bytes, id: uint16): Tx {
    if !Sendable(content) then tx
    else tx.(payload := content, num := SubPacketCount(|content|), id := id)
  }

  // A picked sub-packet; index and length stay 0 when nothing is found.
  datatype Picked = Picked(found: bool, index: nat, length: nat)

  // pick_next_to_send, from index i on
  function PickFrom(tx: Tx, i: nat): (p: Picked)
    ensures p.index < 64 && p.length <= SUB_MAX
    ensures !p.found ==> p == Picked(false, 0, 0)
    ensures p.found ==> p.index < tx.num && p.length == PickedLength(|tx.payload|, tx.num, p.index)
    decreases 64 - i
  {
    if i >= 64 || i >= tx.num then Picked(false, 0, 0)
    else if Bit(tx.mask, i) then Picked(true, i, PickedLength(|tx.payload|, tx.num, i))
    else PickFrom(tx, i + 1)
  }

  lemma {:induction false} PickIsLeastFrom(tx: Tx, i: nat)
    requires forall j <- Bits(tx.mask) :: j >= i
    ensures var p := PickFrom(tx, i);
            && (p.found ==> p.index in Bits(tx.mask))
            && (p.found ==> forall j <- Bits(tx.mask) :: p.index <= j)
            && (!p.found ==> p.index == p.length == 0 && forall j <- Bits(tx.mask) :: j >= tx.num)
    decreases 64 - i
  {
    hide Bit;
    if i < 64 && i < tx.num && !Bit(tx.mask, i) {
      PickIsLeastFrom(tx, i + 1);
    }
  }

  lemma PickIsLeast(tx: Tx)
    ensures var p := PickFrom(tx, 0);
            && (p.found ==> p.index in Bits(tx.mask) && forall j <- Bits(tx.mask) :: p.index <= j)
            && (!p.found ==> p.index == p.length == 0 && forall j <- Bits(tx.mask) :: j >= tx.num)
  {
    PickIsLeastFrom(tx, 0);
  }

  // The sub-packet that next_sub_packet_send sends. Nothing found means index 0 and no payload.
  function NextMessage(tx: Tx): (m: Message)
    requires tx.Valid()
    ensures m.SubPacket? && m.Valid() && m.id == tx.id && m.index < 64
  {
    var p := PickFrom(tx, 0);
    if p.found then
      PickedLengthIsFragmentLength(tx.payload, p.index);
      SubPacket(tx.id, p.index, tx.num, tx.payload[p.index * SUB_MAX..p.index * SUB_MAX + p.length])
    else
      SubPacket(tx.id, 0, tx.num, [])
  }

  // next_sub_packet_send: the sent index leaves the mask only when the UDP layer took the datagram.
  function NextSend(tx: Tx, ok: bool): (o: Outcome)
    requires tx.Valid()
    ensures o.tx.KeepsPacket(tx) && AllValid(o.out) && AllSubPackets(o.out)
  {
    var m := NextMessage(tx);
    if ok then Outcome(tx.(mask := Without(tx.mask, m.index), status := 0), [m])
    else Outcome(tx.(status := -1), [])
  }

  // large_packet_send_proc from its loop test to the next wait, or to its end.
  function LoopTest(tx: Tx, ok: bool): (o: Outcome)
    requires tx.Valid()
    ensures o.tx.KeepsPacket(tx) && AllValid(o.out) && AllSubPackets(o.out)
  {
    if tx.mask != 0 && tx.status >= 0 then
      var o := NextSend(tx, ok);
      o.(tx := o.tx.(suspended := true))
    else
      Outcome(tx.(sending := false, suspended := false), [])
  }

  // The timer of the suspended send loop expires.
  function Timer(tx: Tx, ok: bool): (o: Outcome)
    requires tx.Valid()
    ensures o.tx.KeepsPacket(tx) && AllValid(o.out) && AllSubPackets(o.out)
  {
    if tx.suspended then LoopTest(tx, ok) else Outcome(tx, [])
  }

  // large_packet_send: process_exit, then process_start, which runs to the first wait.
  function Send(tx: Tx, ok: bool): (o: Outcome)
    requires tx.Valid()
    ensures o.tx.KeepsPacket(tx) && AllValid(o.out) && AllSubPackets(o.out)
  {
    if tx.sending then Outcome(tx, [])
    else LoopTest(tx.(suspended := false, sending := true, status := 0), ok)
  }

  // reply_to_request_proc: the shared struct is overwritten also while a transfer is under way.
  function Reply(tx: Tx, r: Message, ok: bool): (o: Outcome)
    requires tx.Valid() && r.Request?
    ensures o.tx.KeepsPacket(tx) && AllValid(o.out) && AllSubPackets(o.out)
  {
    Send(tx.(id := r.id, mask := r.mask, period := r.period), ok)
  }

  // -------------------------------------------------------------------------
  // One iteration
  // -------------------------------------------------------------------------

  // Only indices of existing sub-packets are requested.
  ghost predicate InRange(tx: Tx) {
    Bits(tx.mask) <= Range(tx.num)
  }

  // The process state and the flag agree: there is one send loop, and a restart never kills it.
  ghost predicate OneLoop(tx: Tx) {
    tx.sending == tx.suspended
  }

  // Sub-packet i of a content, as sent under a requested id.
  function Part(content: Bytes, id: uint16, i: nat): Message
    requires |content| <= MAX_LENGTH && i < Count(content)
  {
    IndexInContent(content, i);
    SubPacket(id, i, Count(content), Fragment(content, i))
  }

  // The sub-packets with the given indices, in that order.
  function Parts(content: Bytes, id: uint16, indices: seq<nat>): seq<Message>
    requires |content| <= MAX_LENGTH && forall k | 0 <= k < |indices| :: indices[k] < Count(content)
  {
    if indices == [] then []
    else [Part(content, id, indices[0])] + Parts(content, id, indices[1..])
  }

  /** A successful iteration sends the least member of the mask and removes exactly it. */
  lemma NextSendIsExact(tx: Tx) returns (i: nat)
    requires tx.Valid() && InRange(tx) && tx.mask != 0
    ensures i in Bits(tx.mask) && i < 64 && i < tx.num && forall j <- Bits(tx.mask) :: i <= j
    ensures Bits(NextSend(tx, true).tx.mask) == Bits(tx.mask) - {i}
    ensures NextSend(tx, true).out == [Part(tx.payload, tx.id, i)]
  {
    hide Bits, Without;
    i := PickFrom(tx, 0).index;
    PickIsLeast(tx);
    assert PickFrom(tx, 0).found by {
      BitsZero(tx.mask);
      var j :| j in Bits(tx.mask);
    }
    PickedLengthIsFragmentLength(tx.payload, i);
    assert NextMessage(tx).payload == Fragment(tx.payload, i);
    BitsWithout(tx.mask, i);
  }

  /** When nothing that is requested exists, the iteration still sends sub-packet 0, empty, and nothing but
      index 0 leaves the mask. */
  lemma NothingFoundSendsEmpty(tx: Tx)
    requires tx.Valid() && forall i <- Bits(tx.mask) :: i >= tx.num
    ensures NextSend(tx, true).out == [SubPacket(tx.id, 0, tx.num, [])]
    ensures Bits(NextSend(tx, true).tx.mask) == Bits(tx.mask) - {0}
  {
    hide Bits, Without;
    PickIsLeast(tx);
    BitsWithout(tx.mask, 0);
  }

  /** A failed one leaves the mask alone and sends nothing, and the loop ends at its next test. */
  lemma FailedSendEndsLoop(tx: Tx, ok: bool)
    requires tx.Valid() && tx.suspended && tx.status >= 0 && tx.mask != 0
    ensures var failed := Timer(tx, false);
            && failed.out == [] && failed.tx.mask == tx.mask && failed.tx.suspended
            && Timer(failed.tx, ok) == Outcome(failed.tx.(sending := false, suspended := false), [])
  {
    hide NextMessage;
  }

  // -------------------------------------------------------------------------
  // The whole loop
  // -------------------------------------------------------------------------

  // k expiries of the send timer, with every send taken by the UDP layer.
  function Timers(tx: Tx, k: nat): (o: Outcome)
    requires tx.Valid()
    ensures o.tx.KeepsPacket(tx)
    decreases k
  {
    if k == 0 then Outcome(tx, [])
    else
      var o := Timer(tx, true);
      var rest := Timers(o.tx, k - 1);
      Outcome(rest.tx, o.out + rest.out)
  }

  // The members of a mask from index i on, in ascending order.
  function Ascending(m: bv64, i: nat): seq<nat>
    decreases 64 - i
  {
    if i >= 64 then []
    else if Bit(m, i) then [i] + Ascending(m, i + 1)
    else Ascending(m, i + 1)
  }

  // It lists each member exactly once, in order.
  lemma {:induction false} AscendingLists(m: bv64, i: nat)
    ensures forall j :: j in Ascending(m, i) <==> j in Bits(m) && j >= i
    ensures forall k, l :: 0 <= k < l < |Ascending(m, i)| ==> Ascending(m, i)[k] < Ascending(m, i)[l]
    decreases 64 - i
  {
    hide Bit;
    if i < 64 {
      AscendingLists(m, i + 1);
      assert i in Bits(m) <==> Bit(m, i);
      var rest := Ascending(m, i + 1);
      assert forall k | 0 <= k < |rest| :: rest[k] in rest;
      forall j ensures j in Ascending(m, i) <==> j in Bits(m) && j >= i {
        assert j in Ascending(m, i) <==> (Bit(m, i) && j == i) || j in rest;
      }
    } else {
      assert Ascending(m, i) == [];
      assert forall j <- Bits(m) :: j < 64;
    }
  }

  lemma {:induction false} AscendingAgrees(a: bv64, b: bv64, i: nat)
    requires forall j: nat :: j >= i ==> (j in Bits(a) <==> j in Bits(b))
    ensures Ascending(a, i) == Ascending(b, i)
    decreases 64 - i
  {
    hide Bit;
    if i < 64 {
      assert i in Bits(a) <==> i in Bits(b);
      AscendingAgrees(a, b, i + 1);
    }
  }

  lemma {:induction false} AscendingSkips(m: bv64, i: nat, j: nat)
    requires i <= j && forall k <- Bits(m) :: k < i || k >= j
    ensures Ascending(m, i) == Ascending(m, j)
    decreases j - i
  {
    hide Bit;
    if i < j {
      AscendingSkips(m, i + 1, j);
      assert i < 64 ==> i !in Bits(m);
    }
  }

  // Sending the least member leaves the rest of the list.
  lemma AscendingHead(m: bv64, i: nat)
    requires i < 64 && i in Bits(m) && forall j <- Bits(m) :: i <= j
    ensures Ascending(m, 0) == [i] + Ascending(Without(m, i), 0)
  {
    hide Bit, Without;
    BitsWithout(m, i);
    AscendingSkips(m, 0, i);
    AscendingSkips(Without(m, i), 0, i + 1);
    AscendingAgrees(m, Without(m, i), i + 1);
  }

  // The three ways through the loop test.
  lemma LoopTestCases(tx: Tx, ok: bool) returns (i: nat)
    requires tx.Valid() && InRange(tx)
    ensures tx.mask == 0 || tx.status < 0 ==>
      LoopTest(tx, ok) == Outcome(tx.(sending := false, suspended := false), [])
    ensures tx.mask != 0 && tx.status >= 0 && !ok ==>
      LoopTest(tx, ok) == Outcome(tx.(status := -1, suspended := true), [])
    ensures tx.mask != 0 && tx.status >= 0 && ok ==>
      && i < 64 && i < tx.num && i in Bits(tx.mask)
      && LoopTest(tx, ok) == Outcome(tx.(mask := Without(tx.mask, i), status := 0, suspended := true),
            [Part(tx.payload, tx.id, i)])
      && Bits(Without(tx.mask, i)) == Bits(tx.mask) - {i}
      && Ascending(tx.mask, 0) == [i] + Ascending(Without(tx.mask, i), 0)
  {
    hide Bits, Without, Ascending, PickFrom, Part;
    i := 0;
    if tx.mask != 0 {
      i := NextSendIsExact(tx);
      AscendingHead(tx.mask, i);
      assert NextMessage(tx).index == i by { PartIndex(tx.payload, tx.id, i); }
      BitsWithout(tx.mask, i);
    }
  }

  lemma PartIndex(content: Bytes, id: uint16, i: nat)
    requires |content| <= MAX_LENGTH && i < Count(content)
    ensures Part(content, id, i).SubPacket? && Part(content, id, i).index == i
  {
  }

  function Ended(tx: Tx): Tx {
    tx.(mask := 0, sending := false, suspended := false, status := if tx.mask == 0 then tx.status else 0)
  }

  lemma AscendingOfZero()
    ensures Ascending(0, 0) == []
  {
    hide Bits, Bit;
    BitsZero(0);
    AscendingSkips(0, 0, 64);
  }

  lemma TimerIsLoopTest(tx: Tx, ok: bool)
    requires tx.Valid() && tx.suspended
    ensures Timer(tx, ok) == LoopTest(tx, ok)
  {
    hide LoopTest;
  }

  lemma EmptyLoopEnds(tx: Tx, k: nat)
    requires tx.Valid() && tx.suspended && tx.mask == 0 && k > 0
    ensures Timers(tx, k) == Outcome(Ended(tx), [])
  {
    EndedStays(Timer(tx, true).tx, k - 1);
  }

  lemma TimersStep(tx: Tx, k: nat)
    requires tx.Valid() && k > 0
    ensures var o := Timer(tx, true);
            Timers(tx, k) == Outcome(Timers(o.tx, k - 1).tx, o.out + Timers(o.tx, k - 1).out)
  {
  }

  lemma PartsStep(content: Bytes, id: uint16, i: nat, rest: seq<nat>)
    requires |content| <= MAX_LENGTH && i < Count(content)
    requires forall k | 0 <= k < |rest| :: rest[k] < Count(content)
    ensures Parts(content, id, [i] + rest) == [Part(content, id, i)] + Parts(content, id, rest)
  {
    assert ([i] + rest)[1..] == rest;
  }

  // The members of a mask within range are indices of sub-packets.
  predicate AllBelow(indices: seq<nat>, n: nat) {
    forall k | 0 <= k < |indices| :: indices[k] < n
  }

  /** From a suspended loop: the members of the mask go out once each in ascending order, and the
      loop ends with an empty mask. */
  lemma {:induction false} LoopDrains(tx: Tx, k: nat)
    requires tx.Valid() && InRange(tx) && tx.suspended && tx.status >= 0
    requires k > |Bits(tx.mask)|
    ensures AllBelow(Ascending(tx.mask, 0), tx.num)
    ensures Timers(tx, k) == Outcome(Ended(tx), Parts(tx.payload, tx.id, Ascending(tx.mask, 0)))
    decreases k
  {
    hide Bits, Without, Part, Timer, Timers, Ascending, SubPacketCount, Range;
    if tx.mask == 0 {
      AscendingOfZero();
      EmptyLoopEnds(tx, k);
    } else {
      hide Parts, LoopTest;
      var i := LoopTestCases(tx, true);
      assert Timer(tx, true) == LoopTest(tx, true) by { TimerIsLoopTest(tx, true); }
      var next := Timer(tx, true).tx;
      LoopDrains(next, k - 1);
      TimersStep(tx, k);
      PartsStep(tx.payload, tx.id, i, Ascending(next.mask, 0));
    }
  }

  lemma {:induction false} EndedStays(tx: Tx, k: nat)
    requires tx.Valid() && !tx.suspended
    ensures Timers(tx, k) == Outcome(tx, [])
    decreases k
  {
    if k > 0 {
      EndedStays(tx, k - 1);
    }
  }

  // The payloads of sub-packets, laid end to end.
  function Payloads(ms: seq<Message>): Bytes
    requires AllSubPackets(ms)
  {
    if ms == [] then [] else ms[0].payload + Payloads(ms[1..])
  }

  function Upward(i: nat, n: nat): (r: seq<nat>)
    ensures AllBelow(r, n)
    ensures |r| == if i < n then n - i else 0
    ensures forall k | 0 <= k < |r| :: r[k] == i + k
    decreases n - i
  {
    if i >= n then [] else [i] + Upward(i + 1, n)
  }

  // What a whole transfer still has to carry from index i on.
  lemma {:induction false} RestOfWhole(content: Bytes, id: uint16, i: nat)
    requires Sendable(content) && i <= Count(content)
    ensures var ms := Parts(content, id, Upward(i, Count(content)));
            && AllSubPackets(ms)
            && Payloads(ms) == content[if i * SUB_MAX <= |content| then i * SUB_MAX else |content|..]
    decreases Count(content) - i
  {
    CountBounds(content);
    if i < Count(content) {
      RestOfWhole(content, id, i + 1);
      PartsStep(content, id, i, Upward(i + 1, Count(content)));
      IndexInContent(content, i);
      IndexInContent(content, i + 1);
    }
  }

  lemma {:induction false} WholeAscends(n: nat, i: nat)
    requires i <= n <= 64
    ensures Ascending(Whole(n), i) == Upward(i, n)
    decreases 64 - i
  {
    hide Bit, Whole;
    BitsWhole(n);
    if i == n {
      AscendingSkips(Whole(n), n, 64);
    } else {
      WholeAscends(n, i + 1);
      assert i in Bits(Whole(n));
    }
  }

  /** Fragmentation identity: a transfer of the whole mask sends n sub-packets whose payloads
      concatenate to the registered content. */
  lemma WholeTransferCarriesContent(tx: Tx, k: nat)
    requires tx.Valid() && Sendable(tx.payload) && tx.suspended && tx.status >= 0
    requires tx.num <= 64 && tx.mask == Whole(tx.num) && k > tx.num
    ensures var ms := Timers(tx, k).out;
            && AllSubPackets(ms)
            && (forall j | 0 <= j < |ms| :: ms[j].index == j && 1 <= |ms[j].payload| <= SUB_MAX)
            && |ms| == tx.num && Payloads(ms) == tx.payload
  {
    hide Bits, Timers, Ascending, Payloads, Parts;
    BitsWhole(tx.num);
    LoopDrains(tx, k);
    RestOfWhole(tx.payload, tx.id, 0);
    WholeAscends(tx.num, 0);
    PartsAt(tx.payload, tx.id, Ascending(tx.mask, 0));
  }

  lemma {:induction false} PartsAt(content: Bytes, id: uint16, indices: seq<nat>)
    requires |content| <= MAX_LENGTH && AllBelow(indices, Count(content))
    ensures var ms := Parts(content, id, indices);
            && |ms| == |indices| && AllSubPackets(ms)
            && forall j | 0 <= j < |ms| :: ms[j].index == indices[j] && 1 <= |ms[j].payload| <= SUB_MAX
  {
    if indices != [] {
      PartsAt(content, id, indices[1..]);
      PickedLengthIsFragmentLength(content, indices[0]);
    }
  }

  // -------------------------------------------------------------------------
  // Requests that arrive while the loop is busy
  // -------------------------------------------------------------------------

  // Neither a failed send is waiting to end the loop, nor do the flag and the process disagree.
  ghost predicate Healthy(tx: Tx) {
    tx.Valid() && OneLoop(tx) && (tx.suspended ==> tx.status >= 0)
  }

  /** Busy-request absorption: whether the loop is idle or suspended (and large_packet_send returns
      -1), exactly the requested sub-packets go out, once each, in ascending order. */
  lemma RequestIsAbsorbed(tx: Tx, r: Message, k: nat)
    requires Healthy(tx) && r.Request? && Bits(r.mask) <= Range(tx.num) && k > |Bits(r.mask)|
    ensures AllBelow(Ascending(r.mask, 0), tx.num)
    ensures var o := Reply(tx, r, true);
            var d := Timers(o.tx, k);
            && o.out + d.out == Parts(tx.payload, r.id, Ascending(r.mask, 0))
            && d.tx.mask == 0 && !d.tx.sending && !d.tx.suspended
            && o.tx.period == d.tx.period == r.period && o.tx.id == d.tx.id == r.id
  {
    hide Bits, Timer, Timers, Parts, Ascending;
    var asked := tx.(id := r.id, mask := r.mask, period := r.period);
    if tx.sending {
      LoopDrains(asked, k);
    } else {
      var started := asked.(sending := true, suspended := true, status := 0);
      StartIsTimer(asked, true);
      LoopDrains(started, k + 1);
      TimersStep(started, k + 1);
    }
  }

  // Starting the loop is the same as a first expiry of a loop that has nothing behind it.
  lemma StartIsTimer(tx: Tx, ok: bool)
    requires tx.Valid() && !tx.sending
    ensures Send(tx, ok) == Timer(tx.(sending := true, suspended := true, status := 0), ok)
  {
    hide Without, PickFrom, SubPacketCount, PickedLength;
    var started := tx.(sending := true, suspended := false, status := 0);
    PickDependsOnMask(started, started.(suspended := true), 0);
  }

  lemma {:induction false} PickDependsOnMask(a: Tx, b: Tx, i: nat)
    requires a.payload == b.payload && a.num == b.num && a.mask == b.mask
    ensures PickFrom(a, i) == PickFrom(b, i)
    decreases 64 - i
  {
    hide Bit;
    if i < 64 {
      PickDependsOnMask(a, b, i + 1);
    }
  }

  /** A request that meets a loop whose last send failed is lost: nothing goes out for it. */
  lemma RequestIsLostAfterFailure(tx: Tx, r: Message, ok: bool, k: nat)
    requires tx.Valid() && OneLoop(tx) && tx.suspended && tx.status < 0 && r.Request? && k > 0
    ensures var o := Reply(tx, r, ok);
            o.out + Timers(o.tx, k).out == [] && Timers(o.tx, k).tx.mask == r.mask && !Timers(o.tx, k).tx.sending
  {
    var asked := tx.(id := r.id, mask := r.mask, period := r.period);
    assert Reply(tx, r, ok) == Outcome(asked, []);
    var ended := asked.(sending := false, suspended := false);
    assert Timer(asked, true) == Outcome(ended, []);
    TimersStep(asked, k);
    EndedStays(ended, k - 1);
  }

  // -------------------------------------------------------------------------
  // When the loop ends at all
  // -------------------------------------------------------------------------

  // Without a registered packet, index 0 is sent with no payload, and bit 0 is the one cleared.
  function EffectiveCount(num: nat): nat {
    if num == 0 then 1 else num
  }

  lemma {:induction false} HighBitKeepsLoop(tx: Tx, high: nat, k: nat)
    requires tx.Valid() && tx.suspended && tx.status >= 0 && high in Bits(tx.mask) && high >= EffectiveCount(tx.num)
    ensures Timers(tx, k).tx.suspended
    decreases k
  {
    hide Bits, Without;
    if k > 0 {
      BitsZero(tx.mask);
      PickIsLeast(tx);
      var p := PickFrom(tx, 0);
      BitsWithout(tx.mask, p.index);
      HighBitKeepsLoop(Timer(tx, true).tx, high, k - 1);
    }
  }

  lemma {:induction false} UnregisteredLoopEnds(tx: Tx)
    requires tx.Valid() && tx.suspended && tx.status >= 0 && tx.num == 0 && Bits(tx.mask) <= {0}
    ensures !Timers(tx, 2).tx.suspended
  {
    hide Bits, Without;
    var next := Timer(tx, true).tx;
    TimersStep(tx, 2);
    TimersStep(next, 1);
    if tx.mask == 0 {
      EndedStays(next, 1);
    } else {
      BitsWithout(tx.mask, 0);
      BitsZero(Without(tx.mask, 0));
    }
  }

  /** Send-loop termination, exactly: with sends that succeed, the loop ends if and only if it was
      asked only for sub-packets that exist. */
  lemma LoopEndsIffInRange(tx: Tx)
    requires tx.Valid() && tx.suspended && tx.status >= 0
    ensures (exists k: nat :: !Timers(tx, k).tx.suspended) <==> Bits(tx.mask) <= Range(EffectiveCount(tx.num))
  {
    hide Bits, Timers;
    if Bits(tx.mask) <= Range(EffectiveCount(tx.num)) {
      if tx.num == 0 {
        assert Range(1) == {0};
        UnregisteredLoopEnds(tx);
      } else {
        var k := |Bits(tx.mask)| + 1;
        LoopDrains(tx, k);
        assert !Timers(tx, k).tx.suspended;
      }
    } else {
      var high :| high in Bits(tx.mask) && high !in Range(EffectiveCount(tx.num));
      forall k: nat ensures Timers(tx, k).tx.suspended { HighBitKeepsLoop(tx, high, k); }
    }
  }
}
