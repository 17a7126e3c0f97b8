/** The sending node as the source writes it: a shared struct whose fields are overwritten in place. */
module SenderNode {
  import opened Types
  import opened Messages
  import opened Fragments
  import opened Masks
  import opened Sender
  import Listener

  lemma SliceOfPrefix(s: Bytes, n: nat, lo: nat, hi: nat)
    requires lo <= hi <= n <= |s|
    ensures s[..n][lo..hi] == s[lo..hi]
  {
  }

  class SenderNode {
    // large_packet_tx
    var payload: array<bv8>
    var len: uint16
    var id: uint16
    var period: uint16
    var mask: bv64
    var num: uint8
    // large_packet_currently_sending
    var currentlySending: bool
    // large_packet_send_proc: waiting for its timer, and the result of its last send
    var suspended: bool
    var status: int

    ghost predicate Valid()
      reads this
    {
      len as int <= payload.Length && len <= MAX_LENGTH && num == SubPacketCount(len)
    }

    ghost function State(): Tx
      reads this, payload
      requires Valid()
    {
      Tx(payload[..len], num, id, period, mask, currentlySending, suspended, status)
    }

    // large_packet_init, on a zeroed struct
    constructor ()
      ensures Valid() && State() == IDLE
    {
      payload := new bv8[0];
      len, id, period, num := 0, 0, 0, 0;
      mask := 0;
      currentlySending, suspended, status := false, false, 0;
    }

    // large_packet_register_tx
    method RegisterTx(packetId: uint16, content: array<bv8>, length: uint16) returns (ret: int)
      requires Valid() && length as int <= content.Length
      modifies this
      ensures Valid() && State() == Register(old(State()), content[..length], packetId)
      ensures ret == if 1 <= SubPacketCount(length) <= 64 then 0 else -1
      ensures ret < 0 ==> unchanged(this)
    {
      SendableIffCounted(content[..length]);
      if length == 0 {
        return -1;
      }
      if length > SUB_MAX * MAX_SUBS {
        return -1;
      }
      payload, len, id := content, length, packetId;
      num := len / SUB_MAX + if len % SUB_MAX != 0 then 1 else 0;
      ret := 0;
    }

    // pick_next_to_send
    method PickNextToSend() returns (p: Picked)
      requires Valid()
      ensures p == PickFrom(State(), 0)
    {
      hide Bit;
      p := Picked(false, 0, 0);
      var i := 0;
      while !p.found && i < MAX_SUBS && i < num
        invariant i <= 64
        invariant !p.found ==> p == Picked(false, 0, 0) && PickFrom(State(), i) == PickFrom(State(), 0)
        invariant p.found ==> p == PickFrom(State(), 0)
        decreases 64 - i
      {
        if Bit(mask, i) {
          var length := SUB_MAX;
          if i == num - 1 {
            length := len % SUB_MAX;
            if length == 0 {
              length := SUB_MAX;
            }
          }
          p := Picked(true, i, length);
        }
        i := i + 1;
      }
    }

    // lpsp_send: the frame on its way to the UDP layer
    method LpspSend(packetId: uint16, index: uint8, n: uint8, data: Bytes) returns (frame: Bytes)
      requires |data| < 0x1_0000
      ensures frame == Pack(SubPacket(packetId, index, n, data))
    {
      var buffer := new bv8[8 + |data|];
      Listener.PackSubPacket(buffer, packetId, index, n, data);
      frame := buffer[..];
    }

    // next_sub_packet_send; its test for a sub-packet of more than 330 bytes never fires
    method NextSubPacketSend(udpOk: bool) returns (ret: int, sent: seq<Bytes>)
      requires Valid()
      modifies this`mask
      ensures Valid() && ret == NextSend(old(State()), udpOk).tx.status
      ensures State() == NextSend(old(State()), udpOk).tx.(status := status)
      ensures sent == Datagrams(NextSend(old(State()), udpOk).out)
    {
      hide Bit, Without, Pack, PickFrom;
      ghost var tx := State();
      var p := PickNextToSend();
      assert p.length <= SUB_MAX;
      var data: Bytes := [];
      if p.found {
        PickedLengthIsFragmentLength(tx.payload, p.index);
        var start := p.index * SUB_MAX;
        data := payload[start..start + p.length];
        SliceOfPrefix(payload[..], len, start, start + p.length);
      }
      ghost var m := SubPacket(id, p.index, num, data);
      assert NextMessage(tx) == m;
      var frame := LpspSend(id, p.index, num, data);
      DatagramsOfOne(m);
      if udpOk {
        mask := Without(mask, p.index);
        return 0, [frame];
      }
      return -1, [];
    }

    // large_packet_send_proc, from its loop test to the next wait or to its end
    method SendLoop(udpOk: bool) returns (sent: seq<Bytes>)
      requires Valid()
      modifies this`mask, this`status, this`suspended, this`currentlySending
      ensures Valid() && State() == LoopTest(old(State()), udpOk).tx
      ensures sent == Datagrams(LoopTest(old(State()), udpOk).out)
    {
      hide PickFrom, Without, Pack;
      sent := [];
      if mask != 0 && status >= 0 {
        status, sent := NextSubPacketSend(udpOk);
        suspended := true;
      } else {
        currentlySending, suspended := false, false;
      }
    }

    method TimerExpired(udpOk: bool) returns (sent: seq<Bytes>)
      requires Valid()
      modifies this
      ensures Valid() && State() == Timer(old(State()), udpOk).tx
      ensures sent == Datagrams(Timer(old(State()), udpOk).out)
    {
      sent := [];
      if suspended {
        sent := SendLoop(udpOk);
      }
    }

    // large_packet_send
    method LargePacketSend(udpOk: bool) returns (ret: int, sent: seq<Bytes>)
      requires Valid()
      modifies this
      ensures Valid() && State() == Send(old(State()), udpOk).tx
      ensures sent == Datagrams(Send(old(State()), udpOk).out)
      ensures ret == if old(currentlySending) then -1 else 0
    {
      if currentlySending {
        return -1, [];
      }
      // process_exit, then process_start, which runs to the first wait
      suspended := false;
      currentlySending := true;
      status := 0;
      sent := SendLoop(udpOk);
      ret := 0;
    }

    // reply_to_request_proc
    method ReplyToRequest(r: Message, udpOk: bool) returns (sent: seq<Bytes>)
      requires Valid() && r.Request?
      modifies this
      ensures Valid() && State() == Reply(old(State()), r, udpOk).tx
      ensures sent == Datagrams(Reply(old(State()), r, udpOk).out)
    {
      hide PickFrom, Without, Pack, LoopTest;
      id := r.id;
      mask := r.mask;
      period := r.period;
      var ret;
      ret, sent := LargePacketSend(udpOk);
    }
  }
}
