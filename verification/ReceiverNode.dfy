/** The receiving node as the source writes it: one struct and one storage buffer, updated in place. */
module ReceiverNode {
  import opened Types
  import opened Messages
  import opened Fragments
  import opened Masks
  import opened Receiver
  import Listener

  class ReceiverNode {
    // large_packet_payload_storage and large_packet_rx, whose payload always points at it
    const storage: array<bv8>
    var len: uint16
    var id: uint16
    var period: uint16
    var mask: bv64
    var num: uint8
    // large_packet_receive_proc: waiting for an event, rx_done, re_tx_requests_left
    var alive: bool
    var rxDone: bool
    var requestsLeft: nat
    // how often event_lp_received was posted
    var posted: nat

    ghost predicate Valid()
      reads this
    {
      storage.Length == STORAGE && num <= 64
    }

    ghost function State(): Rx
      reads this, storage
      requires Valid()
    {
      Rx(storage[..], len, num, id, period, mask, alive, rxDone, requestsLeft, posted)
    }

    // mira_setup
    constructor ()
      ensures Valid() && fresh(storage)
      ensures State() == IDLE
    {
      storage := new bv8[STORAGE](_ => 0);
      len, id, period, num := 0, 0, 0, 0;
      mask := 0;
      alive, rxDone, requestsLeft, posted := false, false, 0, 0;
      new;
      assert storage[..] == Zeros(STORAGE);
    }

    // lpreq_send
    method LpreqSend(packetId: uint16, subPacketMask: bv64, periodMs: uint16, udpOk: bool) returns (sent: seq<Bytes>)
      ensures sent == Datagrams(Sent(Request(packetId, subPacketMask, periodMs), udpOk))
    {
      hide Pack;
      var buffer := new bv8[14];
      Listener.PackRequest(buffer, packetId, subPacketMask, periodMs);
      DatagramsOfOne(Request(packetId, subPacketMask, periodMs));
      sent := if udpOk then [buffer[..]] else [];
    }

    // request_for_missing_subpackets
    method RequestForMissingSubpackets(udpOk: bool) returns (sent: seq<Bytes>)
      ensures sent == Datagrams(Sent(Request(id, Missing(mask, num), period), udpOk))
    {
      hide And, Xor, Low;
      var request := Xor(mask, ALL_ONES);
      if num < 64 {
        request := And(request, Low(num));
      }
      sent := LpreqSend(id, request, period, udpOk);
    }

    // signal_to_request_proc, from one signal to the next wait
    method OnSignalEvent(signal: Message, udpOk: bool) returns (sent: seq<Bytes>)
      requires Valid() && signal.Signal?
      modifies this
      ensures Valid() && State() == OnSignal(old(State()), signal, udpOk).rx
      ensures sent == Datagrams(OnSignal(old(State()), signal, udpOk).out)
    {
      hide Whole;
      var whole := WholeMaskGet(signal.n);
      if whole.status < 0 {
        return [];
      }
      len, id, period, mask, num := 0, signal.id, REQUEST_PERIOD, 0, signal.n;
      sent := LpreqSend(signal.id, whole.mask, REQUEST_PERIOD, udpOk);
      // process_exit, then process_start of the receive process, which runs to its first wait
      requestsLeft := RE_REQUESTS;
      rxDone := false;
      alive := true;
    }

    // large_packet_receive_proc woken by its timer
    method OnTimerExpired(udpOk: bool) returns (sent: seq<Bytes>)
      requires Valid()
      modifies this
      ensures Valid() && State() == OnTimeout(old(State()), udpOk).rx
      ensures sent == Datagrams(OnTimeout(old(State()), udpOk).out)
    {
      hide Missing;
      sent := [];
      if alive {
        if requestsLeft > 0 {
          sent := RequestForMissingSubpackets(udpOk);
          requestsLeft := requestsLeft - 1;
        } else {
          alive := false;
        }
      }
    }

    // large_packet_receive_proc woken by a sub-packet event before its timer
    method OnSubPacketEvent(m: Message, fault: bool)
      requires Valid() && StoresSafely(State(), m, fault)
      modifies this, storage
      ensures Valid() && State() == OnSubPacket(old(State()), m, fault)
    {
      hide With, Whole;
      if !alive || fault {
        return;
      }
      if m.id != id {
        alive := false;
        return;
      }
      Listener.MemCopy(storage, m.index * SUB_MAX, m.payload);
      assert storage[..] == Write(old(storage[..]), m.index, m.payload);
      len := (len + |m.payload|) % 0x1_0000;
      mask := With(mask, m.index);
      var allDone := Whole(m.n);
      rxDone := mask == allDone;
      if rxDone {
        // the loop ends and event_lp_received is posted
        alive := false;
        posted := posted + 1;
      }
    }
  }
}
