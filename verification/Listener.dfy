/** The packers, unpackers and handlers on byte buffers, as the source writes them. */
module Listener {
  import opened Types
  import opened Fields
  import opened Messages
  import opened Slots
  import LE = LittleEndian

  // memcpy into a buffer
  method MemCopy(dst: array<bv8>, at: nat, src: Bytes)
    requires at + |src| <= dst.Length
    modifies dst
    ensures dst[..] == old(dst[..at]) + src + old(dst[at + |src|..])
  {
    for i := 0 to |src|
      invariant dst[..at] == old(dst[..at])
      invariant dst[at..at + i] == src[..i]
      invariant dst[at + |src|..] == old(dst[at + |src|..])
    {
      dst[at + i] := src[i];
    }
  }

  // One field appended at the buffer pointer.
  method StoreField(buffer: array<bv8>, at: nat, w: LE.Width, v: bv64, ghost before: Bytes)
    requires at + w <= buffer.Length && buffer[..at] == before
    modifies buffer
    ensures buffer[..at + w] == before + LE.Stored(v, w)
  {
    LE.Store(buffer, at, w, v);
    assert buffer[..at + w] == buffer[..][..at + w];
  }

  // lpsig_pack_buffer
  method PackSignal(buffer: array<bv8>, id: uint16, n: uint8)
    requires buffer.Length == 5
    modifies buffer
    ensures buffer[..] == Pack(Signal(id, n))
  {
    hide LE.Stored, Byte, Half, Byte64, Half64;
    MemCopy(buffer, 0, SIGNAL_HEADER);
    assert buffer[..2] == SIGNAL_HEADER;
    StoreField(buffer, 2, 2, Half64(Half(id)), SIGNAL_HEADER);
    StoreField(buffer, 4, 1, Byte64(Byte(n)), SIGNAL_HEADER + Put16(id));
    assert buffer[..] == buffer[..5];
  }

  // lpreq_pack_buffer
  method PackRequest(buffer: array<bv8>, id: uint16, mask: bv64, period: uint16)
    requires buffer.Length == 14
    modifies buffer
    ensures buffer[..] == Pack(Request(id, mask, period))
  {
    hide LE.Stored, Byte, Half, Byte64, Half64;
    MemCopy(buffer, 0, REQUEST_HEADER);
    assert buffer[..2] == REQUEST_HEADER;
    StoreField(buffer, 2, 2, Half64(Half(id)), REQUEST_HEADER);
    StoreField(buffer, 4, 8, mask, REQUEST_HEADER + Put16(id));
    StoreField(buffer, 12, 2, Half64(Half(period)), REQUEST_HEADER + Put16(id) + Put64(mask));
    assert buffer[..] == buffer[..14];
  }

  // lpsp_pack_buffer
  method PackSubPacket(buffer: array<bv8>, id: uint16, index: uint8, n: uint8, payload: Bytes)
    requires |payload| < 0x1_0000 && buffer.Length == 8 + |payload|
    modifies buffer
    ensures buffer[..] == Pack(SubPacket(id, index, n, payload))
  {
    hide LE.Stored, Byte, Half, Byte64, Half64;
    MemCopy(buffer, 0, SUB_PACKET_HEADER);
    assert buffer[..2] == SUB_PACKET_HEADER;
    StoreField(buffer, 2, 2, Half64(Half(id)), SUB_PACKET_HEADER);
    StoreField(buffer, 4, 1, Byte64(Byte(index)), SUB_PACKET_HEADER + Put16(id));
    StoreField(buffer, 5, 1, Byte64(Byte(n)), SUB_PACKET_HEADER + Put16(id) + Put8(index));
    StoreField(buffer, 6, 2, Half64(Half(|payload|)), SUB_PACKET_HEADER + Put16(id) + Put8(index) + Put8(n));
    var start: Bytes := SUB_PACKET_HEADER + Put16(id) + Put8(index) + Put8(n) + Put16(|payload|);
    label L:
    MemCopy(buffer, 8, payload);
    assert old@L(buffer[8 + |payload|..]) == [];
    assert buffer[..] == start + payload;
  }

  // lpsig_unpack_buffer: the length reaches it through an 8-bit parameter.
  method UnpackSignalBuffer(buffer: array<bv8>, len: uint8) returns (status: int, n: uint8, id: uint16)
    requires len as int <= buffer.Length
    ensures status == if len == 5 then 0 else -1
    ensures status == 0 ==> id == Get16(buffer[2..4]) && n == Get8(buffer[4..5])
  {
    hide LE.Loaded, ByteValue, LowByte, HalfValue, LowHalf;
    n, id := 0, 0;
    if len != 5 {
      return -1, n, id;
    }
    var p := LE.Load(buffer, 2, 2);
    id := HalfValue(LowHalf(p));
    p := LE.Load(buffer, 4, 1);
    n := ByteValue(LowByte(p));
    status := 0;
  }

  // lpreq_unpack_buffer: the length reaches it through an 8-bit parameter.
  method UnpackRequestBuffer(buffer: array<bv8>, len: uint8)
    returns (status: int, id: uint16, mask: bv64, period: uint16)
    requires len as int <= buffer.Length
    ensures status == if len == 14 then 0 else -1
    ensures status == 0 ==> id == Get16(buffer[2..4]) && mask == Get64(buffer[4..12])
    ensures status == 0 ==> period == Get16(buffer[12..14])
  {
    hide LE.Loaded, HalfValue, LowHalf;
    id, mask, period := 0, 0, 0;
    if len != 14 {
      return -1, id, mask, period;
    }
    var p := LE.Load(buffer, 2, 2);
    id := HalfValue(LowHalf(p));
    mask := LE.Load(buffer, 4, 8);
    p := LE.Load(buffer, 12, 2);
    period := HalfValue(LowHalf(p));
    status := 0;
  }

  // lpsp_unpack_buffer reads its eight header bytes before it looks at the length, so the receive
  // buffer must hold eight bytes; what stands beyond the datagram has no influence on the result.
  method UnpackSubPacketBuffer(buffer: array<bv8>, len: uint16, payload: array<bv8>)
    returns (status: int, id: uint16, index: uint8, n: uint8, payloadLen: uint16)
    requires buffer != payload && buffer.Length >= 8 && len as int <= buffer.Length
    requires var m := UnpackSubPacket(buffer[..len]);
             m.Some? ==> |m.value.payload| <= payload.Length
    modifies payload
    ensures status == if UnpackSubPacket(buffer[..len]).Some? then 0 else -1
    ensures status == 0 ==> payloadLen as int <= payload.Length
    ensures status == 0 ==> UnpackSubPacket(buffer[..len]) == Some(SubPacket(id, index, n, payload[..payloadLen]))
    ensures status == 0 ==> payload[payloadLen..] == old(payload[payloadLen..])
    ensures status != 0 ==> payload[..] == old(payload[..])
  {
    hide LE.Loaded, ByteValue, LowByte, HalfValue, LowHalf;
    var p := LE.Load(buffer, 2, 2);
    id := HalfValue(LowHalf(p));
    p := LE.Load(buffer, 4, 1);
    index := ByteValue(LowByte(p));
    p := LE.Load(buffer, 5, 1);
    n := ByteValue(LowByte(p));
    p := LE.Load(buffer, 6, 2);
    payloadLen := HalfValue(LowHalf(p));
    ghost var d := buffer[..len];
    assert len >= 8 ==> d[2..4] == buffer[2..4] && d[4..5] == buffer[4..5];
    assert len >= 8 ==> d[5..6] == buffer[5..6] && d[6..8] == buffer[6..8];
    if len != 8 + payloadLen {
      status := -1;
    } else {
      var bytes := buffer[8..8 + payloadLen];
      assert d[8..] == bytes;
      MemCopy(payload, 0, bytes);
      assert payload[..payloadLen] == bytes;
      status := 0;
    }
  }

  // A frame that is accepted as a sub-packet fits the static payload buffer, to which the source copies it
  // unchecked.
  predicate CopyFits(d: Bytes) {
    |d| >= 2 && SubPacketIn(d).Some? ==> |SubPacketIn(d).value.payload| <= 330
  }

  datatype SubPacketRecord = SubPacketRecord(id: uint16, index: uint8, n: uint8, len: uint16)

  class Handlers {
    var signalEvent: Message         // lpsig_event_data
    var requestEvent: Message        // lpreq_event_data
    var subPacketEvent: SubPacketRecord // lpsp_event_data, whose payload pointer is always payload
    const payload: array<bv8>        // the static payload buffer of lpsp_handle_data
    var queue: seq<Kind>             // events posted and not yet dispatched

    ghost predicate Valid()
      reads this
    {
      payload.Length == 330 && signalEvent.Signal? && requestEvent.Request? && subPacketEvent.len <= 330
    }

    // The records as the processes see them.
    ghost function View(): Slots
      reads this, payload
      requires Valid()
    {
      Slots(signalEvent, requestEvent,
        SubPacket(subPacketEvent.id, subPacketEvent.index, subPacketEvent.n, payload[..subPacketEvent.len]), queue)
    }

    constructor ()
      ensures Valid() && View() == EMPTY && fresh(payload)
    {
      signalEvent, requestEvent := Signal(0, 0), Request(0, 0, 0);
      subPacketEvent := SubPacketRecord(0, 0, 0, 0);
      payload := new bv8[330];
      queue := [];
    }

    method Post(k: Kind, room: bool)
      modifies this`queue
      ensures queue == if room then old(queue) + [k] else old(queue)
    {
      if room {
        queue := queue + [k];
      }
    }

    // lpsig_handle_data
    method HandleSignal(data: array<bv8>, len: uint16, room: bool)
      requires Valid() && 2 <= len as int <= data.Length && data != payload
      modifies this
      ensures Valid() && View() == old(View()).PutAll(Posts(SignalIn(data[..len])), room)
    {
      hide Get8, Get16;
      if data[0] != SIGNAL_HEADER[0] {
        return;
      }
      var status, n, id := UnpackSignalBuffer(data, len % 0x100);
      if status < 0 {
        return;
      }
      assert data[..len][2..4] == data[2..4] && data[..len][4..5] == data[4..5];
      signalEvent := Signal(id, n);
      Post(SignalEvent, room);
    }

    // lpreq_handle_data
    method HandleRequest(data: array<bv8>, len: uint16, room: bool)
      requires Valid() && 2 <= len as int <= data.Length && data != payload
      modifies this
      ensures Valid() && View() == old(View()).PutAll(Posts(RequestIn(data[..len])), room)
    {
      hide Get16, Get64;
      if data[0] != REQUEST_HEADER[0] {
        return;
      }
      var status, id, mask, period := UnpackRequestBuffer(data, len % 0x100);
      if status < 0 {
        return;
      }
      ghost var d := data[..len];
      assert d[2..4] == data[2..4] && d[4..12] == data[4..12] && d[12..14] == data[12..14];
      requestEvent := Request(id, mask, period);
      Post(RequestEvent, room);
    }

    // lpsp_handle_data
    method HandleSubPacket(data: array<bv8>, len: uint16, room: bool)
      requires Valid() && 2 <= len as int <= data.Length && data != payload
      requires data.Length >= 8 && CopyFits(data[..len])
      modifies this, payload
      ensures Valid() && View() == old(View()).PutAll(Posts(SubPacketIn(data[..len])), room)
    {
      hide Get8, Get16;
      if data[0] != SUB_PACKET_HEADER[0] {
        return;
      }
      var status, id, index, n, payloadLen := UnpackSubPacketBuffer(data, len, payload);
      if status < 0 {
        assert payload[..subPacketEvent.len] == payload[..][..subPacketEvent.len];
        return;
      }
      subPacketEvent := SubPacketRecord(id, index, n, payloadLen);
      Post(SubPacketEvent, room);
    }

    // large_packet_udp_listen_callback
    method UdpListenCallback(data: array<bv8>, len: uint16, room: bool)
      requires Valid() && len as int <= data.Length && data != payload
      requires data.Length >= 8 && CopyFits(data[..len])
      modifies this, payload
      ensures Valid() && View() == old(View()).Arrive(data[..len], room)
    {
      hide SignalIn, RequestIn, SubPacketIn;
      if len < 2 {
        return;
      }
      ghost var d := data[..len];
      ghost var s, a, b, c := View(), Posts(SignalIn(d)), Posts(RequestIn(d)), Posts(SubPacketIn(d));
      HandleSignal(data, len, room);
      HandleRequest(data, len, room);
      HandleSubPacket(data, len, room);
      PutAllConcat(s, a, b, room);
      PutAllConcat(s, a + b, c, room);
      assert Events(d) == a + b + c;
    }

    // A process receives the event at the head of the queue and reads the record it points at.
    method Dispatch() returns (m: Message)
      requires Valid() && queue != []
      modifies this`queue
      ensures Valid() && m == old(View()).Head() && View() == old(View()).Pop()
    {
      match queue[0] {
        case SignalEvent => m := signalEvent;
        case RequestEvent => m := requestEvent;
        case SubPacketEvent =>
          m := SubPacket(subPacketEvent.id, subPacketEvent.index, subPacketEvent.n, payload[..subPacketEvent.len]);
      }
      queue := queue[1..];
    }
  }

  lemma {:induction false} PutAllConcat(s: Slots, a: seq<Message>, b: seq<Message>, room: bool)
    ensures s.PutAll(a + b, room) == s.PutAll(a, room).PutAll(b, room)
    decreases |a|
  {
    if a == [] {
      assert a + b == b;
    } else {
      PutAllConcat(s.Put(a[0], room), a[1..], b, room);
      assert (a + b)[1..] == a[1..] + b;
    }
  }
}
