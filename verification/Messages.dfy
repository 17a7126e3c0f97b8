/** The three message formats: lp_signal.c, lp_request.c and lp_subpacket.c. */
module Messages {
  import opened Types
  import opened Fields
  import LE = LittleEndian

  datatype Message =
    | Signal(id: uint16, n: uint8)
    | Request(id: uint16, mask: bv64, period: uint16)
    | SubPacket(id: uint16, index: uint8, n: uint8, payload: Bytes)
  {
    // A payload length is a 16-bit field.
    predicate Valid() {
      SubPacket? ==> |payload| < 0x1_0000
    }
  }

  const SIGNAL_HEADER: Bytes := [0x54, 0xab]
  const REQUEST_HEADER: Bytes := [0xf2, 0x2a]
  const SUB_PACKET_HEADER: Bytes := [0x1f, 0xb3]

  function Header(m: Message): Bytes {
    match m
    case Signal(_, _) => SIGNAL_HEADER
    case Request(_, _, _) => REQUEST_HEADER
    case SubPacket(_, _, _, _) => SUB_PACKET_HEADER
  }

  // The datagram that lpsig_send, lpreq_send or lpsp_send hands to the UDP layer.
  function Pack(m: Message): Bytes
    requires m.Valid()
  {
    match m
    case Signal(id, n) => SIGNAL_HEADER + Put16(id) + Put8(n)
    case Request(id, mask, period) => REQUEST_HEADER + Put16(id) + Put64(mask) + Put16(period)
    case SubPacket(id, index, n, payload) =>
      SUB_PACKET_HEADER + Put16(id) + Put8(index) + Put8(n) + Put16(|payload|) + payload
  }

  /** What is on the wire: the two header bytes, and then the number that each stretch of bytes means, least
      significant byte first. */
  lemma OnTheWire(m: Message)
    requires m.Valid()
    ensures var d := Pack(m);
      |d| >= 4 && LE.Value(d[2..4]) == m.id &&
      match m
      case Signal(_, n) => |d| == 5 && d[..2] == [0x54, 0xab] && LE.Value(d[4..]) == n
      case Request(_, mask, period) =>
        |d| == 14 && d[..2] == [0xf2, 0x2a] && LE.Value(d[4..12]) == mask as nat && LE.Value(d[12..]) == period
      case SubPacket(_, index, n, payload) =>
        |d| == 8 + |payload| && d[..2] == [0x1f, 0xb3] && LE.Value(d[4..5]) == index && LE.Value(d[5..6]) == n
        && LE.Value(d[6..8]) == |payload| && d[8..] == payload
  {
    hide Put8, Put16, Put64, LE.Value;
    var d := Pack(m);
    ValueOfPut(0, m.id, 0);
    match m {
      case Signal(id, n) =>
        ValueOfPut(n, id, 0);
        assert d[2..4] == Put16(id) && d[4..] == Put8(n);
      case Request(id, mask, period) =>
        ValueOfPut(0, period, mask);
        assert d[2..4] == Put16(id) && d[4..12] == Put64(mask) && d[12..] == Put16(period);
      case SubPacket(id, index, n, payload) =>
        ValueOfPut(index, |payload|, 0);
        ValueOfPut(n, id, 0);
        assert d[2..4] == Put16(id) && d[4..5] == Put8(index) && d[5..6] == Put8(n);
        assert d[6..8] == Put16(|payload|) && d[8..] == payload;
    }
  }

  predicate AllValid(ms: seq<Message>) {
    forall k | 0 <= k < |ms| :: ms[k].Valid()
  }

  predicate AllSubPackets(ms: seq<Message>) {
    forall k | 0 <= k < |ms| :: ms[k].SubPacket?
  }

  function Datagrams(ms: seq<Message>): seq<Bytes>
    requires AllValid(ms)
  {
    seq(|ms|, k requires 0 <= k < |ms| => Pack(ms[k]))
  }

  lemma DatagramsOfOne(m: Message)
    requires m.Valid()
    ensures Datagrams([m]) == [Pack(m)]
  {
    assert Datagrams([m])[0] == Pack(m);
  }

  // lpsig_unpack_buffer: its length parameter has only eight bits.
  function UnpackSignal(d: Bytes): Option<Message> {
    if |d| % 0x100 != 5 then None
    else Some(Signal(Get16(d[2..4]), Get8(d[4..5])))
  }

  // lpreq_unpack_buffer: its length parameter has only eight bits.
  function UnpackRequest(d: Bytes): Option<Message> {
    if |d| % 0x100 != 14 then None
    else Some(Request(Get16(d[2..4]), Get64(d[4..12]), Get16(d[12..14])))
  }

  // lpsp_unpack_buffer: the datagram must be as long as its payload length field says.
  function UnpackSubPacket(d: Bytes): Option<Message> {
    if |d| < 8 || |d| != 8 + Get16(d[6..8]) then None
    else Some(SubPacket(Get16(d[2..4]), Get8(d[4..5]), Get8(d[5..6]), d[8..]))
  }

  // What each handler accepts. The header tests compare one byte only: in the source the
  // "!= 0" stands inside the length argument of memcmp.
  function SignalIn(d: Bytes): Option<Message>
    requires |d| >= 2
  {
    if d[0] != SIGNAL_HEADER[0] then None else UnpackSignal(d)
  }

  function RequestIn(d: Bytes): Option<Message>
    requires |d| >= 2
  {
    if d[0] != REQUEST_HEADER[0] then None else UnpackRequest(d)
  }

  function SubPacketIn(d: Bytes): Option<Message>
    requires |d| >= 2
  {
    if d[0] != SUB_PACKET_HEADER[0] then None else UnpackSubPacket(d)
  }

  function Posts(m: Option<Message>): seq<Message> {
    if m.None? then [] else [m.value]
  }

  // The events that large_packet_udp_listen_callback posts for a datagram, in order.
  function Events(d: Bytes): seq<Message> {
    if |d| < 2 then []
    else Posts(SignalIn(d)) + Posts(RequestIn(d)) + Posts(SubPacketIn(d))
  }

  /** unpack(pack(fields)) returns the fields, for each format. */
  lemma UnpackOfPack(m: Message)
    requires m.Valid()
    ensures var d := Pack(m);
      match m
      case Signal(_, _) => UnpackSignal(d) == Some(m)
      case Request(_, _, _) => UnpackRequest(d) == Some(m)
      case SubPacket(_, _, _, _) => UnpackSubPacket(d) == Some(m)
  {
    hide Get8, Get16, Get64, Put8, Put16, Put64;
    match m {
      case Signal(id, n) =>
        GetOfPut(n, id, 0);
        Slices(Pack(m), SIGNAL_HEADER, Put16(id), Put8(n), []);
        assert Pack(m)[2..4] == Put16(id) && Pack(m)[4..5] == Put8(n);
      case Request(id, mask, period) =>
        GetOfPut(0, id, mask);
        GetOfPut(0, period, 0);
        Slices(Pack(m), REQUEST_HEADER, Put16(id), Put64(mask), Put16(period));
        assert Pack(m)[2..4] == Put16(id) && Pack(m)[4..12] == Put64(mask) && Pack(m)[12..14] == Put16(period);
      case SubPacket(id, index, n, payload) =>
        UnpackOfSubPacket(Pack(m), id, index, n, payload);
    }
  }

  lemma UnpackOfSubPacket(d: Bytes, id: uint16, index: uint8, n: uint8, payload: Bytes)
    requires |payload| < 0x1_0000 && d == Pack(SubPacket(id, index, n, payload))
    ensures UnpackSubPacket(d) == Some(SubPacket(id, index, n, payload))
  {
    hide Get8, Get16, Put8, Put16;
    GetOfPut(index, id, 0);
    GetOfPut(n, |payload|, 0);
    var a, b, c, e := SUB_PACKET_HEADER + Put16(id), Put8(index), Put8(n), Put16(|payload|);
    Slices(d, SUB_PACKET_HEADER, Put16(id), b, c + e + payload);
    Slices(d, a + b, c, e, payload);
    assert d[2..4] == Put16(id) && d[4..5] == b && d[5..6] == c && d[6..8] == e && d[8..] == payload;
  }

  // Where the parts of a concatenation are found again.
  lemma Slices(d: Bytes, a: Bytes, b: Bytes, c: Bytes, e: Bytes)
    requires d == a + b + c + e
    ensures var i, j := |a| + |b|, |a| + |b| + |c|;
            d[|a|..i] == b && d[i..j] == c && d[j..] == e
  {
  }

  /** A datagram has at most one event, and a packed message has exactly its own. */
  lemma DispatchIsExclusive(d: Bytes)
    ensures |Events(d)| <= 1
    ensures forall m <- Events(d) :: m.Valid()
  {
    hide Get8, Get16, Get64;
  }

  lemma EventsOfPack(m: Message)
    requires m.Valid()
    ensures Events(Pack(m)) == [m]
  {
    hide Get8, Get16, Get64, Put8, Put16, Put64;
    UnpackOfPack(m);
    assert Pack(m)[0] == Header(m)[0];
  }

  // An accepted datagram, rebuilt from its fields, keeps every byte after the header.
  lemma PackKeepsSignal(d: Bytes)
    requires UnpackSignal(d).Some?
    ensures Pack(UnpackSignal(d).value) == SIGNAL_HEADER + d[2..5]
  {
    hide Get8, Get16, Put8, Put16;
    PutOfGet(d[2..4]);
    PutOfGet(d[4..5]);
    assert d[2..5] == d[2..4] + d[4..5];
  }

  lemma PackKeepsRequest(d: Bytes)
    requires UnpackRequest(d).Some?
    ensures Pack(UnpackRequest(d).value) == REQUEST_HEADER + d[2..14]
  {
    hide Get16, Get64, Put16, Put64;
    PutOfGet(d[2..4]);
    PutOfGet(d[4..12]);
    PutOfGet(d[12..14]);
    assert d[2..14] == d[2..4] + d[4..12] + d[12..14];
  }

  lemma TailInParts(d: Bytes, header: Bytes)
    requires |d| >= 8
    ensures header + d[2..4] + d[4..5] + d[5..6] + d[6..8] + d[8..] == header + d[2..]
  {
    var left, right := header + d[2..4] + d[4..5] + d[5..6] + d[6..8] + d[8..], header + d[2..];
    assert |left| == |right|;
    assert forall k | 0 <= k < |left| :: left[k] == right[k];
  }

  lemma PackKeepsSubPacket(d: Bytes)
    requires UnpackSubPacket(d).Some?
    ensures UnpackSubPacket(d).value.Valid()
    ensures Pack(UnpackSubPacket(d).value) == SUB_PACKET_HEADER + d[2..]
  {
    hide Get8, Get16, Put8, Put16;
    PutOfGet(d[2..4]);
    PutOfGet(d[4..5]);
    PutOfGet(d[5..6]);
    PutOfGet(d[6..8]);
    TailInParts(d, SUB_PACKET_HEADER);
  }

  lemma SameAfterHeader(d: Bytes, header: Bytes, k: nat)
    requires |header| == 2 <= k <= |d| && d[0] == header[0]
    ensures header + d[2..k] == d <==> d[1] == header[1] && |d| == k
  {
    if d[1] == header[1] && |d| == k {
      assert d == d[..2] + d[2..k] && d[..2] == header;
    } else {
      assert |header + d[2..k]| == k && (header + d[2..k])[1] == header[1];
    }
  }

  /** Packing the fields of an accepted datagram reproduces it byte for byte exactly when the second
      header byte is right and the length fits the eight bits that two of the unpackers look at. */
  lemma PackOfEvent(d: Bytes, m: Message)
    requires Events(d) == [m]
    ensures m.Valid()
    ensures Pack(m) == d <==> d[1] == Header(m)[1] && (m.SubPacket? || |d| < 0x100)
  {
    hide Pack, UnpackSignal, UnpackRequest, UnpackSubPacket;
    if d[0] == SIGNAL_HEADER[0] {
      UnpackedLengths(d);
      assert Events(d) == Posts(UnpackSignal(d)) && m == UnpackSignal(d).value;
      PackKeepsSignal(d);
      SameAfterHeader(d, SIGNAL_HEADER, 5);
    } else if d[0] == REQUEST_HEADER[0] {
      UnpackedLengths(d);
      assert Events(d) == Posts(UnpackRequest(d)) && m == UnpackRequest(d).value;
      PackKeepsRequest(d);
      SameAfterHeader(d, REQUEST_HEADER, 14);
    } else {
      UnpackedLengths(d);
      assert Events(d) == Posts(UnpackSubPacket(d)) && m == UnpackSubPacket(d).value;
      PackKeepsSubPacket(d);
      SameAfterHeader(d, SUB_PACKET_HEADER, |d|);
    }
  }

  lemma UnpackedLengths(d: Bytes)
    ensures var m := UnpackSignal(d); m.Some? ==> m.value.Signal? && |d| >= 5 && (|d| == 5 <==> |d| < 0x100)
    ensures var m := UnpackRequest(d); m.Some? ==> m.value.Request? && |d| >= 14 && (|d| == 14 <==> |d| < 0x100)
    ensures var m := UnpackSubPacket(d); m.Some? ==> m.value.SubPacket? && |d| >= 8
  {
    hide Get8, Get16, Get64;
  }

  // The datagram is the packed message, but for the second header byte, and with any 256 bytes more that a
  // length of eight bits does not see.
  predicate Shows(d: Bytes, m: Message)
    requires m.Valid()
  {
    var p := Pack(m);
    && 2 <= |p| <= |d| && d[0] == p[0] && d[2..|p|] == p[2..]
    && if m.SubPacket? then |d| == |p| else |d| % 0x100 == |p|
  }

  lemma PackLength(m: Message)
    requires m.Valid()
    ensures |Pack(m)| == match m
                         case Signal(_, _) => 5
                         case Request(_, _, _) => 14
                         case SubPacket(_, _, _, payload) => 8 + |payload|
    ensures Pack(m)[0] == Header(m)[0]
  {
    hide Put8, Put16, Put64;
  }

  lemma SliceOfSlice(s: Bytes, n: nat, i: nat, j: nat)
    requires 2 <= i <= j <= n <= |s|
    ensures s[2..n][i - 2..j - 2] == s[i..j]
  {
    var middle := s[2..n];
    assert forall k | 0 <= k < j - i :: middle[i - 2..j - 2][k] == middle[i - 2 + k] == s[i + k] == s[i..j][k];
  }

  lemma SameSlice(d: Bytes, p: Bytes, i: nat, j: nat)
    requires 2 <= i <= j <= |p| <= |d| && d[2..|p|] == p[2..]
    ensures d[i..j] == p[i..j]
  {
    assert p[2..|p|] == p[2..];
    SliceOfSlice(d, |p|, i, j);
    SliceOfSlice(p, |p|, i, j);
  }

  lemma ShownIsPosted(d: Bytes, m: Message)
    requires m.Valid() && Shows(d, m)
    ensures Events(d) == [m]
  {
    hide Get8, Get16, Get64, Pack;
    PackLength(m);
    UnpackOfPack(m);
    var p := Pack(m);
    forall i, j | 2 <= i <= j <= |p| ensures d[i..j] == p[i..j] {
      SameSlice(d, p, i, j);
    }
    if m.SubPacket? { assert d[8..] == d[8..|p|] && p[8..] == p[8..|p|]; }
  }

  lemma PostedIsShown(d: Bytes, m: Message)
    requires m.Valid() && Events(d) == [m]
    ensures Shows(d, m)
  {
    hide Pack, UnpackSignal, UnpackRequest, UnpackSubPacket;
    PackLength(m);
    UnpackedLengths(d);
    AcceptedLengths(d);
    if d[0] == SIGNAL_HEADER[0] {
      assert Events(d) == Posts(UnpackSignal(d)) && m == UnpackSignal(d).value;
      PackKeepsSignal(d);
    } else if d[0] == REQUEST_HEADER[0] {
      assert Events(d) == Posts(UnpackRequest(d)) && m == UnpackRequest(d).value;
      PackKeepsRequest(d);
    } else {
      assert Events(d) == Posts(UnpackSubPacket(d)) && m == UnpackSubPacket(d).value;
      PackKeepsSubPacket(d);
    }
  }

  lemma AcceptedLengths(d: Bytes)
    ensures UnpackSignal(d).Some? ==> |d| % 0x100 == 5
    ensures UnpackRequest(d).Some? ==> |d| % 0x100 == 14
  {
    hide Get8, Get16, Get64;
  }

  /** What the handlers accept, exactly: a datagram posts a message if and only if it shows that message. */
  lemma PostsExactlyWhatItShows(d: Bytes, m: Message)
    requires m.Valid()
    ensures Events(d) == [m] <==> Shows(d, m)
  {
    hide Events, Shows;
    if Events(d) == [m] { PostedIsShown(d, m); }
    if Shows(d, m) { ShownIsPosted(d, m); }
  }

  lemma PackIsInjective(m1: Message, m2: Message)
    requires m1.Valid() && m2.Valid() && Pack(m1) == Pack(m2)
    ensures m1 == m2
  {
    EventsOfPack(m1);
    EventsOfPack(m2);
  }
}
