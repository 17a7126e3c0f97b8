/** The receiving side: session set-up on a signal, reassembly in place, and re-requests on time-out. */
module Receiver {
  import opened Types
  import opened Messages
  import opened Fragments
  import opened Masks

  const STORAGE: nat := 21121          // 330 * 64 + 1
  const RE_REQUESTS: nat := 4          // LP_MAX_NUM_RETRANSMISSION_REQUESTS
  const REQUEST_PERIOD: uint16 := 800  // SUB_PACKET_PERIOD_REQUEST_MS

  // large_packet_rx with its storage, and the statics of large_packet_receive_proc: alive while it
  // waits for an event, done (rx_done), left (re_tx_requests_left). Posts of event_lp_received are counted.
  datatype Rx = Rx(
    storage: Bytes, len: uint16, num: uint8, id: uint16, period: uint16, mask: bv64,
    alive: bool, done: bool, left: nat, posted: nat)
  {
    predicate Valid() {
      |storage| == STORAGE && num <= 64
    }
  }

  datatype Outcome = Outcome(rx: Rx, out: seq<Message>)

  function Zeros(n: nat): (b: Bytes)
    ensures |b| == n
  {
    seq(n, _ => 0)
  }

  const IDLE: Rx := Rx(Zeros(STORAGE), 0, 0, 0, 0, 0, false, false, 0, 0)

  function Sent(m: Message, ok: bool): seq<Message> {
    if ok then [m] else []
  }

  // signal_to_request_proc: set up the struct, request everything, restart the receive process.
  function OnSignal(rx: Rx, s: Message, ok: bool): (o: Outcome)
    requires s.Signal?
    ensures AllValid(o.out) && (rx.Valid() ==> o.rx.Valid())
  {
    var whole := WholeMaskGet(s.n);
    if whole.status < 0 then Outcome(rx, [])
    else Outcome(
      rx.(len := 0, num := s.n, id := s.id, period := REQUEST_PERIOD, mask := 0,
          alive := true, done := false, left := RE_REQUESTS),
      Sent(Request(s.id, whole.mask, REQUEST_PERIOD), ok))
  }

  // The receive timer expires: request what is missing, or abort.
  function OnTimeout(rx: Rx, ok: bool): (o: Outcome)
    ensures AllValid(o.out) && (rx.Valid() ==> o.rx.Valid())
  {
    if !rx.alive then Outcome(rx, [])
    else if rx.left > 0 then
      Outcome(rx.(left := rx.left - 1), Sent(Request(rx.id, Missing(rx.mask, rx.num), rx.period), ok))
    else Outcome(rx.(alive := false), [])
  }

  /** A signal is answered with a request for the whole packet, unless it has more than 64 sub-packets. */
  lemma SignalAsksForAll(rx: Rx, s: Message, ok: bool)
    requires s.Signal?
    ensures var o := OnSignal(rx, s, ok);
            && |o.out| == (if ok && s.n <= 64 then 1 else 0)
            && (forall k | 0 <= k < |o.out| ::
                  && o.out[k].Request? && o.out[k].id == s.id && o.out[k].period == 800
                  && Bits(o.out[k].mask) == Range(s.n))
            && (s.n > 64 ==> o.rx == rx)
  {
    hide Bits, Whole;
    if s.n <= 64 { BitsWhole(s.n); }
  }

  /** A time-out asks for exactly what is missing while a re-request is left, and aborts after that. */
  lemma TimeoutAsksForMissing(rx: Rx, ok: bool)
    requires rx.num <= 64
    ensures var o := OnTimeout(rx, ok);
            && |o.out| == (if ok && rx.alive && rx.left > 0 then 1 else 0)
            && (forall k | 0 <= k < |o.out| ::
                  && o.out[k].Request? && o.out[k].id == rx.id && o.out[k].period == rx.period
                  && Bits(o.out[k].mask) == Range(rx.num) - Bits(rx.mask))
            && o.rx.alive == (rx.alive && rx.left > 0)
            && o.rx.(left := rx.left, alive := rx.alive) == rx
  {
    hide Bits, Missing;
    BitsMissing(rx.mask, rx.num);
  }

  // What the copy and the shifts of the receive loop need of an event.
  predicate Fits(m: Message) {
    m.SubPacket? && m.index < 64 && m.n <= 64 && m.index * SUB_MAX + |m.payload| <= STORAGE
  }

  // The body of the receive loop for a sub-packet of the expected packet.
  function Store(rx: Rx, m: Message): (r: Rx)
    requires rx.Valid() && Fits(m)
    ensures r.Valid()
  {
    var mask := With(rx.mask, m.index);
    var done := mask == Whole(m.n);
    rx.(storage := Write(rx.storage, m.index, m.payload), len := (rx.len + |m.payload|) % 0x1_0000,
        mask := mask, done := done, alive := !done, posted := rx.posted + if done then 1 else 0)
  }

  /** The storage holds every content that can be sent, with one byte more for the terminator, and nothing else. */
  lemma StorageFitsLargest(content: Bytes)
    ensures Sendable(content) <==> 1 <= |content| && |content| + 1 <= STORAGE
  {
    SendableIffCounted(content);
  }

  // The event is not one that the loop would store outside its storage or its mask.
  predicate StoresSafely(rx: Rx, m: Message, fault: bool) {
    m.SubPacket? && (rx.alive && !fault && m.id == rx.id ==> Fits(m))
  }

  // A sub-packet event reaches the waiting process; a fault may be injected, and another id aborts.
  function OnSubPacket(rx: Rx, m: Message, fault: bool): (r: Rx)
    requires rx.Valid() && StoresSafely(rx, m, fault)
    ensures r.Valid()
  {
    if !rx.alive || fault then rx
    else if m.id != rx.id then rx.(alive := false)
    else Store(rx, m)
  }

  // -------------------------------------------------------------------------
  // Reassembly
  // -------------------------------------------------------------------------

  // Sub-packet events that carry a slice of a content, labelled with the count of its sub-packets.
  predicate Carries(m: Message, content: Bytes) {
    m.SubPacket? && m.index < Count(content) && m.n == Count(content) && CarriesSlice(m, content)
  }

  predicate CarriesSlice(m: Message, content: Bytes)
    requires m.SubPacket? && m.index < Count(content)
  {
    IndexInContent(content, m.index);
    m.payload == Fragment(content, m.index)
  }

  // The session was set up for a packet as long as the content.
  predicate Expects(rx: Rx, content: Bytes) {
    rx.Valid() && Sendable(content) && rx.num == Count(content)
  }

  // Every bit of the mask has its slice in place.
  ghost predicate Received(rx: Rx, content: Bytes) {
    && Expects(rx, content)
    && Bits(rx.mask) <= Range(rx.num)
    && (forall i: nat :: i in Bits(rx.mask) ==> InPlace(rx.storage, content, i))
  }

  // The receive loop waits exactly while something is missing.
  ghost predicate Session(rx: Rx, content: Bytes) {
    && Expects(rx, content)
    && Received(rx, content)
    && (rx.done <==> Bits(rx.mask) == Range(rx.num))
    && (rx.alive ==> !rx.done)
  }

  lemma CarriedFits(m: Message, content: Bytes)
    requires Sendable(content) && Carries(m, content)
    ensures Fits(m)
  {
    CountBounds(content);
    PickedLengthIsFragmentLength(content, m.index);
  }

  lemma StoreReceives(rx: Rx, m: Message, content: Bytes)
    requires Received(rx, content) && Carries(m, content)
    ensures Fits(m)
    ensures Received(Store(rx, m), content)
    ensures Bits(Store(rx, m).mask) == Bits(rx.mask) + {m.index}
    ensures Store(rx, m).done <==> Bits(Store(rx, m).mask) == Range(rx.num)
    ensures Store(rx, m).storage[|content|..] == rx.storage[|content|..]
  {
    hide Bits, With, Whole, Fragment, Write, InPlace, PickedLength;
    CarriedFits(m, content);
    WriteKeepsTail(rx.storage, content, m.index);
    BitsWith(rx.mask, m.index);
    BitsWhole(rx.num);
    BitsInjective(With(rx.mask, m.index), Whole(rx.num));
    var r := Store(rx, m);
    forall i: nat | i in Bits(r.mask) ensures InPlace(r.storage, content, i) {
      WritePlaces(rx.storage, content, m.index, i);
    }
  }

  lemma WriteKeepsTail(storage: Bytes, content: Bytes, i: nat)
    requires |content| <= |storage| && i < Count(content)
    ensures i * SUB_MAX < |content| && i * SUB_MAX + |Fragment(content, i)| <= |storage|
    ensures Write(storage, i, Fragment(content, i))[|content|..] == storage[|content|..]
  {
    PickedLengthIsFragmentLength(content, i);
  }

  /** A sub-packet of the session's packet is copied to its place, first or repeated, and nowhere else. */
  lemma StoresWhatCame(rx: Rx, m: Message)
    requires rx.Valid() && rx.alive && m.SubPacket? && m.id == rx.id && Fits(m)
    ensures var r := OnSubPacket(rx, m, false);
            var i := m.index * 330;
            var j := i + |m.payload|;
            && j <= |rx.storage| == |r.storage|
            && r.storage[..i] == rx.storage[..i] && r.storage[i..j] == m.payload && r.storage[j..] == rx.storage[j..]
            && r.len == (rx.len + |m.payload|) % 0x1_0000 && Bits(r.mask) == Bits(rx.mask) + {m.index}
            && r.posted == rx.posted + (if r.done then 1 else 0) && r.alive == !r.done
  {
    hide Bits, With, Whole;
    BitsWith(rx.mask, m.index);
  }

  /** The done test counts the sub-packets that the frame tells, whatever the signal told. */
  lemma DoneTestUsesFrame(rx: Rx, m: Message)
    requires rx.Valid() && Fits(m)
    ensures Store(rx, m).done <==> Bits(rx.mask) + {m.index} == Range(m.n)
  {
    hide Bits, With, Whole, Write;
    BitsWith(rx.mask, m.index);
    BitsWhole(m.n);
    BitsInjective(With(rx.mask, m.index), Whole(m.n));
  }

  /** When the done test holds, the storage starts with the content. */
  lemma DoneMeansContent(rx: Rx, content: Bytes)
    requires Received(rx, content) && Bits(rx.mask) == Range(rx.num)
    ensures rx.storage[..|content|] == content
  {
    hide Bits;
    InPlaceMeansContent(rx.storage, content);
  }

  // All the events that reach the receive process, without faults or time-outs.
  function OnSubPackets(rx: Rx, ms: seq<Message>): Rx
    requires rx.Valid() && forall k | 0 <= k < |ms| :: Fits(ms[k])
    decreases |ms|
  {
    if ms == [] then rx
    else
      assert Fits(ms[0]);
      OnSubPackets(OnSubPacket(rx, ms[0], false), ms[1..])
  }

  function Indices(ms: seq<Message>): set<nat>
    requires AllSubPackets(ms)
  {
    if ms == [] then {} else {ms[0].index} + Indices(ms[1..])
  }

  ghost predicate AllOfPacket(ms: seq<Message>, id: uint16, content: Bytes) {
    forall k | 0 <= k < |ms| :: Carries(ms[k], content) && ms[k].id == id
  }

  // A session ignores what comes after its end.
  lemma {:induction false} EndedIgnores(rx: Rx, ms: seq<Message>)
    requires rx.Valid() && !rx.alive && forall k | 0 <= k < |ms| :: Fits(ms[k])
    ensures OnSubPackets(rx, ms) == rx
    decreases |ms|
  {
    if ms != [] {
      EndedIgnores(rx, ms[1..]);
    }
  }

  // What a session makes of events with the given indices, whatever their order and number.
  ghost predicate Reassembled(rx: Rx, seen: set<nat>, r: Rx, content: Bytes) {
    && |content| <= |r.storage| == |rx.storage|
    && Session(r, content)
    && (r.done <==> Bits(rx.mask) + seen == Range(rx.num))
    && r.alive == !r.done && r.posted == rx.posted + (if r.done then 1 else 0)
    && (!r.done ==> Bits(r.mask) == Bits(rx.mask) + seen)
    && r.storage[|content|..] == rx.storage[|content|..]
    && (r.done ==> r.storage[..|content|] == content)
  }

  /** Order and duplication independence: whatever the order and the repetitions, the session is done
      exactly when the indices that came cover 0..n-1, and then the bytes are the content, with
      everything behind it untouched. */
  lemma {:induction false} AnyOrderReassembles(rx: Rx, ms: seq<Message>, content: Bytes)
    requires Session(rx, content) && rx.alive && AllOfPacket(ms, rx.id, content)
    ensures forall k | 0 <= k < |ms| :: Fits(ms[k])
    ensures Reassembled(rx, Indices(ms), OnSubPackets(rx, ms), content)
    decreases |ms|
  {
    hide Bits, Range, OnSubPacket, CarriesSlice, Reassembled, Sendable, InPlace;
    forall k | 0 <= k < |ms| ensures Fits(ms[k]) { CarriedFits(ms[k], content); }
    if ms == [] {
      NothingReassembled(rx, content);
    } else {
      var next := OnSubPacket(rx, ms[0], false);
      FirstReassembled(rx, ms[0], content);
      assert AllOfPacket(ms[1..], rx.id, content);
      if next.done {
        EndedIgnores(next, ms[1..]);
        IndicesInRange(ms[1..], rx.id, content);
        ReassembledStays(rx, ms[0], Indices(ms[1..]), content);
      } else {
        AnyOrderReassembles(next, ms[1..], content);
        ReassembledChains(rx, ms[0], Indices(ms[1..]), OnSubPackets(next, ms[1..]), content);
      }
    }
  }

  lemma NothingReassembled(rx: Rx, content: Bytes)
    requires Session(rx, content) && rx.alive
    ensures Reassembled(rx, {}, rx, content)
  {
    hide Bits;
    assert Bits(rx.mask) + {} == Bits(rx.mask);
  }

  lemma FirstReassembled(rx: Rx, m: Message, content: Bytes)
    requires Session(rx, content) && rx.alive && Carries(m, content) && m.id == rx.id
    ensures Fits(m)
    ensures var next := OnSubPacket(rx, m, false);
            && Reassembled(rx, {m.index}, next, content) && Session(next, content)
            && next.id == rx.id && next.num == rx.num && Bits(next.mask) == Bits(rx.mask) + {m.index}
            && next.alive == !next.done
  {
    hide Bits, Store, Carries;
    StoreReceives(rx, m, content);
    StoreOutcome(rx, m);
    var next := Store(rx, m);
    if next.done {
      DoneMeansContent(next, content);
    }
  }

  lemma ReassembledStays(rx: Rx, m: Message, more: set<nat>, content: Bytes)
    requires Session(rx, content) && rx.alive && Carries(m, content) && m.id == rx.id && Fits(m)
    requires OnSubPacket(rx, m, false).done && more <= Range(Count(content))
    ensures Reassembled(rx, {m.index} + more, OnSubPacket(rx, m, false), content)
  {
    hide Bits, OnSubPacket, Carries;
    FirstReassembled(rx, m, content);
    assert Bits(rx.mask) + ({m.index} + more) == Bits(rx.mask) + {m.index} + more;
  }

  lemma ReassembledChains(rx: Rx, m: Message, more: set<nat>, r: Rx, content: Bytes)
    requires Session(rx, content) && rx.alive && Carries(m, content) && m.id == rx.id && Fits(m)
    requires !OnSubPacket(rx, m, false).done && Reassembled(OnSubPacket(rx, m, false), more, r, content)
    ensures Reassembled(rx, {m.index} + more, r, content)
  {
    hide Bits, OnSubPacket, Carries;
    FirstReassembled(rx, m, content);
    assert Bits(rx.mask) + ({m.index} + more) == Bits(rx.mask) + {m.index} + more;
  }

  lemma StoreOutcome(rx: Rx, m: Message)
    requires rx.Valid() && Fits(m)
    ensures var r := Store(rx, m);
            && r.alive == !r.done && r.posted == rx.posted + (if r.done then 1 else 0)
            && r.id == rx.id && r.num == rx.num && r.left == rx.left && r.period == rx.period
  {
  }

  lemma {:induction false} IndicesInRange(ms: seq<Message>, id: uint16, content: Bytes)
    requires AllOfPacket(ms, id, content)
    ensures Indices(ms) <= Range(Count(content))
  {
    hide CarriesSlice;
    if ms != [] {
      assert AllOfPacket(ms[1..], id, content);
      IndicesInRange(ms[1..], id, content);
    }
  }

  // -------------------------------------------------------------------------
  // The byte count
  // -------------------------------------------------------------------------

  // The bytes of the sub-packets below n with indices in s.
  function BytesOf(content: Bytes, s: set<nat>, n: nat): nat
    requires n <= Count(content)
  {
    if n == 0 then 0
    else
      IndexInContent(content, n - 1);
      BytesOf(content, s, n - 1) + if n - 1 in s then |Fragment(content, n - 1)| else 0
  }

  function MissingBytes(content: Bytes, s: set<nat>): nat {
    BytesOf(content, Range(Count(content)) - s, Count(content))
  }

  // The bytes of the events whose index had come before.
  function RepeatedBytes(seen: set<nat>, ms: seq<Message>): nat
    requires AllSubPackets(ms)
    decreases |ms|
  {
    if ms == [] then 0
    else (if ms[0].index in seen then |ms[0].payload| else 0) + RepeatedBytes(seen + {ms[0].index}, ms[1..])
  }

  lemma {:induction false} BytesOfAdded(content: Bytes, s: set<nat>, i: nat, n: nat)
    requires i !in s && i < Count(content) && n <= Count(content)
    ensures i * SUB_MAX < |content|
    ensures BytesOf(content, s + {i}, n) == BytesOf(content, s, n) + if i < n then |Fragment(content, i)| else 0
  {
    hide Fragment;
    IndexInContent(content, i);
    if n > 0 {
      BytesOfAdded(content, s, i, n - 1);
    }
  }

  lemma {:induction false} BytesOfAll(content: Bytes, n: nat)
    requires n <= Count(content)
    ensures BytesOf(content, Range(Count(content)), n) == |Join(content, n)|
  {
    if n > 0 {
      BytesOfAll(content, n - 1);
    }
  }

  lemma {:induction false} BytesOfNone(content: Bytes, n: nat)
    requires n <= Count(content)
    ensures BytesOf(content, {}, n) == 0
  {
    if n > 0 {
      BytesOfNone(content, n - 1);
    }
  }

  function Conserved(len: nat, content: Bytes, before: set<nat>, after: set<nat>, repeated: nat): uint16 {
    (len + MissingBytes(content, before) - MissingBytes(content, after) + repeated) % 0x1_0000
  }

  lemma ConservedChains(len0: nat, len1: nat, len2: nat, content: Bytes, seen: set<nat>, i: nat, more: set<nat>,
        once: nat, repeated: nat)
    requires len1 == Conserved(len0, content, seen, seen + {i}, once)
    requires len2 == Conserved(len1, content, seen + {i}, seen + {i} + more, repeated)
    ensures len2 == Conserved(len0, content, seen, seen + ({i} + more), once + repeated)
  {
    hide MissingBytes;
    assert seen + {i} + more == seen + ({i} + more);
  }

  // Every event of the sequence finds the session waiting for it.
  predicate Accepted(rx: Rx, ms: seq<Message>)
    requires rx.Valid() && forall k | 0 <= k < |ms| :: Fits(ms[k])
    decreases |ms|
  {
    if ms == [] then true
    else
      assert Fits(ms[0]);
      rx.alive && ms[0].id == rx.id && Accepted(OnSubPacket(rx, ms[0], false), ms[1..])
  }

  /** Byte-count conservation: len counts every accepted event, so modulo 2^16 it is the content
      length, less what is missing, plus what came more than once. */
  lemma {:induction false} LengthIsConserved(rx: Rx, ms: seq<Message>, content: Bytes)
    requires Session(rx, content)
    requires forall k | 0 <= k < |ms| :: Fits(ms[k]) && Carries(ms[k], content)
    requires Accepted(rx, ms)
    ensures OnSubPackets(rx, ms).len
         == Conserved(rx.len, content, Bits(rx.mask), Bits(rx.mask) + Indices(ms), RepeatedBytes(Bits(rx.mask), ms))
    decreases |ms|
  {
    hide Bits, Range, OnSubPacket, CarriesSlice, Conserved, Received, Reassembled, Sendable, Count;
    if ms == [] {
      ConservedNothing(rx.len, content, Bits(rx.mask));
      assert Bits(rx.mask) + {} == Bits(rx.mask);
    } else {
      var m, rest, next := ms[0], ms[1..], OnSubPacket(rx, ms[0], false);
      var seen, once := Bits(rx.mask), if m.index in Bits(rx.mask) then |m.payload| else 0;
      FirstReassembled(rx, m, content);
      AcceptedLength(rx, m, content);
      LengthIsConserved(next, rest, content);
      ConservedChains(rx.len, next.len, OnSubPackets(next, rest).len, content, seen, m.index, Indices(rest),
        once, RepeatedBytes(seen + {m.index}, rest));
    }
  }

  lemma ConservedNothing(len: uint16, content: Bytes, s: set<nat>)
    ensures Conserved(len, content, s, s, 0) == len
  {
  }

  /** Hence len is the content length at the end, when nothing came twice. */
  lemma LengthAtCompletion(rx: Rx, ms: seq<Message>, content: Bytes)
    requires Session(rx, content) && rx.len == 0 && rx.mask == 0
    requires forall k | 0 <= k < |ms| :: Fits(ms[k]) && Carries(ms[k], content)
    requires Accepted(rx, ms) && Indices(ms) == Range(Count(content))
    ensures OnSubPackets(rx, ms).len == (|content| + RepeatedBytes({}, ms)) % 0x1_0000
  {
    hide Bits, Range, OnSubPackets, RepeatedBytes, MissingBytes, Accepted, Conserved;
    LengthIsConserved(rx, ms, content);
    assert Bits(rx.mask) == {} by { BitsZero(rx.mask); }
    assert {} + Indices(ms) == Indices(ms);
    ConservedAll(content, RepeatedBytes({}, ms));
  }

  /** A signal sets up an empty session: nothing received, no bytes counted, all re-requests left, whatever
      the struct held before; the storage is left as it is. */
  lemma SignalStartsSession(rx: Rx, s: Message, ok: bool, content: Bytes)
    requires rx.Valid() && s.Signal? && s.n <= 64
    ensures var r := OnSignal(rx, s, ok).rx;
            && r.alive && !r.done && Bits(r.mask) == {} && r.len == 0
            && r.id == s.id && r.num == s.n && r.period == 800 && r.left == 4
            && r.storage == rx.storage && r.posted == rx.posted
            && (Sendable(content) && s.n == Count(content) ==> Session(r, content))
  {
    hide Bits, Whole;
    BitsZero(0);
    if Sendable(content) && s.n == Count(content) {
      CountBounds(content);
      assert 0 in Range(s.n);
    }
  }

  /** So from any signal, whatever was received before, len is the content length at the end of a session in
      which nothing came twice, and in general exceeds it by the repeated bytes, modulo 2^16. */
  lemma LengthFromSignal(rx: Rx, s: Message, ok: bool, ms: seq<Message>, content: Bytes)
    requires rx.Valid() && s.Signal? && Sendable(content) && s.n == Count(content)
    requires forall k | 0 <= k < |ms| :: Fits(ms[k]) && Carries(ms[k], content)
    requires Accepted(OnSignal(rx, s, ok).rx, ms) && Indices(ms) == Range(Count(content))
    ensures OnSubPackets(OnSignal(rx, s, ok).rx, ms).len == (|content| + RepeatedBytes({}, ms)) % 0x1_0000
  {
    hide Bits, OnSignal, OnSubPackets, RepeatedBytes, Accepted, Session, Range;
    CountBounds(content);
    SignalStartsSession(rx, s, ok, content);
    BitsZero(OnSignal(rx, s, ok).rx.mask);
    LengthAtCompletion(OnSignal(rx, s, ok).rx, ms, content);
  }

  lemma ConservedAll(content: Bytes, repeated: nat)
    ensures Conserved(0, content, {}, Range(Count(content)), repeated) == (|content| + repeated) % 0x1_0000
  {
    hide MissingBytes;
    MissingAllOrNothing(content);
  }

  lemma MissingAllOrNothing(content: Bytes)
    ensures MissingBytes(content, {}) == |content| && MissingBytes(content, Range(Count(content))) == 0
  {
    hide BytesOf, Range;
    var n := Count(content);
    assert Range(n) - {} == Range(n) && Range(n) - Range(n) == {};
    BytesOfAll(content, n);
    BytesOfNone(content, n);
    FragmentsConcatenate(content);
  }

  // A fragment is missing before it comes, or it is repeated.
  lemma FragmentArrives(content: Bytes, s: set<nat>, i: nat)
    requires i < Count(content)
    ensures i * SUB_MAX < |content|
    ensures MissingBytes(content, s)
         == MissingBytes(content, s + {i}) + if i in s then 0 else |Fragment(content, i)|
  {
    hide Fragment, BytesOf;
    var n := Count(content);
    IndexInContent(content, i);
    if i in s {
      assert s + {i} == s;
    } else {
      assert Range(n) - s == (Range(n) - (s + {i})) + {i};
      BytesOfAdded(content, Range(n) - (s + {i}), i, n);
    }
  }

  lemma ConservedOnce(len: nat, content: Bytes, s: set<nat>, i: nat)
    requires i < Count(content)
    ensures i * SUB_MAX < |content|
    ensures Conserved(len, content, s, s + {i}, if i in s then |Fragment(content, i)| else 0)
         == (len + |Fragment(content, i)|) % 0x1_0000
  {
    hide Fragment, MissingBytes;
    FragmentArrives(content, s, i);
  }

  lemma StoredLength(rx: Rx, m: Message)
    requires rx.Valid() && rx.alive && m.SubPacket? && m.id == rx.id && Fits(m)
    ensures OnSubPacket(rx, m, false).len == (rx.len + |m.payload|) % 0x1_0000
  {
    hide OnSubPacket, Bits, Fits;
    StoresWhatCame(rx, m);
  }

  lemma CarriedSlice(m: Message, content: Bytes)
    requires Carries(m, content)
    ensures m.SubPacket? && m.index < Count(content) && m.index * SUB_MAX < |content|
    ensures m.payload == Fragment(content, m.index)
  {
    hide Fragment;
  }

  // One accepted event.
  lemma AcceptedLength(rx: Rx, m: Message, content: Bytes)
    requires Session(rx, content) && rx.alive && Carries(m, content) && m.id == rx.id && Fits(m)
    ensures OnSubPacket(rx, m, false).len
         == Conserved(rx.len, content, Bits(rx.mask), Bits(rx.mask) + {m.index},
              if m.index in Bits(rx.mask) then |m.payload| else 0)
  {
    hide Bits, Received, Fits, Fragment, Conserved, SubPacketCount, OnSubPacket, Carries;
    CarriedSlice(m, content);
    ConservedOnce(rx.len, content, Bits(rx.mask), m.index);
    StoredLength(rx, m);
  }

  // -------------------------------------------------------------------------
  // How long a session lasts
  // -------------------------------------------------------------------------

  // What wakes the receive process: an event before the time-out, or the time-out.
  datatype Wake = Event(m: Message, fault: bool) | Expired(ok: bool)

  // Only an event that the loop stores must fit; it drops faults, and aborts on another id.
  predicate Handles(w: Wake, id: uint16) {
    w.Event? ==> w.m.SubPacket? && (!w.fault && w.m.id == id ==> Fits(w.m))
  }

  predicate HandlesAll(ws: seq<Wake>, id: uint16) {
    forall k | 0 <= k < |ws| :: Handles(ws[k], id)
  }

  function OnWake(rx: Rx, w: Wake): (o: Outcome)
    requires rx.Valid() && Handles(w, rx.id)
    ensures o.rx.Valid() && o.rx.id == rx.id
  {
    match w
    case Event(m, fault) => Outcome(OnSubPacket(rx, m, fault), [])
    case Expired(ok) => OnTimeout(rx, ok)
  }

  // Iterations of the receive loop, as long as the process lives.
  function Iterate(rx: Rx, ws: seq<Wake>): Outcome
    requires rx.Valid() && HandlesAll(ws, rx.id)
    decreases |ws|
  {
    if ws == [] then Outcome(rx, [])
    else
      var o := OnWake(rx, ws[0]);
      var rest := Iterate(o.rx, ws[1..]);
      Outcome(rest.rx, o.out + rest.out)
  }

  function EventCount(ws: seq<Wake>): nat {
    if ws == [] then 0 else (if ws[0].Event? then 1 else 0) + EventCount(ws[1..])
  }

  /** Session termination: a session that gets k sub-packet events is over after k + left + 1
      iterations (k + 5 from its start), and requests again at most left times. It posts exactly when
      it ends through rx_done: not while it lives, and not when it aborts. */
  lemma {:induction false} SessionEnds(rx: Rx, ws: seq<Wake>)
    requires rx.Valid() && rx.alive && !rx.done && HandlesAll(ws, rx.id)
    ensures var o := Iterate(rx, ws);
            && (o.rx.alive ==> |ws| <= EventCount(ws) + rx.left && !o.rx.done)
            && |o.out| <= rx.left
            && o.rx.posted == rx.posted + (if o.rx.done then 1 else 0)
    decreases |ws|
  {
    hide Write, With, Whole, Missing;
    if ws != [] {
      var o := OnWake(rx, ws[0]);
      if o.rx.alive {
        SessionEnds(o.rx, ws[1..]);
      } else {
        DeadStays(o.rx, ws[1..]);
      }
    }
  }

  lemma {:induction false} DeadStays(rx: Rx, ws: seq<Wake>)
    requires rx.Valid() && !rx.alive && HandlesAll(ws, rx.id)
    ensures Iterate(rx, ws) == Outcome(rx, [])
    decreases |ws|
  {
    if ws != [] {
      DeadStays(rx, ws[1..]);
    }
  }

  lemma SessionFromSignal(rx: Rx, s: Message, ok: bool, ws: seq<Wake>)
    requires rx.Valid() && s.Signal? && s.n <= 64 && HandlesAll(ws, s.id)
    ensures var start := OnSignal(rx, s, ok);
            var o := Iterate(start.rx, ws);
            && (|ws| >= EventCount(ws) + 5 ==> !o.rx.alive)
            && |start.out + o.out| <= 5
            && o.rx.posted == rx.posted + (if o.rx.done then 1 else 0)
  {
    SessionEnds(OnSignal(rx, s, ok).rx, ws);
  }
}
