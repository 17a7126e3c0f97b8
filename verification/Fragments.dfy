/** How large_packet.c cuts a payload into sub-packets, and how the receiver puts it back together. */
module Fragments {

  import opened Types

  const SUB_MAX: nat := 330    // LARGE_PACKET_SUBPACKET_MAX_BYTES
  const MAX_SUBS: nat := 64    // LARGE_PACKET_MAX_NUMBER_OF_SUBPACKETS
  const MAX_LENGTH: nat := 21120

  // large_packet_n_sub_packets_get, and the same division in large_packet_register_tx
  function SubPacketCount(length: nat): nat {
    length / SUB_MAX + if length % SUB_MAX > 0 then 1 else 0
  }

  // What large_packet_register_tx accepts.
  predicate Sendable(content: Bytes) {
    0 < |content| <= MAX_LENGTH
  }

  function Count(content: Bytes): nat {
    SubPacketCount(|content|)
  }

  // The length chosen by pick_next_to_send for index i of a packet of n sub-packets.
  function PickedLength(length: nat, n: nat, i: nat): nat {
    if i == n - 1 then
      if length % SUB_MAX == 0 then SUB_MAX else length % SUB_MAX
    else
      SUB_MAX
  }

  // Sub-packet i of a content: the i-th stretch of 330 bytes, cut at the end of the content.
  function Fragment(content: Bytes, i: nat): Bytes
    requires i * SUB_MAX < |content|
  {
    if |content| <= (i + 1) * SUB_MAX then content[i * SUB_MAX..] else content[i * SUB_MAX..(i + 1) * SUB_MAX]
  }

  // memcpy(payload + index * 330, ed->payload, ed->payload_len)
  function Write(storage: Bytes, i: nat, payload: Bytes): (r: Bytes)
    requires i * SUB_MAX + |payload| <= |storage|
    ensures |r| == |storage|
  {
    storage[..i * SUB_MAX] + payload + storage[i * SUB_MAX + |payload|..]
  }

  // Every byte of sub-packet i of the content is in place in the storage.
  ghost predicate InPlace(storage: Bytes, content: Bytes, i: nat) {
    forall k :: i * SUB_MAX <= k < (i + 1) * SUB_MAX && k < |content| && k < |storage| ==> storage[k] == content[k]
  }

  lemma CountBounds(content: Bytes)
    requires Sendable(content)
    ensures 1 <= Count(content) <= MAX_SUBS
    ensures (Count(content) - 1) * SUB_MAX < |content| <= Count(content) * SUB_MAX
  {
  }

  /** The count is the least number of stretches of 330 bytes that hold the content. */
  lemma CountIsLeast(length: nat, n: nat)
    ensures length <= 330 * n <==> SubPacketCount(length) <= n
  {
  }

  /** What can be sent is exactly what needs from 1 to 64 sub-packets of 330 bytes, and it fits the storage. */
  lemma SendableIffCounted(content: Bytes)
    ensures Sendable(content) <==> 1 <= SubPacketCount(|content|) <= 64
    ensures Sendable(content) <==> content != [] && |content| <= 330 * 64
  {
    CountIsLeast(|content|, 0);
    CountIsLeast(|content|, 64);
  }

  // A sub-packet exists at exactly the indices below the count.
  lemma IndexInContent(content: Bytes, i: nat)
    ensures i < Count(content) <==> i * SUB_MAX < |content|
  {
  }

  /** The picked length is the length of the fragment: 330 bytes, or what is left at the end. */
  lemma PickedLengthIsFragmentLength(content: Bytes, i: nat)
    requires i < Count(content)
    ensures i * SUB_MAX < |content|
    ensures i * SUB_MAX + PickedLength(|content|, Count(content), i) <= |content|
    ensures Fragment(content, i) == content[i * SUB_MAX..][..PickedLength(|content|, Count(content), i)]
    ensures 1 <= |Fragment(content, i)| == PickedLength(|content|, Count(content), i) <= SUB_MAX
  {
    var n := Count(content);
    if i == n - 1 {
      assert |content| <= (i + 1) * SUB_MAX;
    } else {
      assert (i + 1) * SUB_MAX <= (n - 1) * SUB_MAX < |content|;
    }
  }

  // The fragments below n, laid end to end.
  function Join(content: Bytes, n: nat): Bytes
    requires n <= Count(content)
  {
    if n == 0 then []
    else
      IndexInContent(content, n - 1);
      Join(content, n - 1) + Fragment(content, n - 1)
  }

  lemma {:induction false} JoinIsPrefix(content: Bytes, n: nat)
    requires n <= Count(content)
    ensures Join(content, n) == if n * SUB_MAX <= |content| then content[..n * SUB_MAX] else content
  {
    if n > 0 {
      JoinIsPrefix(content, n - 1);
      IndexInContent(content, n - 1);
    }
  }

  /** Fragmentation identity: the fragments concatenate to the content, so their lengths sum to L. */
  lemma FragmentsConcatenate(content: Bytes)
    ensures Join(content, Count(content)) == content
  {
    JoinIsPrefix(content, Count(content));
  }

  // Writing a fragment puts it in place and disturbs no other sub-packet.
  lemma WritePlaces(storage: Bytes, content: Bytes, i: nat, j: nat)
    requires |content| <= |storage| && i < Count(content)
    ensures i * SUB_MAX < |content| && i * SUB_MAX + |Fragment(content, i)| <= |storage|
    ensures i == j || InPlace(storage, content, j) ==> InPlace(Write(storage, i, Fragment(content, i)), content, j)
  {
    PickedLengthIsFragmentLength(content, i);
  }

  // All sub-packets in place means the whole content is in place.
  lemma InPlaceMeansContent(storage: Bytes, content: Bytes)
    requires |content| <= |storage|
    requires forall i: nat | i < Count(content) :: InPlace(storage, content, i)
    ensures storage[..|content|] == content
  {
    forall k | 0 <= k < |content| ensures storage[k] == content[k] {
      assert InPlace(storage, content, k / SUB_MAX);
    }
  }
}
