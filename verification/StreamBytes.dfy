/** The arithmetic of kernel/FreeRTOS/stream_buffer.c: indices into a ring of bytes, and the length
  * fields of a message buffer.
  */
module StreamBytes {
  import opened Arithmetic

  type Byte = b: nat | b < 256

  const SIZES: nat := 0x1_0000_0000           // size_t
  const LENGTH_BYTES: nat := 4                // sbBYTES_TO_STORE_MESSAGE_LENGTH

  // Where byte number n of the stream is stored.
  function Slot(n: nat, length: nat): (i: nat)
    requires 0 < length
    ensures i < length
  {
    n % length
  }

  // Where byte number k from an index on is: behind it, or else at the start of the buffer, as the two
  // copies of prvWriteBytesToBuffer and prvReadBytesFromBuffer find it.
  function Place(index: nat, k: nat, length: nat): nat {
    if index + k >= length then index + k - length else index + k
  }

  // An index moved on by a count.  The sum is a size_t.
  function Advance(index: nat, count: nat, length: nat): nat {
    var sum := (index + count) % SIZES;
    if sum >= length then sum - length else sum
  }

  // prvBytesInBuffer
  function BytesIn(head: nat, tail: nat, length: nat): nat {
    var count := (length + head - tail) % SIZES;
    if count >= length then count - length else count
  }

  // The result of xStreamBufferSpacesAvailable for the indices it has read
  function SpaceFor(head: nat, tail: nat, length: nat): nat {
    var space := (length + tail - head - 1) % SIZES;
    if space >= length then space - length else space
  }

  lemma PlaceIsSlot(n: nat, k: nat, length: nat)
    requires 0 < length && k <= length
    ensures Place(Slot(n, length), k, length) == Slot(n + k, length)
  {
    var q, r := n / length, Slot(n, length);
    assert n == q * length + r;
    hide Slot;
    if r + k < length {
      SlotIsRemainder(n + k, q, r + k, length);
    } else {
      assert (q + 1) * length == q * length + length;
      SlotIsRemainder(n + k, q + 1, r + k - length, length);
    }
  }

  lemma SlotIsRemainder(n: nat, q: nat, r: nat, length: nat)
    requires n == q * length + r && r < length
    ensures Slot(n, length) == r
  {
    DivisionIsUnique(n, length, q, r);
  }

  lemma AdvanceIsPlaceIff(index: nat, count: nat, length: nat)
    requires index < length < SIZES && count <= length
    ensures Advance(index, count, length) == Place(index, count, length) <==> index + count < SIZES
  {
    if index + count < SIZES {
      Unwrapped(index + count);
    } else {
      WrappedOnce(index + count);
    }
  }

  // The index moved on is that of the byte number moved on, unless the sum wraps.
  lemma AdvanceIsSlotIff(n: nat, count: nat, length: nat)
    requires 0 < length < SIZES && count <= length
    ensures Advance(Slot(n, length), count, length) == Slot(n + count, length) <==> Slot(n, length) + count < SIZES
  {
    hide Slot;
    PlaceIsSlot(n, count, length);
    AdvanceIsPlaceIff(Slot(n, length), count, length);
  }

  // Bytes less than the length of the buffer apart are stored in different places.
  lemma SlotsDiffer(m: nat, n: nat, length: nat)
    requires 0 < length && m < n < m + length
    ensures Slot(m, length) != Slot(n, length)
  {
    PlaceIsSlot(m, n - m, length);
  }

  // What the two computations give when `unread` bytes from index `tail` on are unread: the number of
  // unread bytes and the space left, or 2^32 - length less if the difference of the indices wraps.
  lemma CountsFromIndices(tail: nat, unread: nat, length: nat)
    requires tail < length < SIZES && unread < length
    ensures BytesIn(Place(tail, unread, length), tail, length)
         == if tail + unread < length && unread >= SIZES - length then unread - (SIZES - length) else unread
    ensures var space := length - 1 - unread;
            SpaceFor(Place(tail, unread, length), tail, length)
            == if tail + unread >= length && space >= SIZES - length then space - (SIZES - length) else space
  {
    var head := Place(tail, unread, length);
    var count, space := length + head - tail, length + tail - head - 1;
    if count < SIZES {
      Unwrapped(count);
    } else {
      WrappedOnce(count);
    }
    if space < SIZES {
      Unwrapped(space);
    } else {
      WrappedOnce(space);
    }
  }

  predicate CountsAreRight(read: nat, written: nat, length: nat)
    requires 0 < length
  {
    && BytesIn(Slot(written, length), Slot(read, length), length) == written - read
    && SpaceFor(Slot(written, length), Slot(read, length), length) == length - 1 - (written - read)
  }

  lemma CountsAreExact(read: nat, written: nat, length: nat)
    requires 0 < length <= SIZES / 2 && read <= written < read + length
    ensures CountsAreRight(read, written, length)
  {
    hide Slot;
    PlaceIsSlot(read, written - read, length);
    CountsFromIndices(Slot(read, length), written - read, length);
  }

  // So both are always right exactly for buffers of up to 2^31 bytes.
  lemma CountsAreExactIff(length: nat)
    requires 0 < length < SIZES
    ensures (forall read: nat, written: nat | read <= written < read + length :: CountsAreRight(read, written, length))
       <==> length <= SIZES / 2
  {
    if length <= SIZES / 2 {
      forall read: nat, written: nat | read <= written < read + length ensures CountsAreRight(read, written, length) {
        CountsAreExact(read, written, length);
      }
    } else {
      CountsFromIndices(0, length - 1, length);
      assert !CountsAreRight(0, length - 1, length);
    }
  }

  lemma Unwrapped(n: int)
    requires 0 <= n < SIZES
    ensures n % SIZES == n
  {}

  lemma WrappedOnce(n: int)
    requires SIZES <= n < 2 * SIZES
    ensures n % SIZES == n - SIZES
  {}

  // The length field, which is stored with its low byte first.
  function LengthField(n: nat): (r: seq<Byte>)
    requires n < SIZES
    ensures |r| == LENGTH_BYTES
  {
    [n % 256, n / 256 % 256, n / 0x1_0000 % 256, n / 0x100_0000]
  }

  function LengthOf(field: seq<Byte>): nat
    requires |field| == LENGTH_BYTES
  {
    (field[0] as nat) + 256 * (field[1] as nat) + 0x1_0000 * (field[2] as nat) + 0x100_0000 * (field[3] as nat)
  }

  lemma LengthRoundTrip(n: nat)
    requires n < SIZES
    ensures LengthOf(LengthField(n)) == n
  {
    assert n / 256 / 256 == n / 0x1_0000 && n / 0x1_0000 / 256 == n / 0x100_0000;
  }

  // A message as it is stored.
  function Frame(m: seq<Byte>): (r: seq<Byte>)
    requires |m| < SIZES
    ensures |r| == LENGTH_BYTES + |m| && r[LENGTH_BYTES..] == m
  {
    LengthField(|m|) + m
  }

  predicate Storable(m: seq<Byte>) { 0 < |m| < SIZES }

  predicate AllStorable(ms: seq<seq<Byte>>) {
    forall i :: 0 <= i < |ms| ==> Storable(ms[i])
  }

  function Frames(ms: seq<seq<Byte>>): seq<Byte>
    requires AllStorable(ms)
  {
    if ms == [] then [] else Frame(ms[0]) + Frames(ms[1..])
  }

  lemma Concat(a: seq<Byte>, b: seq<Byte>, c: seq<Byte>)
    ensures a + (b + c) == (a + b) + c
  {}

  lemma {:induction false} FramesSplit(ms: seq<seq<Byte>>, d: nat)
    requires d <= |ms| && AllStorable(ms)
    ensures Frames(ms) == Frames(ms[..d]) + Frames(ms[d..])
  {
    if d > 0 {
      var tail := ms[1..];
      FramesSplit(tail, d - 1);
      assert ms[..d][1..] == tail[..d - 1] && ms[d..] == tail[d - 1..];
      Concat(Frame(ms[0]), Frames(tail[..d - 1]), Frames(tail[d - 1..]));
    } else {
      assert ms[..0] == [] && ms[0..] == ms;
    }
  }

  lemma FramesAppend(ms: seq<seq<Byte>>, m: seq<Byte>)
    requires Storable(m) && AllStorable(ms)
    ensures Frames(ms + [m]) == Frames(ms) + Frame(m)
  {
    FramesSplit(ms + [m], |ms|);
    assert (ms + [m])[..|ms|] == ms && (ms + [m])[|ms|..] == [m];
    assert [m][1..] == [];
  }

  // The bytes after the first d messages begin with the next message, whole.
  lemma NextFrame(ms: seq<seq<Byte>>, d: nat)
    requires d < |ms| && AllStorable(ms)
    ensures var at := |Frames(ms[..d])|; var m := ms[d];
            && at + LENGTH_BYTES + |m| <= |Frames(ms)|
            && Frames(ms)[at..at + LENGTH_BYTES] == LengthField(|m|)
            && Frames(ms)[at + LENGTH_BYTES..at + LENGTH_BYTES + |m|] == m
            && Frames(ms[..d + 1]) == Frames(ms[..d]) + Frame(m)
  {
    hide Frame;
    FramesSplit(ms, d);
    assert ms[..d + 1] == ms[..d] + [ms[d]];
    FramesAppend(ms[..d], ms[d]);
    FrameParts(ms[d], Frames(ms[d..][1..]), Frames(ms[..d]));
  }

  lemma FrameParts(m: seq<Byte>, more: seq<Byte>, less: seq<Byte>)
    requires Storable(m)
    ensures var all := less + (Frame(m) + more);
            && |less| + LENGTH_BYTES + |m| <= |all|
            && all[|less|..|less| + LENGTH_BYTES] == LengthField(|m|)
            && all[|less| + LENGTH_BYTES..|less| + LENGTH_BYTES + |m|] == m
  {}
}
