/** The code of a stream or message buffer, as one task runs it while no other uses the buffer; see
  * StreamProtocol for a writer and a reader that run at the same time.
  */
module StreamBuffer {
  import opened StreamBytes

  // How far index i comes after index `at` on the ring.
  function Distance(at: nat, i: nat, length: nat): (d: nat)
    requires at < length && i < length
    ensures d < length && Place(at, d, length) == i
  {
    if i >= at then i - at else i + length - at
  }

  // The n bytes from index `at` on.
  function Run(bytes: seq<Byte>, at: nat, n: nat): (r: seq<Byte>)
    requires at < |bytes| && n <= |bytes|
    ensures |r| == n && forall k :: 0 <= k < n ==> r[k] == bytes[Place(at, k, |bytes|)]
  {
    seq(n, k requires 0 <= k < n => bytes[Place(at, k, |bytes|)])
  }

  // The ring after `data` has been written at index `at`.
  predicate Written(before: seq<Byte>, after: seq<Byte>, data: seq<Byte>, at: nat)
    requires at < |before|
  {
    && |after| == |before|
    && forall i :: 0 <= i < |before| ==>
         after[i] == if Distance(at, i, |before|) < |data| then data[Distance(at, i, |before|)] else before[i]
  }

  // One copy that stays within the storage.
  lemma CopiedOnce(before: seq<Byte>, after: seq<Byte>, data: seq<Byte>, at: nat)
    requires at < |before| && at + |data| <= |before| && after == before[..at] + data + before[at + |data|..]
    ensures Written(before, after, data, at)
  {}

  // Two writes one after the other are one write of both.
  lemma WrittenTwice(a: seq<Byte>, b: seq<Byte>, c: seq<Byte>, x: seq<Byte>, y: seq<Byte>, at: nat)
    requires at < |a| && Written(a, b, x, at) && |x| + |y| <= |a|
    requires Written(b, c, y, Place(at, |x|, |a|))
    ensures Written(a, c, x + y, at)
  {}

  // Bytes written after n unread ones, with room for them, follow these and leave them alone.
  lemma WrittenBehind(before: seq<Byte>, after: seq<Byte>, data: seq<Byte>, tail: nat, n: nat)
    requires tail < |before| && n + |data| < |before|
    requires Written(before, after, data, Place(tail, n, |before|))
    ensures Run(after, tail, n + |data|) == Run(before, tail, n) + data
    ensures Run(after, tail, n) == Run(before, tail, n)
  {
    var head, length := Place(tail, n, |before|), |before|;
    forall k | 0 <= k < n + |data|
      ensures after[Place(tail, k, length)] == if k < n then before[Place(tail, k, length)] else data[k - n]
    {
      var i := Place(tail, k, length);
      assert Distance(head, i, length) == if k < n then length + k - n else k - n;
    }
  }

  lemma RunSplit(bytes: seq<Byte>, at: nat, m: nat, n: nat)
    requires at < |bytes| && m + n <= |bytes|
    ensures Run(bytes, at, m + n)[..m] == Run(bytes, at, m)
    ensures m < |bytes| ==> Run(bytes, at, m + n)[m..] == Run(bytes, Place(at, m, |bytes|), n)
  {}

  class Buffer {
    const length: nat               // xLength
    const isMessageBuffer: bool     // sbFLAGS_IS_MESSAGE_BUFFER
    const storage: array<Byte>      // pucBuffer
    var head: nat                   // xHead
    var tail: nat                   // xTail
    ghost var messages: seq<seq<Byte>>

    ghost predicate Valid()
      reads this, storage
    {
      && 0 < length <= SIZES / 2 && storage.Length == length && head < length && tail < length
      && (isMessageBuffer ==> AllStorable(messages) && Contents() == Frames(messages))
    }

    // The bytes that have been written and not yet read.
    ghost function Contents(): seq<Byte>
      requires 0 < length <= SIZES / 2 && storage.Length == length && head < length && tail < length
      reads this, storage
    {
      Run(storage[..], tail, Distance(tail, head, length))
    }

    // prvInitialiseNewStreamBuffer
    constructor (length: nat, isMessageBuffer: bool)
      requires 0 < length <= SIZES / 2
      ensures Valid() && fresh(storage) && Contents() == [] && messages == []
      ensures this.length == length && this.isMessageBuffer == isMessageBuffer
    {
      this.length, this.isMessageBuffer := length, isMessageBuffer;
      storage := new Byte[length](_ => 0);
      head, tail, messages := 0, 0, [];
    }

    // prvBytesInBuffer
    function BytesInBuffer(): (count: nat)
      requires Valid()
      reads this, storage
      ensures count == |Contents()|
    {
      CountsFromIndices(tail, Distance(tail, head, length), length);
      BytesIn(head, tail, length)
    }

    // xStreamBufferSpacesAvailable
    function SpacesAvailable(): (space: nat)
      requires Valid()
      reads this, storage
      ensures space == length - 1 - |Contents()|
    {
      CountsFromIndices(tail, Distance(tail, head, length), length);
      SpaceFor(head, tail, length)
    }

    // memcpy
    method CopyIn(data: seq<Byte>, at: nat)
      requires at + |data| <= storage.Length
      modifies storage
      ensures storage[..] == old(storage[..at]) + data + old(storage[at + |data|..])
    {
      for k := 0 to |data|
        invariant storage[..] == old(storage[..at]) + data[..k] + old(storage[at + k..])
      {
        storage[at + k] := data[k];
      }
    }

    // prvWriteBytesToBuffer
    method WriteBytesToBuffer(data: seq<Byte>, at: nat) returns (next: nat)
      requires storage.Length == length && at < length && |data| <= length
      modifies storage
      ensures next == Advance(at, |data|, length)
      ensures Written(old(storage[..]), storage[..], data, at)
    {
      hide Written, Distance;
      ghost var before := storage[..];
      var firstLength := if length - at <= |data| then length - at else |data|;
      CopyIn(data[..firstLength], at);
      ghost var middle := storage[..];
      CopiedOnce(before, middle, data[..firstLength], at);
      if |data| > firstLength {
        CopyIn(data[firstLength..], 0);
        CopiedOnce(middle, storage[..], data[firstLength..], 0);
        WrittenTwice(before, middle, storage[..], data[..firstLength], data[firstLength..], at);
        assert data[..firstLength] + data[firstLength..] == data;
      } else {
        assert data[..firstLength] == data;
      }
      next := (at + |data|) % SIZES;
      if next >= length {
        next := next - length;
      }
    }

    // prvReadBytesFromBuffer
    method ReadBytesFromBuffer(count: nat, at: nat) returns (data: seq<Byte>, next: nat)
      requires storage.Length == length && at < length && count <= length
      ensures data == Run(storage[..], at, count) && next == Advance(at, count, length)
    {
      var firstLength := if length - at <= count then length - at else count;
      data := storage[at..at + firstLength];
      if count > firstLength {
        data := data + storage[..count - firstLength];
      }
      next := (at + count) % SIZES;
      if next >= length {
        next := next - length;
      }
    }

    // The space that a send call needs to store all of `data`.
    function Required(data: seq<Byte>): nat { if isMessageBuffer then |data| + LENGTH_BYTES else |data| }

    // prvWriteMessageToBuffer, for a space that is at most what there is.
    method WriteMessageToBuffer(data: seq<Byte>, space: nat, requiredSpace: nat) returns (sent: nat)
      requires Valid() && Required(data) < SIZES && space <= length - 1 - |Contents()|
      requires isMessageBuffer ==> requiredSpace == Required(data)
      modifies this`head, this`messages, storage
      ensures Valid() && tail == old(tail)
      ensures sent == if !isMessageBuffer then (if |data| <= space then |data| else space)
                      else if requiredSpace <= space then |data| else 0
      ensures sent == 0 ==> head == old(head) && Contents() == old(Contents()) && messages == old(messages)
      ensures sent > 0 && isMessageBuffer ==>
        messages == old(messages) + [data] && Contents() == old(Contents()) + Frame(data)
      ensures !isMessageBuffer ==> messages == old(messages) && Contents() == old(Contents()) + data[..sent]
    {
      hide Frames, Frame, LengthField, Run, Written, Place, Advance, Distance;
      var nextHead := head;
      ghost var unread, bytes := Distance(tail, head, length), storage[..];
      DistanceIs(tail, head, length);
      assert data[..|data|] == data && Contents() + data[..0] == Contents();
      sent := |data|;
      if isMessageBuffer {
        if space >= requiredSpace {
          AdvanceIsPlaceIff(head, LENGTH_BYTES, length);
          nextHead := WriteBytesToBuffer(LengthField(|data|), nextHead);
          NewDistance(tail, unread, LENGTH_BYTES, length);
          WrittenBehind(bytes, storage[..], LengthField(|data|), tail, unread);
        } else {
          sent := 0;
        }
      } else {
        sent := if |data| <= space then |data| else space;
      }
      if sent != 0 {
        ghost var middle := storage[..];
        AdvanceIsPlaceIff(nextHead, sent, length);
        head := WriteBytesToBuffer(data[..sent], nextHead);
        if isMessageBuffer {
          MessageWritten(bytes, middle, storage[..], data, tail, unread, messages);
          messages := messages + [data];
        } else {
          WrittenBehind(bytes, storage[..], data[..sent], tail, unread);
          NewDistance(tail, unread, sent, length);
        }
      }
    }

    // prvReadMessageFromBuffer
    method ReadMessageFromBuffer(want: nat, bytesAvailable: nat) returns (got: seq<Byte>)
      requires Valid() && bytesAvailable == |Contents()| && (isMessageBuffer ==> LENGTH_BYTES < bytesAvailable)
      modifies this`tail, this`messages
      ensures Valid() && head == old(head)
      ensures isMessageBuffer ==>
        && old(messages) != []
        && if |old(messages)[0]| > want then got == [] && tail == old(tail) && messages == old(messages)
           else got == old(messages)[0] && messages == old(messages)[1..]
      ensures !isMessageBuffer ==>
        && messages == old(messages)
        && got == old(Contents())[..if want <= bytesAvailable then want else bytesAvailable]
        && Contents() == old(Contents())[|got|..]
    {
      hide Frames, Frame, LengthField, Run, Place, Advance, Distance;
      var nextTail, available := tail, bytesAvailable;
      var nextLength := want;
      ghost var bytes := storage[..];
      DistanceIs(tail, head, length);
      if isMessageBuffer {
        MessageRead(bytes, tail, bytesAvailable, messages);
        AdvanceIsPlaceIff(tail, LENGTH_BYTES, length);
        var field;
        field, nextTail := ReadBytesFromBuffer(LENGTH_BYTES, nextTail);
        nextLength := LengthOf(field);
        available := available - LENGTH_BYTES;
        if nextLength > want {
          nextLength := 0;
        }
      }
      var count := if nextLength <= available then nextLength else available;
      got := [];
      if count != 0 {
        if isMessageBuffer {
          messages := messages[1..];
        } else {
          StreamRead(bytes, tail, bytesAvailable, count);
        }
        AdvanceIsPlaceIff(nextTail, count, length);
        got, tail := ReadBytesFromBuffer(count, nextTail);
      }
    }

    // xStreamBufferSend without waiting.  A message is sent whole or not at all; of other data, as
    // much as fits.
    method Send(data: seq<Byte>) returns (sent: nat)
      requires Valid() && Required(data) < SIZES
      modifies this`head, this`messages, storage
      ensures Valid() && tail == old(tail)
      ensures var free := length - 1 - |old(Contents())|;
              sent == if !isMessageBuffer then (if |data| <= free then |data| else free)
                      else if Required(data) <= free then |data| else 0
      ensures sent == 0 ==> head == old(head) && Contents() == old(Contents()) && messages == old(messages)
      ensures sent > 0 && isMessageBuffer ==> messages == old(messages) + [data]
      ensures !isMessageBuffer ==> Contents() == old(Contents()) + data[..sent]
    {
      var requiredSpace := |data|;
      if isMessageBuffer {
        requiredSpace := requiredSpace + LENGTH_BYTES;
      } else if requiredSpace > length - 1 {
        requiredSpace := length - 1;
      }
      var space := SpacesAvailable();
      sent := WriteMessageToBuffer(data, space, requiredSpace);
    }

    // xStreamBufferReceive without waiting.  A message that is longer than the caller's buffer stays
    // where it is.
    method Receive(want: nat) returns (got: seq<Byte>)
      requires Valid()
      modifies this`tail, this`messages
      ensures Valid() && head == old(head)
      ensures isMessageBuffer ==>
        if old(messages) == [] || |old(messages)[0]| > want
        then got == [] && tail == old(tail) && messages == old(messages)
        else got == old(messages)[0] && messages == old(messages)[1..]
      ensures !isMessageBuffer ==>
        && got == old(Contents())[..if want <= |old(Contents())| then want else |old(Contents())|]
        && Contents() == old(Contents())[|got|..]
    {
      hide Run;
      var bytesToStoreMessageLength := if isMessageBuffer then LENGTH_BYTES else 0;
      var bytesAvailable := BytesInBuffer();
      got := [];
      if isMessageBuffer && messages != [] {
        FirstMessage(messages);
      }
      if bytesAvailable > bytesToStoreMessageLength {
        got := ReadMessageFromBuffer(want, bytesAvailable);
      }
    }

    // xStreamBufferNextMessageLengthBytes
    method NextMessageLength() returns (size: nat)
      requires Valid()
      ensures size == if isMessageBuffer && messages != [] then |messages[0]| else 0
    {
      hide Run, Frames, Frame, LengthField, LengthOf, Place, Advance, Distance;
      size := 0;
      if isMessageBuffer {
        var bytesAvailable := BytesInBuffer();
        if messages != [] {
          FirstMessage(messages);
        }
        if bytesAvailable > LENGTH_BYTES {
          DistanceIs(tail, head, length);
          MessageRead(storage[..], tail, bytesAvailable, messages);
          var field, _ := ReadBytesFromBuffer(LENGTH_BYTES, tail);
          size := LengthOf(field);
        }
      }
    }
  }

  lemma StreamRead(bytes: seq<Byte>, tail: nat, unread: nat, count: nat)
    requires tail < |bytes| && count <= unread < |bytes|
    ensures var length := |bytes|; var tail' := Place(tail, count, length);
            var head := Place(tail, unread, length);
            && head < length && tail' < length && Distance(tail', head, length) == unread - count
            && Run(bytes, tail, count) == Run(bytes, tail, unread)[..count]
            && Run(bytes, tail', unread - count) == Run(bytes, tail, unread)[count..]
  {
    LessDistance(tail, unread, count, |bytes|);
    RunSplit(bytes, tail, count, unread - count);
  }

  // The length field, the message after it, and what is left after both.
  lemma MessageRead(bytes: seq<Byte>, tail: nat, unread: nat, messages: seq<seq<Byte>>)
    requires tail < |bytes| && LENGTH_BYTES < unread < |bytes|
    requires AllStorable(messages) && Run(bytes, tail, unread) == Frames(messages)
    ensures var length := |bytes|; var at := Place(tail, LENGTH_BYTES, length);
            && messages != [] && at < length && AllStorable(messages[1..])
            && var m := messages[0]; var tail' := Place(at, |m|, length);
            && LENGTH_BYTES + |m| <= unread && 0 < |m|
            && LengthOf(Run(bytes, tail, LENGTH_BYTES)) == |m| && Run(bytes, at, |m|) == m
            && tail' < length && Distance(tail', Place(tail, unread, length), length) == unread - LENGTH_BYTES - |m|
            && Run(bytes, tail', unread - LENGTH_BYTES - |m|) == Frames(messages[1..])
  {
    hide Frames, LengthField, LengthOf, Run;
    FirstMessage(messages);
    var length, size := |bytes|, |messages[0]|;
    LengthRoundTrip(size);
    StreamRead(bytes, tail, unread, LENGTH_BYTES);
    var at := Place(tail, LENGTH_BYTES, length);
    StreamRead(bytes, at, unread - LENGTH_BYTES, size);
    LessDistance(tail, unread, LENGTH_BYTES, length);
    assert Frames(messages)[LENGTH_BYTES..][size..] == Frames(messages)[LENGTH_BYTES + size..];
  }

  lemma DistanceIs(tail: nat, head: nat, length: nat)
    requires tail < length && head < length
    ensures Place(tail, Distance(tail, head, length), length) == head && Distance(tail, head, length) < length
  {}

  // The length field and then the message, written behind n unread bytes.
  lemma MessageWritten(before: seq<Byte>, middle: seq<Byte>, after: seq<Byte>, data: seq<Byte>, tail: nat, n: nat,
                       messages: seq<seq<Byte>>)
    requires tail < |before| && n + LENGTH_BYTES + |data| < |before| <= SIZES / 2 && Storable(data)
    requires var head := Place(tail, n, |before|);
             && Written(before, middle, LengthField(|data|), head)
             && Written(middle, after, data, Place(head, LENGTH_BYTES, |before|))
    requires AllStorable(messages) && Run(before, tail, n) == Frames(messages)
    ensures var length := |before|; var n' := n + LENGTH_BYTES + |data|;
            var head' := Place(Place(Place(tail, n, length), LENGTH_BYTES, length), |data|, length);
            && head' < length && Distance(tail, head', length) == n'
            && Run(after, tail, n') == Run(before, tail, n) + Frame(data) == Frames(messages + [data])
  {
    hide Frames, LengthField;
    var length := |before|;
    var head := Place(tail, n, length);
    WrittenTwice(before, middle, after, LengthField(|data|), data, head);
    WrittenBehind(before, after, Frame(data), tail, n);
    FramesAppend(messages, data);
  }

  lemma NewDistance(tail: nat, unread: nat, more: nat, length: nat)
    requires tail < length && unread + more < length
    ensures var head := Place(Place(tail, unread, length), more, length);
            head < length && Distance(tail, head, length) == unread + more
  {}

  lemma LessDistance(tail: nat, unread: nat, count: nat, length: nat)
    requires tail < length && count <= unread < length
    ensures Place(tail, count, length) < length
    ensures Distance(Place(tail, count, length), Place(tail, unread, length), length) == unread - count
  {}

  lemma FirstMessage(ms: seq<seq<Byte>>)
    requires AllStorable(ms) && (ms != [] || Frames(ms) != [])
    ensures ms != [] && |Frames(ms)| == LENGTH_BYTES + |ms[0]| + |Frames(ms[1..])|
    ensures Frames(ms)[..LENGTH_BYTES] == LengthField(|ms[0]|)
    ensures Frames(ms)[LENGTH_BYTES..][..|ms[0]|] == ms[0]
    ensures Frames(ms)[LENGTH_BYTES + |ms[0]|..] == Frames(ms[1..])
  {}
}
