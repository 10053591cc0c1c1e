/** One writer and one reader of a stream or message buffer, without a lock between them: each reads
  * the other's index, copies bytes one at a time, and publishes its own index at the end.  The steps
  * of the two interleave in any way.
  */
module StreamProtocol {
  import opened StreamBytes

  datatype Setup = Setup(length: nat, isMessageBuffer: bool)

  predicate SetupOk(c: Setup) { 0 < c.length < SIZES }

  // The longest buffer for which no run goes wrong; see StreamRuns.
  function LongestSafe(c: Setup): nat { if c.isMessageBuffer then SIZES / 2 + 2 else SIZES / 2 }

  // Where the writer is in xStreamBufferSend.
  datatype Writer =
    | Ready
    | Asked(data: seq<Byte>)                                  // about to measure the space
    | ReadingTail(data: seq<Byte>, original: nat)             // xOriginalTail has been read
    | Checking(data: seq<Byte>, original: nat, space: nat)    // the space has been computed
    | Measured(data: seq<Byte>, space: nat)
    | Writing(data: seq<Byte>, payload: seq<Byte>, done: nat)

  // Where the reader is in xStreamBufferReceive; `want` is the size of the caller's buffer.
  datatype Reader =
    | Idle
    | Wanting(want: nat)                                      // about to count the bytes
    | Counted(want: nat, avail: nat)
    | ReadingLength(want: nat, avail: nat, field: seq<Byte>)
    | Reading(field: seq<Byte>, count: nat, got: seq<Byte>)   // after the length field, if there is one

  // The storage area and the two indices; `sent` and `received` are all the bytes published and
  // consumed so far, `accepted` and `delivered` what the calls that did so reported.
  datatype State = State(
    buffer: seq<Byte>, head: nat, tail: nat, writer: Writer, reader: Reader,
    sent: seq<Byte>, received: seq<Byte>, accepted: seq<seq<Byte>>, delivered: seq<seq<Byte>>)

  datatype Action =
    | Send(data: seq<Byte>) | ReadTail | ComputeSpace | RecheckTail | StartWrite | WriteByte | PublishHead
    | Receive(want: nat) | CountBytes | StartRead | ReadLengthByte | UseLength | ReadByte | PublishTail

  // What precedes the data of one call in the buffer.
  function Overhead(c: Setup): nat { if c.isMessageBuffer then LENGTH_BYTES else 0 }

  // Where byte k of what one call copies is, and where the index goes.  A length field is copied, and
  // passed, by a call of its own.
  function PlaceOf(c: Setup, index: nat, k: nat): nat {
    if k < Overhead(c) then Place(index, k, c.length)
    else Place(PastField(c, index), k - Overhead(c), c.length)
  }

  function PastField(c: Setup, index: nat): nat {
    if c.isMessageBuffer then Advance(index, LENGTH_BYTES, c.length) else index
  }

  function MovedOn(c: Setup, index: nat, size: nat): nat {
    Advance(PastField(c, index), size, c.length)
  }

  function Required(c: Setup, data: seq<Byte>): nat {
    if c.isMessageBuffer then |data| + LENGTH_BYTES else |data|
  }

  // What prvWriteMessageToBuffer copies into the buffer.
  function Payload(c: Setup, data: seq<Byte>, space: nat): seq<Byte>
    requires Required(c, data) < SIZES
  {
    if c.isMessageBuffer then (if space >= Required(c, data) then Frame(data) else [])
    else if |data| <= space then data else data[..space]
  }

  ghost predicate Enabled(c: Setup, s: State, a: Action) {
    match a
    // A task may measure the space, or count the bytes, again after waiting.
    case Send(data) => s.writer.Ready? && Required(c, data) < SIZES
    case ReadTail => s.writer.Asked? || s.writer.Measured?
    case ComputeSpace => s.writer.ReadingTail?
    case RecheckTail => s.writer.Checking?
    case StartWrite => s.writer.Measured? && Required(c, s.writer.data) < SIZES
    case WriteByte => s.writer.Writing? && s.writer.done < |s.writer.payload|
    case PublishHead => s.writer.Writing? && s.writer.done == |s.writer.payload|
    case Receive(want) => s.reader.Idle?
    case CountBytes => s.reader.Wanting? || s.reader.Counted?
    case StartRead => s.reader.Counted?
    case ReadLengthByte => s.reader.ReadingLength? && |s.reader.field| < LENGTH_BYTES
    case UseLength => s.reader.ReadingLength? && |s.reader.field| == LENGTH_BYTES
    case ReadByte => s.reader.Reading? && |s.reader.got| < s.reader.count
    case PublishTail => s.reader.Reading? && |s.reader.got| == s.reader.count
  }

  function At(s: State, i: nat): Byte { if i < |s.buffer| then s.buffer[i] else 0 }

  ghost function Next(c: Setup, s: State, a: Action): State
    requires SetupOk(c) && Enabled(c, s, a)
  {
    match a
    case Send(_) | ReadTail | ComputeSpace | RecheckTail | StartWrite | WriteByte | PublishHead => WriterNext(c, s, a)
    case _ => ReaderNext(c, s, a)
  }

  ghost function WriterNext(c: Setup, s: State, a: Action): State
    requires SetupOk(c) && Enabled(c, s, a)
  {
    var w := s.writer;
    match a
    case Send(data) => s.(writer := Asked(data))
    case ReadTail => s.(writer := ReadingTail(w.data, s.tail))
    case ComputeSpace => s.(writer := Checking(w.data, w.original, SpaceFor(s.head, s.tail, c.length)))
    case RecheckTail => s.(writer := if s.tail == w.original then Measured(w.data, w.space) else Asked(w.data))
    case StartWrite =>
      var payload := Payload(c, w.data, w.space);
      s.(writer := if payload == [] then Ready else Writing(w.data, payload, 0))
    case WriteByte =>
      var i := PlaceOf(c, s.head, w.done);
      s.(buffer := if i < |s.buffer| then s.buffer[i := w.payload[w.done]] else s.buffer,
         writer := w.(done := w.done + 1))
    case PublishHead =>
      // The head stays where it is after the length field of an empty message.
      if w.data == [] then s.(writer := Ready) else
        var data := if c.isMessageBuffer then w.data else w.payload;
        s.(head := MovedOn(c, s.head, |data|), writer := Ready, sent := s.sent + w.payload,
           accepted := s.accepted + [data])
    case _ => s
  }

  ghost function ReaderNext(c: Setup, s: State, a: Action): State
    requires SetupOk(c) && Enabled(c, s, a)
  {
    var r := s.reader;
    match a
    case Receive(want) => s.(reader := Wanting(want))
    case CountBytes => s.(reader := Counted(r.want, BytesIn(s.head, s.tail, c.length)))
    case StartRead =>
      if c.isMessageBuffer then
        s.(reader := if r.avail <= LENGTH_BYTES then Idle else ReadingLength(r.want, r.avail, []))
      else
        var count := if r.want <= r.avail then r.want else r.avail;
        s.(reader := if count == 0 then Idle else Reading([], count, []))
    case ReadLengthByte =>
      s.(reader := ReadingLength(r.want, r.avail, r.field + [At(s, PlaceOf(c, s.tail, |r.field|))]))
    case UseLength =>
      var size := LengthOf(r.field);
      var next := if size > r.want then 0 else size;
      var left := if r.avail < LENGTH_BYTES then 0 else r.avail - LENGTH_BYTES;
      var count := if next <= left then next else left;
      s.(reader := if count == 0 then Idle else Reading(r.field, count, []))
    case ReadByte =>
      s.(reader := Reading(r.field, r.count, r.got + [At(s, PlaceOf(c, s.tail, |r.field| + |r.got|))]))
    case PublishTail =>
      s.(tail := MovedOn(c, s.tail, r.count), reader := Idle,
         received := s.received + r.field + r.got, delivered := s.delivered + [r.got])
    case _ => s
  }

  // ---------------------------------------------------------------- invariants

  function Bytes(parts: seq<seq<Byte>>): seq<Byte> {
    if parts == [] then [] else Bytes(parts[..|parts| - 1]) + parts[|parts| - 1]
  }

  function Free(c: Setup, s: State): int { c.length - 1 - (|s.sent| - |s.received|) }

  // The bytes from tail to head are the bytes sent and not yet received.
  ghost predicate RingOk(c: Setup, s: State) {
    && SetupOk(c) && |s.buffer| == c.length <= LongestSafe(c)
    && s.received <= s.sent && 0 <= Free(c, s)
    && s.head == Slot(|s.sent|, c.length) && s.tail == Slot(|s.received|, c.length)
    && forall k :: |s.received| <= k < |s.sent| ==> s.buffer[Slot(k, c.length)] == s.sent[k]
  }

  // The writer's idea of the space is never more than the space there is.
  ghost predicate WriterOk(c: Setup, s: State)
    requires SetupOk(c)
  {
    match s.writer
    case Asked(data) => Required(c, data) < SIZES
    case ReadingTail(data, _) => Required(c, data) < SIZES
    case Checking(data, _, space) => space <= Free(c, s) && Required(c, data) < SIZES
    case Measured(data, space) => space <= Free(c, s) && Required(c, data) < SIZES
    case Writing(data, payload, done) =>
      && done <= |payload| <= Free(c, s) && Required(c, data) < SIZES
      && (if c.isMessageBuffer then payload == Frame(data) else [] < payload <= data)
      && forall k :: 0 <= k < done ==> At(s, Slot(|s.sent| + k, c.length)) == payload[k]
    case _ => true
  }

  // The reader's count is never more than the number of unread bytes, and what it has copied is what
  // comes next.
  ghost predicate ReaderOk(s: State)
    requires |s.received| <= |s.sent|
  {
    var n := |s.received|;
    match s.reader
    case Counted(_, avail) => avail <= |s.sent| - n
    case ReadingLength(_, avail, field) =>
      LENGTH_BYTES < avail <= |s.sent| - n && |field| <= LENGTH_BYTES && field == s.sent[n..n + |field|]
    case Reading(field, count, got) =>
      && 0 < count && |field| + count <= |s.sent| - n && |got| <= count
      && field + got == s.sent[n..n + |field| + |got|]
    case _ => true
  }

  // The bytes of a message buffer are whole messages, each with its length before it.
  ghost predicate MessagesOk(s: State) {
    && AllStorable(s.accepted) && s.sent == Frames(s.accepted)
    && s.delivered <= s.accepted && s.received == Frames(s.delivered)
    && match s.reader
       case Counted(_, avail) => avail <= LENGTH_BYTES || NextFits(s, avail)
       case ReadingLength(_, avail, _) => NextFits(s, avail)
       case Reading(field, count, _) =>
         NextFits(s, LENGTH_BYTES + count) && |field| == LENGTH_BYTES && count == |s.accepted[|s.delivered|]|
       case _ => true
  }

  ghost predicate NextFits(s: State, avail: nat) {
    var d := |s.delivered|;
    d < |s.accepted| && LENGTH_BYTES + |s.accepted[d]| <= avail
  }

  ghost predicate StreamOk(s: State) {
    && Bytes(s.accepted) == s.sent && Bytes(s.delivered) == s.received
    && !s.reader.ReadingLength? && (s.reader.Reading? ==> s.reader.field == [])
  }

  ghost predicate Inv(c: Setup, s: State) {
    && RingOk(c, s) && WriterOk(c, s) && ReaderOk(s)
    && if c.isMessageBuffer then MessagesOk(s) else StreamOk(s)
  }

  // ---------------------------------------------------------------- steps of the writer

  // Neither count is ever too large.  Too small a count of bytes does not reach to a message.
  lemma CountsAreLowerBounds(c: Setup, s: State)
    requires RingOk(c, s)
    ensures SpaceFor(s.head, s.tail, c.length) <= Free(c, s)
    ensures var count := BytesIn(s.head, s.tail, c.length); var unread := |s.sent| - |s.received|;
            count == unread || (count < unread && c.isMessageBuffer && count <= LENGTH_BYTES)
  {
    hide Slot, BytesIn, SpaceFor;
    var n, unread := |s.received|, |s.sent| - |s.received|;
    PlaceIsSlot(n, unread, c.length);
    CountsFromIndices(s.tail, unread, c.length);
  }

  // The indices that a call computes, and the places where it copies, are those of the byte numbers.
  lemma PlaceOfIsSlot(c: Setup, n: nat, k: nat)
    requires SetupOk(c) && c.length <= LongestSafe(c) && k < c.length
    ensures PlaceOf(c, Slot(n, c.length), k) == Slot(n + k, c.length)
  {
    hide Slot;
    PlaceIsSlot(n, k, c.length);
    if Overhead(c) <= k {
      AdvanceIsSlotIff(n, Overhead(c), c.length);
      PlaceIsSlot(n + Overhead(c), k - Overhead(c), c.length);
    }
  }

  lemma MovedOnIsSlot(c: Setup, n: nat, size: nat)
    requires SetupOk(c) && c.length <= LongestSafe(c) && Overhead(c) + size < c.length
    ensures MovedOn(c, Slot(n, c.length), size) == Slot(n + Overhead(c) + size, c.length)
  {
    hide Slot;
    AdvanceIsSlotIff(n, Overhead(c), c.length);
    AdvanceIsSlotIff(n + Overhead(c), size, c.length);
  }

  lemma PayloadFits(c: Setup, data: seq<Byte>, space: nat)
    requires Required(c, data) < SIZES
    ensures var p := Payload(c, data, space);
            && |p| <= space
            && (p != [] ==> if c.isMessageBuffer then p == Frame(data) else [] < p <= data)
  {}

  // Writing a byte touches none that is unread, or already written for this call.
  lemma WriteByteKeepsInv(c: Setup, s: State)
    requires Inv(c, s) && Enabled(c, s, WriteByte)
    ensures var s' := Next(c, s, WriteByte);
            && Inv(c, s')
            && forall k :: |s.received| <= k < |s.sent| ==> s'.buffer[Slot(k, c.length)] == s.buffer[Slot(k, c.length)]
  {
    hide MessagesOk, StreamOk, Slot, PlaceOf, MovedOn, Frame;
    var w, n := s.writer, |s.sent|;
    var s' := Next(c, s, WriteByte);
    PlaceOfIsSlot(c, n, w.done);
    forall k | |s.received| <= k < n + w.done ensures Slot(k, c.length) != Slot(n + w.done, c.length) {
      SlotsDiffer(k, n + w.done, c.length);
    }
    assert RingOk(c, s');
    forall k | 0 <= k < w.done + 1 ensures At(s', Slot(n + k, c.length)) == w.payload[k] {
      if k < w.done {
        assert Slot(n + k, c.length) != Slot(n + w.done, c.length);
      }
    }
    assert WriterOk(c, s');
    if c.isMessageBuffer {
      MessagesFrame(s, s');
    } else {
      StreamFrame(s, s');
    }
  }

  lemma MessagesFrame(s: State, s': State)
    requires MessagesOk(s) && s'.accepted == s.accepted && s'.delivered == s.delivered && s'.sent == s.sent
    requires s'.received == s.received && s'.reader == s.reader
    ensures MessagesOk(s')
  {}

  lemma StreamFrame(s: State, s': State)
    requires StreamOk(s) && s'.accepted == s.accepted && s'.delivered == s.delivered && s'.sent == s.sent
    requires s'.received == s.received && s'.reader == s.reader
    ensures StreamOk(s')
  {}

  // A byte that will be unread when the head is published.
  lemma WrittenByte(c: Setup, s: State, k: nat)
    requires RingOk(c, s) && WriterOk(c, s) && s.writer.Writing? && s.writer.done == |s.writer.payload|
    requires |s.received| <= k < |s.sent| + s.writer.done
    ensures s.buffer[Slot(k, c.length)] == (s.sent + s.writer.payload)[k]
  {
    hide Slot, Frame;
    var n := |s.sent|;
    if k >= n {
      assert At(s, Slot(n + (k - n), c.length)) == s.writer.payload[k - n];
    }
  }

  // Publishing the head makes the bytes written the next ones to be read.
  lemma PublishKeepsRing(c: Setup, s: State)
    requires Inv(c, s) && Enabled(c, s, PublishHead) && s.writer.data != []
    ensures var s' := Next(c, s, PublishHead);
            && RingOk(c, s') && s'.sent == s.sent + s.writer.payload && s'.buffer == s.buffer
            && s'.reader == s.reader && s'.received == s.received && s'.delivered == s.delivered
  {
    hide MessagesOk, StreamOk, Slot, PlaceOf, MovedOn, Frame;
    var w, n := s.writer, |s.sent|;
    var s' := Next(c, s, PublishHead);
    MovedOnIsSlot(c, n, |w.payload| - Overhead(c));
    forall k | |s.received| <= k < |s'.sent| ensures s.buffer[Slot(k, c.length)] == s'.sent[k] {
      WrittenByte(c, s, k);
    }
  }

  lemma ReaderFrame(s: State, s': State)
    requires |s.received| <= |s.sent| && ReaderOk(s)
    requires s.sent <= s'.sent && s'.received == s.received && s'.reader == s.reader
    ensures ReaderOk(s')
  {
    var n := |s.received|;
    forall a: nat, b: nat | a <= b <= |s.sent| ensures s'.sent[a..b] == s.sent[a..b] {
      assert s'.sent[..|s.sent|] == s.sent;
    }
  }

  lemma AcceptMessage(s: State, s': State, data: seq<Byte>)
    requires MessagesOk(s) && Storable(data)
    requires s'.sent == s.sent + Frame(data) && s'.accepted == s.accepted + [data]
    requires s'.delivered == s.delivered && s'.received == s.received && s'.reader == s.reader
    ensures MessagesOk(s')
  {
    hide Frame, Frames;
    FramesAppend(s.accepted, data);
    assert forall d :: 0 <= d < |s.accepted| ==> s'.accepted[d] == s.accepted[d];
  }

  lemma AcceptBytes(s: State, s': State, data: seq<Byte>)
    requires StreamOk(s)
    requires s'.sent == s.sent + data && s'.accepted == s.accepted + [data]
    requires s'.delivered == s.delivered && s'.received == s.received && s'.reader == s.reader
    ensures StreamOk(s')
  {
    assert s'.accepted[..|s.accepted|] == s.accepted;
  }

  lemma PublishHeadKeepsInv(c: Setup, s: State)
    requires Inv(c, s) && Enabled(c, s, PublishHead)
    ensures Inv(c, Next(c, s, PublishHead))
  {
    hide Slot, MovedOn, Frame, MessagesOk, StreamOk;
    var s' := Next(c, s, PublishHead);
    if s.writer.data == [] {
      QuietStep(c, s, s');
    } else {
      PublishKeepsRing(c, s);
      ReaderFrame(s, s');
      if c.isMessageBuffer {
        AcceptMessage(s, s', s.writer.data);
      } else {
        AcceptBytes(s, s', s.writer.payload);
      }
    }
  }

  // A step that only changes the place where the writer or the reader is.
  lemma QuietStep(c: Setup, s: State, s': State)
    requires Inv(c, s) && s' == s.(writer := s'.writer)
    requires WriterOk(c, s')
    ensures Inv(c, s')
  {
    hide Slot, Frames, Bytes;
  }

  lemma WriterKeepsInv(c: Setup, s: State, a: Action)
    requires Inv(c, s) && Enabled(c, s, a)
    requires a.Send? || a.ReadTail? || a.ComputeSpace? || a.RecheckTail? || a.StartWrite?
    ensures Inv(c, Next(c, s, a))
  {
    hide Slot, SpaceFor, BytesIn, ReaderOk, MessagesOk, StreamOk, Payload;
    CountsAreLowerBounds(c, s);
    if a.StartWrite? {
      PayloadFits(c, s.writer.data, s.writer.space);
    }
    QuietStep(c, s, Next(c, s, a));
  }

  // ---------------------------------------------------------------- steps of the reader

  // An unread byte, as the reader finds it.
  lemma UnreadByte(c: Setup, s: State, k: nat)
    requires RingOk(c, s) && |s.received| + k < |s.sent|
    ensures At(s, PlaceOf(c, s.tail, k)) == s.sent[|s.received| + k]
  {
    PlaceOfIsSlot(c, |s.received|, k);
  }

  lemma SliceNext(bytes: seq<Byte>, n: nat, k: nat)
    requires n + k < |bytes|
    ensures bytes[n..n + k + 1] == bytes[n..n + k] + [bytes[n + k]]
  {}

  lemma CountBytesKeepsInv(c: Setup, s: State)
    requires Inv(c, s) && Enabled(c, s, CountBytes)
    ensures Inv(c, Next(c, s, CountBytes))
  {
    hide Slot, SpaceFor, BytesIn, Frames, WriterOk;
    CountsAreLowerBounds(c, s);
    if c.isMessageBuffer && |s.sent| > |s.received| {
      MessageWaits(s);
    }
    WriterFrame(c, s, Next(c, s, CountBytes));
  }

  lemma WriterFrame(c: Setup, s: State, s': State)
    requires SetupOk(c) && WriterOk(c, s)
    requires s'.writer == s.writer && s'.sent == s.sent && s'.buffer == s.buffer
    requires |s.received| <= |s'.received|
    ensures WriterOk(c, s')
  {}

  // If a byte is unread, a whole message is.
  lemma MessageWaits(s: State)
    requires AllStorable(s.accepted) && s.sent == Frames(s.accepted)
    requires s.delivered <= s.accepted && s.received == Frames(s.delivered) && |s.received| < |s.sent|
    ensures var d := |s.delivered|;
            && d < |s.accepted|
            && var m := s.accepted[d]; var n := |s.received|;
            && n + LENGTH_BYTES + |m| <= |s.sent|
            && s.sent[n..n + LENGTH_BYTES] == LengthField(|m|)
            && s.sent[n + LENGTH_BYTES..n + LENGTH_BYTES + |m|] == m
            && s.sent[n..n + LENGTH_BYTES + |m|] == LengthField(|m|) + m
            && Frames(s.delivered + [m]) == s.received + (LengthField(|m|) + m)
  {
    hide Frames;
    var d := |s.delivered|;
    assert s.accepted[..d] == s.delivered;
    assert d == |s.accepted| ==> s.delivered == s.accepted;
    NextFrame(s.accepted, d);
    assert s.accepted[..d + 1] == s.delivered + [s.accepted[d]];
    var n, m := |s.received|, s.accepted[d];
    assert s.sent[n..n + LENGTH_BYTES + |m|]
        == s.sent[n..n + LENGTH_BYTES] + s.sent[n + LENGTH_BYTES..n + LENGTH_BYTES + |m|];
  }

  lemma StartReadKeepsInv(c: Setup, s: State)
    requires Inv(c, s) && Enabled(c, s, StartRead)
    ensures Inv(c, Next(c, s, StartRead))
  {
    hide Slot, Frames, Bytes, WriterOk;
    WriterFrame(c, s, Next(c, s, StartRead));
  }

  lemma ReadLengthByteKeepsInv(c: Setup, s: State)
    requires Inv(c, s) && Enabled(c, s, ReadLengthByte)
    ensures Inv(c, Next(c, s, ReadLengthByte))
  {
    hide Slot, Frames, Bytes, WriterOk, PlaceOf;
    var n, k := |s.received|, |s.reader.field|;
    UnreadByte(c, s, k);
    SliceNext(s.sent, n, k);
    WriterFrame(c, s, Next(c, s, ReadLengthByte));
  }

  lemma UseLengthKeepsInv(c: Setup, s: State)
    requires Inv(c, s) && Enabled(c, s, UseLength)
    ensures Inv(c, Next(c, s, UseLength))
  {
    hide Slot, Frames, Bytes, WriterOk, LengthOf, LengthField;
    MessageWaits(s);
    LengthRoundTrip(|s.accepted[|s.delivered|]|);
    WriterFrame(c, s, Next(c, s, UseLength));
  }

  lemma ReadByteKeepsInv(c: Setup, s: State)
    requires Inv(c, s) && Enabled(c, s, ReadByte)
    ensures Inv(c, Next(c, s, ReadByte))
  {
    hide Slot, Frames, Bytes, WriterOk, PlaceOf;
    var n, k := |s.received|, |s.reader.field| + |s.reader.got|;
    UnreadByte(c, s, k);
    SliceNext(s.sent, n, k);
    WriterFrame(c, s, Next(c, s, ReadByte));
  }

  lemma InvParts(c: Setup, s: State)
    requires Inv(c, s)
    ensures SetupOk(c) && RingOk(c, s) && |s.received| <= |s.sent|
    ensures s.reader.Reading? ==> |s.reader.got| <= s.reader.count
  {}

  lemma FieldIsOverhead(c: Setup, s: State)
    requires Inv(c, s) && s.reader.Reading?
    ensures |s.reader.field| == Overhead(c)
  {}

  // Publishing the tail consumes what has been copied.
  lemma PublishTailKeepsRing(c: Setup, s: State)
    requires Inv(c, s) && Enabled(c, s, PublishTail)
    ensures var s' := Next(c, s, PublishTail);
            && RingOk(c, s') && ReaderOk(s') && s'.received == s.received + (s.reader.field + s.reader.got)
  {
    hide RingOk, WriterOk, MovedOn, MessagesOk, StreamOk;
    InvParts(c, s);
    var s', r := Next(c, s, PublishTail), s.reader;
    assert s'.received == s.received + (r.field + r.got);
    FieldIsOverhead(c, s);
    Consume(c, s, s', r.field + r.got, r.count);
  }

  lemma Consume(c: Setup, s: State, s': State, bytes: seq<Byte>, count: nat)
    requires RingOk(c, s) && |bytes| == Overhead(c) + count && |s.received| + |bytes| <= |s.sent|
    requires bytes == s.sent[|s.received|..|s.received| + |bytes|]
    requires s' == s.(tail := MovedOn(c, s.tail, count), reader := s'.reader, received := s.received + bytes,
                      delivered := s'.delivered)
    ensures RingOk(c, s')
  {
    hide Slot, MovedOn, Overhead;
    MovedOnIsSlot(c, |s.received|, count);
    assert s'.received == s.sent[..|s.received| + |bytes|];
  }

  lemma PublishTailKeepsInv(c: Setup, s: State)
    requires Inv(c, s) && Enabled(c, s, PublishTail)
    ensures Inv(c, Next(c, s, PublishTail))
  {
    hide RingOk, ReaderOk, WriterOk, MessagesOk, StreamOk, MovedOn;
    InvParts(c, s);
    var s' := Next(c, s, PublishTail);
    PublishTailKeepsRing(c, s);
    WriterFrame(c, s, s');
    if c.isMessageBuffer {
      DeliverMessage(s, s');
    } else {
      DeliverBytes(s, s');
    }
  }

  lemma DeliverMessage(s: State, s': State)
    requires MessagesOk(s) && |s.received| <= |s.sent| && ReaderOk(s)
    requires s.reader.Reading? && |s.reader.got| == s.reader.count
    requires s'.sent == s.sent && s'.accepted == s.accepted && s'.reader.Idle?
    requires s'.received == s.received + (s.reader.field + s.reader.got) && s'.delivered == s.delivered + [s.reader.got]
    ensures MessagesOk(s')
  {
    hide Frames, LengthField;
    MessageWaits(s);
    var m := s.accepted[|s.delivered|];
    var n := |s.received|;
    assert s.reader.field + s.reader.got == LengthField(|m|) + m;
    assert s.reader.got == (s.reader.field + s.reader.got)[LENGTH_BYTES..]
           == (LengthField(|m|) + m)[LENGTH_BYTES..] == m;
  }

  lemma DeliverBytes(s: State, s': State)
    requires StreamOk(s) && s.reader.Reading?
    requires s'.sent == s.sent && s'.accepted == s.accepted && s'.reader.Idle?
    requires s'.received == s.received + (s.reader.field + s.reader.got) && s'.delivered == s.delivered + [s.reader.got]
    ensures StreamOk(s')
  {
    assert s'.delivered[..|s.delivered|] == s.delivered;
  }

  // ---------------------------------------------------------------- any step

  lemma StepKeepsInv(c: Setup, s: State, a: Action)
    requires Inv(c, s) && Enabled(c, s, a)
    ensures Inv(c, Next(c, s, a))
  {
    hide RingOk, WriterOk, ReaderOk, MessagesOk, StreamOk;
    match a
    case Send(_) | ReadTail | ComputeSpace | RecheckTail | StartWrite => WriterKeepsInv(c, s, a);
    case WriteByte => WriteByteKeepsInv(c, s);
    case PublishHead => PublishHeadKeepsInv(c, s);
    case Receive(_) => ReceiveKeepsInv(c, s, a);
    case CountBytes => CountBytesKeepsInv(c, s);
    case StartRead => StartReadKeepsInv(c, s);
    case ReadLengthByte => ReadLengthByteKeepsInv(c, s);
    case UseLength => UseLengthKeepsInv(c, s);
    case ReadByte => ReadByteKeepsInv(c, s);
    case PublishTail => PublishTailKeepsInv(c, s);
  }

  lemma ReceiveKeepsInv(c: Setup, s: State, a: Action)
    requires Inv(c, s) && Enabled(c, s, a) && a.Receive?
    ensures Inv(c, Next(c, s, a))
  {
    hide Slot, Frames, Bytes, WriterOk;
    WriterFrame(c, s, Next(c, s, a));
  }

  // prvInitialiseNewStreamBuffer
  predicate Initial(c: Setup, s: State) {
    && SetupOk(c) && |s.buffer| == c.length && s.head == s.tail == 0 && s.writer.Ready? && s.reader.Idle?
    && s.sent == s.received == [] && s.accepted == s.delivered == []
  }

  lemma InitialIsOk(c: Setup, s: State)
    requires Initial(c, s) && c.length <= LongestSafe(c)
    ensures Inv(c, s)
  {}
}
