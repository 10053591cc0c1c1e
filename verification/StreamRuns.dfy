/** Whole runs of a writer and a reader.  A stream buffer delivers what was sent, in every run, exactly if
  * it has at most 2^31 bytes, and a message buffer exactly if it has at most 2^31 + 2: in longer ones the
  * sums and differences of indices, which are of type size_t, wrap.
  */
module StreamRuns {
  import opened StreamBytes
  import opened StreamProtocol

  // A run is a sequence of actions, each enabled where it happens.
  ghost predicate Possible(c: Setup, s: State, run: seq<Action>)
    requires SetupOk(c)
    decreases |run|
  {
    run != [] ==> Enabled(c, s, run[0]) && Possible(c, Next(c, s, run[0]), run[1..])
  }

  ghost function After(c: Setup, s: State, run: seq<Action>): State
    requires SetupOk(c) && Possible(c, s, run)
    decreases |run|
  {
    if run == [] then s else After(c, Next(c, s, run[0]), run[1..])
  }

  lemma {:induction false} RunKeepsInv(c: Setup, s: State, run: seq<Action>)
    requires SetupOk(c) && Inv(c, s) && Possible(c, s, run)
    ensures Inv(c, After(c, s, run))
    decreases |run|
  {
    hide RingOk, WriterOk, ReaderOk, MessagesOk, StreamOk, Next, Enabled;
    if run != [] {
      StepKeepsInv(c, s, run[0]);
      RunKeepsInv(c, Next(c, s, run[0]), run[1..]);
    }
  }

  // The bytes received are the first of the bytes the send calls accepted, in order, and the storage
  // holds the others.
  ghost predicate StreamIsWhole(c: Setup, s: State)
    requires SetupOk(c)
  {
    && Bytes(s.delivered) <= Bytes(s.accepted)
    && |Bytes(s.accepted)| - |Bytes(s.delivered)| < c.length
    && forall k :: |Bytes(s.delivered)| <= k < |Bytes(s.accepted)| ==> At(s, Slot(k, c.length)) == Bytes(s.accepted)[k]
  }

  // Messages come out whole and in order, and what is stored is exactly the messages accepted and not
  // yet delivered, each after its length.
  ghost predicate MessagesAreWhole(c: Setup, s: State)
    requires SetupOk(c)
  {
    && s.delivered <= s.accepted && AllStorable(s.accepted) && s.received <= s.sent
    && s.sent[|s.received|..] == Frames(s.accepted[|s.delivered|..])
    && forall k :: |s.received| <= k < |s.sent| ==> At(s, Slot(k, c.length)) == s.sent[k]
  }

  // Main theorem for stream buffers.
  lemma ReceivedIsPrefixOfSent(c: Setup, s: State)
    requires Initial(c, s) && !c.isMessageBuffer
    ensures (forall run :: Possible(c, s, run) ==> StreamIsWhole(c, After(c, s, run))) <==> c.length <= SIZES / 2
  {
    hide Possible, After, StreamIsWhole;
    if c.length <= SIZES / 2 {
      forall run | Possible(c, s, run) ensures StreamIsWhole(c, After(c, s, run)) {
        InitialIsOk(c, s);
        RunKeepsInv(c, s, run);
        StreamInvIsSafe(c, After(c, s, run));
      }
    } else {
      LosingRun(c, s);
    }
  }

  // Main theorem for message buffers.
  lemma MessagesStayWhole(c: Setup, s: State)
    requires Initial(c, s) && c.isMessageBuffer
    ensures (forall run :: Possible(c, s, run) ==> MessagesAreWhole(c, After(c, s, run)))
       <==> c.length <= SIZES / 2 + 2
  {
    hide Possible, After, MessagesAreWhole;
    if c.length <= SIZES / 2 + 2 {
      forall run | Possible(c, s, run) ensures MessagesAreWhole(c, After(c, s, run)) {
        InitialIsOk(c, s);
        RunKeepsInv(c, s, run);
        MessageInvIsSafe(c, After(c, s, run));
      }
    } else {
      CuttingRun(c, s);
    }
  }

  lemma StreamInvIsSafe(c: Setup, s: State)
    requires Inv(c, s) && !c.isMessageBuffer
    ensures SetupOk(c) && StreamIsWhole(c, s)
  {
    hide Slot, Bytes;
  }

  lemma MessageInvIsSafe(c: Setup, s: State)
    requires Inv(c, s) && c.isMessageBuffer
    ensures SetupOk(c) && MessagesAreWhole(c, s)
  {
    hide Slot, Frames;
    FramesSplit(s.accepted, |s.delivered|);
    assert s.accepted[..|s.delivered|] == s.delivered;
  }

  // ---------------------------------------------------------------- calls without interruption

  ghost predicate Reaches(c: Setup, s: State, t: State)
    requires SetupOk(c)
  {
    exists run :: Possible(c, s, run) && After(c, s, run) == t
  }

  lemma ReachesItself(c: Setup, s: State)
    requires SetupOk(c)
    ensures Reaches(c, s, s)
  {
    assert Possible(c, s, []) && After(c, s, []) == s;
  }

  lemma {:induction false} OneMore(c: Setup, s: State, run: seq<Action>, a: Action)
    requires SetupOk(c) && Possible(c, s, run) && Enabled(c, After(c, s, run), a)
    ensures Possible(c, s, run + [a]) && After(c, s, run + [a]) == Next(c, After(c, s, run), a)
    decreases |run|
  {
    hide Enabled, Next;
    if run == [] {
      assert [] + [a] == [a] && [a][1..] == [];
      assert Possible(c, Next(c, s, a), []);
    } else {
      assert (run + [a])[0] == run[0] && (run + [a])[1..] == run[1..] + [a];
      OneMore(c, Next(c, s, run[0]), run[1..], a);
    }
  }

  lemma Then(c: Setup, s: State, t: State, a: Action)
    requires SetupOk(c) && Reaches(c, s, t) && Enabled(c, t, a)
    ensures Reaches(c, s, Next(c, t, a))
  {
    hide Possible, After, Enabled, Next;
    var run :| Possible(c, s, run) && After(c, s, run) == t;
    OneMore(c, s, run, a);
  }

  // The storage when the first n bytes of `payload` have been copied.
  function Copied(c: Setup, buffer: seq<Byte>, index: nat, payload: seq<Byte>, n: nat): (r: seq<Byte>)
    requires n <= |payload|
    ensures |r| == |buffer|
  {
    if n == 0 then buffer else
      var b := Copied(c, buffer, index, payload, n - 1);
      var i := PlaceOf(c, index, n - 1);
      if i < |b| then b[i := payload[n - 1]] else b
  }

  lemma {:induction false} WriteBytes(c: Setup, s: State, t: State, n: nat)
    requires SetupOk(c) && Reaches(c, s, t) && t.writer.Writing? && t.writer.done == 0 && n <= |t.writer.payload|
    ensures Reaches(c, s, t.(buffer := Copied(c, t.buffer, t.head, t.writer.payload, n),
                             writer := t.writer.(done := n)))
  {
    hide Reaches, PlaceOf;
    if n == 0 {
      assert t == t.(buffer := t.buffer, writer := t.writer.(done := 0));
    } else {
      WriteBytes(c, s, t, n - 1);
      Then(c, s, t.(buffer := Copied(c, t.buffer, t.head, t.writer.payload, n - 1),
                    writer := t.writer.(done := n - 1)), WriteByte);
    }
  }

  function Fitting(c: Setup, s: State, data: seq<Byte>): seq<Byte>
    requires Required(c, data) < SIZES
  {
    Payload(c, data, SpaceFor(s.head, s.tail, c.length))
  }

  function AfterSend(c: Setup, s: State, data: seq<Byte>): State
    requires Required(c, data) < SIZES
  {
    var payload := Fitting(c, s, data);
    var item := if c.isMessageBuffer then data else payload;
    s.(buffer := Copied(c, s.buffer, s.head, payload, |payload|), head := MovedOn(c, s.head, |item|),
       sent := s.sent + payload, accepted := s.accepted + [item])
  }

  // A send call that is not interrupted.
  lemma WholeSend(c: Setup, s: State, t: State, data: seq<Byte>)
    requires SetupOk(c) && Reaches(c, s, t) && t.writer == Ready && Required(c, data) < SIZES
    requires data != [] && Fitting(c, t, data) != []
    ensures Reaches(c, s, AfterSend(c, t, data))
  {
    hide Reaches, MovedOn, PlaceOf, Payload, SpaceFor, Frame;
    var payload := Fitting(c, t, data);
    var t' := t.(writer := Writing(data, payload, 0));
    StartSend(c, s, t, data);
    WriteBytes(c, s, t', |payload|);
    var last := t'.(buffer := Copied(c, t.buffer, t.head, payload, |payload|), writer := t'.writer.(done := |payload|));
    Then(c, s, last, PublishHead);
    assert Next(c, last, PublishHead) == AfterSend(c, t, data);
  }

  lemma StartSend(c: Setup, s: State, t: State, data: seq<Byte>)
    requires SetupOk(c) && Reaches(c, s, t) && t.writer == Ready && Required(c, data) < SIZES
    requires Fitting(c, t, data) != []
    ensures Reaches(c, s, t.(writer := Writing(data, Fitting(c, t, data), 0)))
  {
    hide Reaches, Payload, SpaceFor;
    var space := SpaceFor(t.head, t.tail, c.length);
    Then(c, s, t, Send(data));
    Then(c, s, t.(writer := Asked(data)), ReadTail);
    Then(c, s, t.(writer := ReadingTail(data, t.tail)), ComputeSpace);
    Then(c, s, t.(writer := Checking(data, t.tail, space)), RecheckTail);
    Then(c, s, t.(writer := Measured(data, space)), StartWrite);
  }

  // The n bytes that a reader copies from byte k of what it reads.
  function CopiedOut(c: Setup, buffer: seq<Byte>, tail: nat, k: nat, n: nat): (r: seq<Byte>)
    ensures |r| == n
  {
    if n == 0 then [] else
      var i := PlaceOf(c, tail, k + (n - 1));
      CopiedOut(c, buffer, tail, k, n - 1) + [if i < |buffer| then buffer[i] else 0]
  }

  lemma {:induction false} ReadBytes(c: Setup, s: State, t: State, n: nat)
    requires SetupOk(c) && Reaches(c, s, t) && t.reader.Reading? && t.reader.got == [] && n <= t.reader.count
    ensures Reaches(c, s, t.(reader := t.reader.(got := CopiedOut(c, t.buffer, t.tail, |t.reader.field|, n))))
  {
    hide Reaches, PlaceOf;
    if n == 0 {
      assert t == t.(reader := t.reader.(got := []));
    } else {
      ReadBytes(c, s, t, n - 1);
      Then(c, s, t.(reader := t.reader.(got := CopiedOut(c, t.buffer, t.tail, |t.reader.field|, n - 1))), ReadByte);
    }
  }

  function AfterReceive(c: Setup, s: State, field: seq<Byte>, count: nat): State {
    var got := CopiedOut(c, s.buffer, s.tail, |field|, count);
    s.(tail := MovedOn(c, s.tail, count), received := s.received + field + got, delivered := s.delivered + [got])
  }

  lemma FinishReceive(c: Setup, s: State, t: State, field: seq<Byte>, count: nat)
    requires SetupOk(c) && t.reader == Idle
    requires Reaches(c, s, t.(reader := Reading(field, count, [])))
    ensures Reaches(c, s, AfterReceive(c, t, field, count))
  {
    hide Reaches, MovedOn, PlaceOf;
    ReadBytes(c, s, t.(reader := Reading(field, count, [])), count);
    var last := t.(reader := Reading(field, count, CopiedOut(c, t.buffer, t.tail, |field|, count)));
    Then(c, s, last, PublishTail);
    assert Next(c, last, PublishTail) == AfterReceive(c, t, field, count);
  }

  // A receive call on a stream buffer that is not interrupted.
  lemma WholeReceive(c: Setup, s: State, t: State, count: nat)
    requires SetupOk(c) && !c.isMessageBuffer && Reaches(c, s, t) && t.reader == Idle
    requires 0 < count <= BytesIn(t.head, t.tail, c.length)
    ensures Reaches(c, s, AfterReceive(c, t, [], count))
  {
    hide Reaches, BytesIn, MovedOn, PlaceOf;
    Then(c, s, t, Receive(count));
    Then(c, s, t.(reader := Wanting(count)), CountBytes);
    Then(c, s, t.(reader := Counted(count, BytesIn(t.head, t.tail, c.length))), StartRead);
    FinishReceive(c, s, t, [], count);
  }

  // ---------------------------------------------------------------- from the start of the storage

  lemma PlaceFromStart(c: Setup, k: nat)
    requires LENGTH_BYTES < c.length && k < c.length
    ensures PlaceOf(c, 0, k) == k
  {}

  lemma {:induction false} CopiedFromStart(c: Setup, buffer: seq<Byte>, payload: seq<Byte>, n: nat)
    requires LENGTH_BYTES < c.length == |buffer| && n <= |payload| <= c.length
    ensures Copied(c, buffer, 0, payload, n) == payload[..n] + buffer[n..]
  {
    hide PlaceOf;
    if n > 0 {
      CopiedFromStart(c, buffer, payload, n - 1);
      PlaceFromStart(c, n - 1);
    }
  }

  lemma {:induction false} CopiedOutFromStart(c: Setup, buffer: seq<Byte>, k: nat, n: nat)
    requires LENGTH_BYTES < c.length == |buffer| && k + n <= c.length
    ensures CopiedOut(c, buffer, 0, k, n) == buffer[k..k + n]
  {
    hide PlaceOf;
    if n > 0 {
      CopiedOutFromStart(c, buffer, k, n - 1);
      PlaceFromStart(c, k + (n - 1));
    }
  }

  // ---------------------------------------------------------------- a stream buffer that is too long

  function Zeros(n: nat): seq<Byte> { seq<Byte>(n, _ => 0) }
  function Ones(n: nat): seq<Byte> { seq<Byte>(n, _ => 1) }

  // Between two calls: a zeros have been accepted, and d bytes delivered.
  predicate Stage(c: Setup, t: State, head: nat, tail: nat, a: nat, d: nat) {
    && SetupOk(c) && !c.isMessageBuffer && |t.buffer| == c.length && t.head == head && t.tail == tail
    && t.writer == Ready && t.reader == Idle && Bytes(t.accepted) == Zeros(a) && |Bytes(t.delivered)| == d
  }

  lemma BytesAppend(parts: seq<seq<Byte>>, more: seq<Byte>)
    ensures Bytes(parts + [more]) == Bytes(parts) + more
  {
    assert (parts + [more])[..|parts|] == parts;
  }

  lemma SendZeros(c: Setup, s: State, t: State, head: nat, tail: nat, a: nat, d: nat, n: nat) returns (t': State)
    requires Stage(c, t, head, tail, a, d) && Reaches(c, s, t) && 0 < n < SIZES && n <= SpaceFor(head, tail, c.length)
    ensures Stage(c, t', Advance(head, n, c.length), tail, a + n, d) && Reaches(c, s, t')
  {
    hide Reaches, SpaceFor, Advance, Copied, Bytes;
    WholeSend(c, s, t, Zeros(n));
    t' := AfterSend(c, t, Zeros(n));
    BytesAppend(t.accepted, Zeros(n));
  }

  lemma ReceiveSome(c: Setup, s: State, t: State, head: nat, tail: nat, a: nat, d: nat, n: nat) returns (t': State)
    requires Stage(c, t, head, tail, a, d) && Reaches(c, s, t) && 0 < n <= BytesIn(head, tail, c.length)
    ensures Stage(c, t', head, Advance(tail, n, c.length), a, d + n) && Reaches(c, s, t')
  {
    hide Reaches, BytesIn, Advance, CopiedOut, Bytes, Zeros;
    WholeReceive(c, s, t, n);
    t' := AfterReceive(c, t, [], n);
    BytesAppend(t.delivered, CopiedOut(c, t.buffer, t.tail, 0, n));
  }

  // The tail gets to place D + 1 of a buffer of 2^32 - D bytes.
  lemma FirstBytes(c: Setup, s: State) returns (t: State, unread: nat)
    requires Initial(c, s) && !c.isMessageBuffer && SIZES / 2 < c.length
    ensures var at := SIZES - c.length + 1;
            Reaches(c, s, t) && at + unread < c.length && Stage(c, t, at + unread, at, at + unread, at)
  {
    hide Reaches, Bytes, Zeros, SpaceFor, BytesIn, Advance;
    var length, short := c.length, SIZES - c.length;
    ReachesItself(c, s);
    NothingYet(c, s);
    CountsFromIndices(0, 0, length);
    if 2 * short + 1 < length {
      unread := short;
      t := SendZeros(c, s, s, 0, 0, 0, 0, 2 * short + 1);
      AdvanceIsPlaceIff(0, 2 * short + 1, length);
      CountsFromIndices(0, 2 * short + 1, length);
      t := ReceiveSome(c, s, t, 2 * short + 1, 0, 2 * short + 1, 0, short + 1);
      AdvanceIsPlaceIff(0, short + 1, length);
    } else {
      unread := 0;
      t := SendZeros(c, s, s, 0, 0, 0, 0, short - 1);
      AdvanceIsPlaceIff(0, short - 1, length);
      CountsFromIndices(0, short - 1, length);
      t := ReceiveSome(c, s, t, short - 1, 0, short - 1, 0, short - 1);
      CountsFromIndices(short - 1, 0, length);
      t := SendZeros(c, s, t, short - 1, short - 1, short - 1, short - 1, 2);
      AdvanceIsPlaceIff(short - 1, 2, length);
      CountsFromIndices(short - 1, 2, length);
      t := ReceiveSome(c, s, t, short + 1, short - 1, short + 1, short - 1, 2);
    }
  }

  lemma NothingYet(c: Setup, s: State)
    requires Initial(c, s) && !c.isMessageBuffer
    ensures Stage(c, s, 0, 0, 0, 0)
  {}

  // Filling the buffer moves the head on to 2^32, which is 0, and the reader stops there.
  lemma HeadWraps(c: Setup, s: State) returns (t: State)
    requires Initial(c, s) && !c.isMessageBuffer && SIZES / 2 < c.length
    ensures Reaches(c, s, t) && Stage(c, t, 0, 0, SIZES, c.length)
  {
    hide Reaches, Bytes, Zeros, SpaceFor, BytesIn;
    var length, at := c.length, SIZES - c.length + 1;
    var unread;
    t, unread := FirstBytes(c, s);
    CountsFromIndices(at, unread, length);
    t := SendZeros(c, s, t, at + unread, at, at + unread, at, length - 1 - unread);
    CountsFromIndices(at, length - at, length);
    t := ReceiveSome(c, s, t, 0, at, SIZES, at, length - at);
  }

  // The bytes that the reader has not seen are overwritten.
  lemma LosingRun(c: Setup, s: State)
    requires Initial(c, s) && !c.isMessageBuffer && SIZES / 2 < c.length
    ensures exists run :: Possible(c, s, run) && !StreamIsWhole(c, After(c, s, run))
                          && !(Bytes(After(c, s, run).delivered) <= Bytes(After(c, s, run).accepted))
  {
    hide Possible, After, SpaceFor, BytesIn, Bytes, Zeros;
    var t := HeadWraps(c, s);
    var t' := LastBytes(c, s, t);
    var run :| Possible(c, s, run) && After(c, s, run) == t';
    assert !StreamIsWhole(c, After(c, s, run));
  }

  lemma LastBytes(c: Setup, s: State, t: State) returns (t': State)
    requires SetupOk(c) && Reaches(c, s, t) && Stage(c, t, 0, 0, SIZES, c.length) && SIZES / 2 < c.length
    ensures Reaches(c, s, t') && !(Bytes(t'.delivered) <= Bytes(t'.accepted))
  {
    hide Reaches, Bytes, SpaceFor, BytesIn;
    var n := SIZES - c.length + 1;
    CountsFromIndices(0, 0, c.length);
    WholeSend(c, s, t, Ones(n));
    var u := AfterSend(c, t, Ones(n));
    CopiedFromStart(c, t.buffer, Ones(n), n);
    assert u.buffer[0] == 1;
    BytesAppend(t.accepted, Ones(n));
    CountsFromIndices(0, n, c.length);
    WholeReceive(c, s, u, 1);
    t' := AfterReceive(c, u, [], 1);
    CopiedOutFromStart(c, u.buffer, 0, 1);
    BytesAppend(u.delivered, [u.buffer[0]]);
    assert Bytes(t'.delivered)[c.length] == 1 && Bytes(t'.accepted)[c.length] == 0;
  }

  // ---------------------------------------------------------------- a message buffer that is too long

  lemma {:induction false} ReadLength(c: Setup, s: State, t: State, want: nat, avail: nat, n: nat)
    requires SetupOk(c) && n <= LENGTH_BYTES && t.reader == Idle
    requires Reaches(c, s, t.(reader := ReadingLength(want, avail, [])))
    ensures Reaches(c, s, t.(reader := ReadingLength(want, avail, CopiedOut(c, t.buffer, t.tail, 0, n))))
  {
    hide Reaches, PlaceOf;
    if n > 0 {
      ReadLength(c, s, t, want, avail, n - 1);
      Then(c, s, t.(reader := ReadingLength(want, avail, CopiedOut(c, t.buffer, t.tail, 0, n - 1))), ReadLengthByte);
    }
  }

  // A receive call on a message buffer up to where it has read the length of the message.
  lemma ReceiveLength(c: Setup, s: State, t: State, want: nat)
    requires SetupOk(c) && c.isMessageBuffer && Reaches(c, s, t) && t.reader == Idle
    requires LENGTH_BYTES < BytesIn(t.head, t.tail, c.length)
    ensures var field := CopiedOut(c, t.buffer, t.tail, 0, LENGTH_BYTES);
            Reaches(c, s, t.(reader := ReadingLength(want, BytesIn(t.head, t.tail, c.length), field)))
  {
    hide Reaches, BytesIn, CopiedOut;
    var avail := BytesIn(t.head, t.tail, c.length);
    Then(c, s, t, Receive(want));
    Then(c, s, t.(reader := Wanting(want)), CountBytes);
    Then(c, s, t.(reader := Counted(want, avail)), StartRead);
    ReadLength(c, s, t, want, avail, LENGTH_BYTES);
  }

  // One message fills the buffer.
  lemma SendLongest(c: Setup, s: State, m: seq<Byte>) returns (t: State)
    requires Initial(c, s) && c.isMessageBuffer && LENGTH_BYTES + 1 < c.length && |m| == c.length - 1 - LENGTH_BYTES
    ensures Reaches(c, s, t) && t == s.(buffer := t.buffer, head := c.length - 1, sent := t.sent, accepted := [m])
    ensures |t.buffer| == c.length && t.buffer[..LENGTH_BYTES] == LengthField(|m|)
  {
    hide Reaches, SpaceFor, LengthField, Copied;
    ReachesItself(c, s);
    CountsFromIndices(0, 0, c.length);
    WholeSend(c, s, s, m);
    t := AfterSend(c, s, m);
    CopiedFromStart(c, s.buffer, Frame(m), |Frame(m)|);
    AdvanceIsPlaceIff(0, LENGTH_BYTES, c.length);
    AdvanceIsPlaceIff(LENGTH_BYTES, |m|, c.length);
  }

  // Of this message the reader counts too few bytes, though more than a length field, and cuts it.
  lemma CuttingRun(c: Setup, s: State)
    requires Initial(c, s) && c.isMessageBuffer && SIZES / 2 + 2 < c.length
    ensures exists run :: Possible(c, s, run) && !MessagesAreWhole(c, After(c, s, run))
                          && !(After(c, s, run).delivered <= After(c, s, run).accepted)
  {
    hide Possible, After, BytesIn, CopiedOut, Frames, LengthField, LengthOf, PlaceOf, MovedOn;
    var m := Zeros(c.length - 1 - LENGTH_BYTES);
    var t := SendLongest(c, s, m);
    var avail := 2 * c.length - 1 - SIZES;
    CountsFromIndices(0, c.length - 1, c.length);
    ReceiveLength(c, s, t, |m|);
    CopiedOutFromStart(c, t.buffer, 0, LENGTH_BYTES);
    LengthRoundTrip(|m|);
    var field, count := LengthField(|m|), avail - LENGTH_BYTES;
    assert t.buffer[0..0 + LENGTH_BYTES] == field;
    Then(c, s, t.(reader := ReadingLength(|m|, avail, field)), UseLength);
    FinishReceive(c, s, t, field, count);
    var t' := AfterReceive(c, t, field, count);
    assert t'.delivered[0] != t'.accepted[0];
    var run :| Possible(c, s, run) && After(c, s, run) == t';
    assert !MessagesAreWhole(c, After(c, s, run));
  }
}
