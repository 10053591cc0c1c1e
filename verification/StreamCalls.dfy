/** What one call on a stream or message buffer does, whatever the other side does meanwhile, for buffers
  * whose counts are exact (see StreamBytes.CountsAreExactIff).
  */
module StreamCalls {
  import opened StreamBytes
  import opened StreamProtocol
  import opened StreamRuns

  function Min(a: int, b: int): int { if a <= b then a else b }

  function Unread(s: State): int { |s.sent| - |s.received| }

  lemma CountsAreCurrent(c: Setup, s: State)
    requires Inv(c, s) && c.length <= SIZES / 2
    ensures SpaceFor(s.head, s.tail, c.length) == Free(c, s) && BytesIn(s.head, s.tail, c.length) == Unread(s)
  {
    hide Slot, SpaceFor, BytesIn;
    CountsAreExact(|s.received|, |s.sent|, c.length);
  }

  // ---------------------------------------------------------------- sending

  // At some moment of the run, while the writer was in a call, that many bytes were free.
  ghost predicate WasFree(c: Setup, s: State, run: seq<Action>, free: int)
    requires SetupOk(c) && Possible(c, s, run)
    decreases |run|
  {
    (!s.writer.Ready? && Free(c, s) == free) || (run != [] && WasFree(c, Next(c, s, run[0]), run[1..], free))
  }

  // A message is accepted whole if there is room for it and its length, and else not at all; of other
  // data, as much as there is room for.
  predicate Accepts(c: Setup, data: seq<Byte>, before: seq<seq<Byte>>, after: seq<seq<Byte>>, free: int) {
    if data == [] || free <= 0 then after == before
    else if c.isMessageBuffer then
      after == if |data| + LENGTH_BYTES <= free then before + [data] else before
    else after == before + [data[..Min(|data|, free)]]
  }

  // Inside a send call.  From when the space has been measured until it is measured again, `free` is
  // what was free then; before that it is -1.
  ghost predicate Sending(c: Setup, s: State, data: seq<Byte>, before: seq<seq<Byte>>, free: int) {
    && s.accepted == before
    && match s.writer
       case Ready => false
       case Asked(d) => d == data && free == -1
       case ReadingTail(d, _) => d == data && free == -1
       case Checking(d, _, space) => d == data && free == space
       case Measured(d, space) => d == data && free == space
       case Writing(d, payload, _) =>
         && d == data && 0 < free
         && if c.isMessageBuffer then |data| + LENGTH_BYTES <= free else payload == data[..Min(|data|, free)]
  }

  // What is measured, as of the state after a step.
  ghost function Measure(c: Setup, s: State, a: Action, free: int): int {
    if a.ComputeSpace? then Free(c, s)
    else if a.ReadTail? || (a.RecheckTail? && s.writer.Checking? && s.tail != s.writer.original) then -1
    else free
  }

  lemma StepSends(c: Setup, s: State, a: Action, data: seq<Byte>, before: seq<seq<Byte>>, free: int)
    requires Inv(c, s) && c.length <= SIZES / 2 && Enabled(c, s, a) && Sending(c, s, data, before, free)
    ensures var s' := Next(c, s, a);
            if s'.writer.Ready? then 0 <= free && Accepts(c, data, before, s'.accepted, free)
            else Sending(c, s', data, before, Measure(c, s, a, free))
  {
    hide Slot, SpaceFor, BytesIn, Inv, MovedOn, PlaceOf, Frame;
    CountsAreCurrent(c, s);
    if s.writer.Measured? || s.writer.Writing? {
      WriterParts(c, s);
    }
  }

  lemma WriterParts(c: Setup, s: State)
    requires Inv(c, s)
    ensures SetupOk(c) && WriterOk(c, s)
  {}

  lemma {:induction false} NoSend(c: Setup, s: State, run: seq<Action>)
    requires SetupOk(c) && Possible(c, s, run) && s.writer.Ready? && forall a :: a in run ==> !a.Send?
    ensures After(c, s, run).writer.Ready? && After(c, s, run).accepted == s.accepted
    decreases |run|
  {
    hide MovedOn, PlaceOf;
    if run != [] {
      assert run[0] in run;
      NoSend(c, Next(c, s, run[0]), run[1..]);
    }
  }

  lemma {:induction false} SendGoesOn(c: Setup, s: State, run: seq<Action>, data: seq<Byte>, before: seq<seq<Byte>>,
                                      free: int)
    requires Inv(c, s) && c.length <= SIZES / 2 && SetupOk(c) && Possible(c, s, run)
    requires Sending(c, s, data, before, free)
    requires forall a :: a in run ==> !a.Send?
    ensures var e := After(c, s, run);
            if e.writer.Ready? then
              || (0 <= free && Accepts(c, data, before, e.accepted, free))
              || exists f: nat :: WasFree(c, s, run, f) && Accepts(c, data, before, e.accepted, f)
            else e.accepted == before
    decreases |run|
  {
    hide Inv, Enabled, Next, Accepts;
    if run != [] {
      assert run[0] in run;
      var a, s1 := run[0], Next(c, s, run[0]);
      StepKeepsInv(c, s, a);
      StepSends(c, s, a, data, before, free);
      if s1.writer.Ready? {
        NoSend(c, s1, run[1..]);
      } else {
        SendGoesOn(c, s1, run[1..], data, before, Measure(c, s, a, free));
      }
    }
  }

  // Main theorem for send calls: what a call that has ended has accepted is what the room that there
  // was at some moment of the call allows, and until then it has accepted nothing.
  lemma SendCallEnds(c: Setup, s: State, data: seq<Byte>, run: seq<Action>)
    requires Inv(c, s) && c.length <= SIZES / 2 && SetupOk(c) && Possible(c, s, [Send(data)] + run)
    requires forall a :: a in run ==> !a.Send?
    ensures var e := After(c, s, [Send(data)] + run);
            if e.writer.Ready? then
              exists f: nat :: WasFree(c, s, [Send(data)] + run, f) && Accepts(c, data, s.accepted, e.accepted, f)
            else e.accepted == s.accepted
  {
    hide Inv, Accepts;
    var all := [Send(data)] + run;
    assert all[1..] == run && all[0] == Send(data);
    StepKeepsInv(c, s, Send(data));
    SendGoesOn(c, Next(c, s, Send(data)), run, data, s.accepted, -1);
  }

  lemma {:induction false} RoomOnlyGrows(c: Setup, s: State, run: seq<Action>, f: int)
    requires Inv(c, s) && SetupOk(c) && Possible(c, s, run) && WasFree(c, s, run, f)
    requires forall a :: a in run ==> !a.Send?
    ensures Free(c, s) <= f && !s.writer.Ready?
    decreases |run|
  {
    hide Inv, Enabled, Next, Free;
    if s.writer.Ready? || Free(c, s) != f {
      assert run[0] in run;
      StepKeepsInv(c, s, run[0]);
      RoomOnlyGrows(c, Next(c, s, run[0]), run[1..], f);
      StepLeavesRoom(c, s, run[0]);
    }
  }

  lemma StepLeavesRoom(c: Setup, s: State, a: Action)
    requires Inv(c, s) && Enabled(c, s, a) && !a.Send?
    ensures var s' := Next(c, s, a); !s'.writer.Ready? ==> Free(c, s) <= Free(c, s') && !s.writer.Ready?
  {
    hide Inv, MovedOn, PlaceOf, SpaceFor, BytesIn, Payload;
  }

  // What there is room for when the call begins is accepted whole.
  lemma SendCallFits(c: Setup, s: State, data: seq<Byte>, run: seq<Action>)
    requires Inv(c, s) && c.length <= SIZES / 2 && SetupOk(c) && Possible(c, s, [Send(data)] + run)
    requires forall a :: a in run ==> !a.Send?
    requires data != [] && |data| + Overhead(c) <= Free(c, s)
    ensures var e := After(c, s, [Send(data)] + run); e.writer.Ready? ==> e.accepted == s.accepted + [data]
  {
    hide Inv, Enabled, WasFree;
    SendCallEnds(c, s, data, run);
    var all := [Send(data)] + run;
    var e := After(c, s, all);
    if e.writer.Ready? {
      var f: nat :| WasFree(c, s, all, f) && Accepts(c, data, s.accepted, e.accepted, f);
      CallIsFree(c, s, data, run, f);
      assert data[..|data|] == data;
    }
  }

  lemma CallIsFree(c: Setup, s: State, data: seq<Byte>, run: seq<Action>, f: int)
    requires Inv(c, s) && SetupOk(c) && Possible(c, s, [Send(data)] + run) && WasFree(c, s, [Send(data)] + run, f)
    requires forall a :: a in run ==> !a.Send?
    ensures Free(c, s) <= f
  {
    hide Inv;
    var all := [Send(data)] + run;
    assert all[1..] == run && all[0] == Send(data);
    StepKeepsInv(c, s, Send(data));
    if WasFree(c, Next(c, s, Send(data)), run, f) {
      RoomOnlyGrows(c, Next(c, s, Send(data)), run, f);
    }
  }

  // ---------------------------------------------------------------- receiving

  // At some moment of the run, while the reader was in a call, that many bytes were unread.
  ghost predicate WasUnread(c: Setup, s: State, run: seq<Action>, unread: int)
    requires SetupOk(c) && Possible(c, s, run)
    decreases |run|
  {
    (!s.reader.Idle? && Unread(s) == unread) || (run != [] && WasUnread(c, Next(c, s, run[0]), run[1..], unread))
  }

  // Of a stream the call takes as many of the next bytes as it can, of messages the next one if that
  // is no longer than the caller's buffer; s is the state when the call begins, and e a later one.
  ghost predicate Delivers(c: Setup, s: State, want: nat, e: State, unread: int) {
    var d := |s.delivered|;
    if unread <= 0 then e.delivered == s.delivered
    else if c.isMessageBuffer then
      && d < |e.accepted|
      && e.delivered == if |e.accepted[d]| <= want then s.delivered + [e.accepted[d]] else s.delivered
    else
      && |s.received| + Min(want, unread) <= |e.sent|
      && e.delivered == if want == 0 then s.delivered
                        else s.delivered + [e.sent[|s.received|..|s.received| + Min(want, unread)]]
  }

  // Inside a receive call that began in state b.  From when the bytes have been counted until they are
  // counted again, `unread` is how many there were; before that it is -1.
  ghost predicate Receiving(c: Setup, b: State, s: State, want: nat, unread: int) {
    && s.delivered == b.delivered && s.received == b.received && b.sent <= s.sent && |b.received| <= |b.sent|
    && match s.reader
       case Idle => false
       case Wanting(w) => w == want && unread == -1
       case Counted(w, avail) => w == want && avail == unread && (c.isMessageBuffer ==> !(0 < avail <= LENGTH_BYTES))
       case ReadingLength(w, avail, _) => w == want && avail == unread && c.isMessageBuffer
       case Reading(_, count, _) =>
         && 0 < count <= want && 0 < unread
         && (!c.isMessageBuffer ==> count == Min(want, unread))
  }

  ghost function Count(s: State, a: Action, unread: int): int { if a.CountBytes? then Unread(s) else unread }

  lemma StepReceives(c: Setup, b: State, s: State, a: Action, want: nat, unread: int)
    requires Inv(c, s) && c.length <= SIZES / 2 && Enabled(c, s, a) && Receiving(c, b, s, want, unread)
    ensures var s' := Next(c, s, a);
            if s'.reader.Idle? then 0 <= unread && Delivers(c, b, want, s', unread)
            else Receiving(c, b, s', want, Count(s, a, unread))
  {
    hide Slot, SpaceFor, BytesIn, Inv, MovedOn, PlaceOf, Frame, Payload;
    CountsAreCurrent(c, s);
    ReaderParts(c, s);
    if a.UseLength? {
      NextLength(c, s);
    } else if a.CountBytes? && c.isMessageBuffer {
      WholeMessages(c, s);
    } else if a.PublishTail? {
      NextDelivered(c, s);
    }
  }

  // What the invariant says of the reader.
  lemma ReaderParts(c: Setup, s: State)
    requires Inv(c, s)
    ensures SetupOk(c) && |s.received| <= |s.sent| && ReaderOk(s)
    ensures if c.isMessageBuffer then MessagesOk(s) else s.reader.Reading? ==> s.reader.field == []
  {}

  // The call returns the next message, or the next bytes.
  lemma NextDelivered(c: Setup, s: State)
    requires Inv(c, s) && Enabled(c, s, PublishTail)
    ensures |s.received| <= |s.sent|
    ensures if c.isMessageBuffer then |s.delivered| < |s.accepted| && s.reader.got == s.accepted[|s.delivered|]
            else |s.received| + s.reader.count <= |s.sent|
                 && s.reader.got == s.sent[|s.received|..|s.received| + s.reader.count]
  {
    hide Slot, Frames, LengthField, WriterOk, Inv, MovedOn, RingOk, ReaderOk;
    ReaderParts(c, s);
    StepKeepsInv(c, s, PublishTail);
    var s' := Next(c, s, PublishTail);
    ReaderParts(c, s');
    if c.isMessageBuffer {
      assert s'.delivered[|s.delivered|] == s.reader.got;
    } else {
      BytesRead(c, s);
    }
  }

  lemma BytesRead(c: Setup, s: State)
    requires Inv(c, s) && Enabled(c, s, PublishTail) && !c.isMessageBuffer
    ensures |s.received| + s.reader.count <= |s.sent|
    ensures s.reader.got == s.sent[|s.received|..|s.received| + s.reader.count]
  {
    hide RingOk, WriterOk, Bytes;
    assert s.reader.field + s.reader.got == s.reader.got;
  }

  lemma WholeMessages(c: Setup, s: State)
    requires Inv(c, s) && c.isMessageBuffer
    ensures !(0 < Unread(s) <= LENGTH_BYTES)
  {
    hide Slot, Frames, LengthField, WriterOk, ReaderOk;
    if 0 < Unread(s) {
      MessageWaits(s);
    }
  }

  lemma NextLength(c: Setup, s: State)
    requires Inv(c, s) && Enabled(c, s, UseLength)
    ensures c.isMessageBuffer && |s.delivered| < |s.accepted| && 0 < |s.accepted[|s.delivered|]|
    ensures LengthOf(s.reader.field) == |s.accepted[|s.delivered|]|
  {
    hide Slot, Frames, LengthOf, LengthField, WriterOk;
    MessageWaits(s);
    LengthRoundTrip(|s.accepted[|s.delivered|]|);
  }

  lemma {:induction false} NoReceive(c: Setup, s: State, run: seq<Action>)
    requires SetupOk(c) && Possible(c, s, run) && s.reader.Idle? && forall a :: a in run ==> !a.Receive?
    ensures var e := After(c, s, run);
            && e.reader.Idle? && e.delivered == s.delivered && s.accepted <= e.accepted && s.sent <= e.sent
    decreases |run|
  {
    hide MovedOn, PlaceOf;
    if run != [] {
      assert run[0] in run;
      NoReceive(c, Next(c, s, run[0]), run[1..]);
    }
  }

  lemma MoreAccepted(c: Setup, b: State, want: nat, s: State, e: State, unread: int)
    requires Delivers(c, b, want, s, unread) && |b.received| <= |b.sent|
    requires e.delivered == s.delivered && s.accepted <= e.accepted && s.sent <= e.sent
    ensures Delivers(c, b, want, e, unread)
  {
    if 0 < unread && !c.isMessageBuffer {
      var n, m := |b.received|, |b.received| + Min(want, unread);
      assert e.sent[n..m] == s.sent[n..m];
    }
  }

  lemma {:induction false} ReceiveGoesOn(c: Setup, b: State, s: State, run: seq<Action>, want: nat, unread: int)
    requires Inv(c, s) && c.length <= SIZES / 2 && SetupOk(c) && Possible(c, s, run)
    requires Receiving(c, b, s, want, unread)
    requires forall a :: a in run ==> !a.Receive?
    ensures var e := After(c, s, run);
            if e.reader.Idle? then
              || (0 <= unread && Delivers(c, b, want, e, unread))
              || exists u: nat :: WasUnread(c, s, run, u) && Delivers(c, b, want, e, u)
            else e.delivered == b.delivered
    decreases |run|
  {
    hide Inv, Enabled, Next, Delivers;
    if run != [] {
      assert run[0] in run;
      var a, s1 := run[0], Next(c, s, run[0]);
      StepKeepsInv(c, s, a);
      StepReceives(c, b, s, a, want, unread);
      if s1.reader.Idle? {
        NoReceive(c, s1, run[1..]);
        MoreAccepted(c, b, want, s1, After(c, s, run), unread);
      } else {
        ReceiveGoesOn(c, b, s1, run[1..], want, Count(s, a, unread));
      }
    }
  }

  // Main theorem for receive calls: what a call that has ended has delivered is what the bytes that
  // were there at some moment of the call allow, and until then it has delivered nothing.
  lemma ReceiveCallEnds(c: Setup, s: State, want: nat, run: seq<Action>)
    requires Inv(c, s) && c.length <= SIZES / 2 && SetupOk(c) && Possible(c, s, [Receive(want)] + run)
    requires forall a :: a in run ==> !a.Receive?
    ensures var e := After(c, s, [Receive(want)] + run);
            if e.reader.Idle? then
              exists u: nat :: WasUnread(c, s, [Receive(want)] + run, u) && Delivers(c, s, want, e, u)
            else e.delivered == s.delivered
  {
    hide Inv, Delivers;
    var all := [Receive(want)] + run;
    assert all[1..] == run && all[0] == Receive(want);
    ReaderParts(c, s);
    StepKeepsInv(c, s, Receive(want));
    ReceiveGoesOn(c, s, Next(c, s, Receive(want)), run, want, -1);
  }

  // ---------------------------------------------------------------- measuring the space

  // The tail has been read when r0 bytes had been received, and the space computed when r1 had.
  ghost predicate Measuring(c: Setup, s: State, r0: nat, r1: nat)
    requires SetupOk(c)
  {
    && r0 <= r1 <= |s.received|
    && match s.writer
       case ReadingTail(_, original) => original == Slot(r0, c.length)
       case Checking(_, original, space) =>
         original == Slot(r0, c.length) && space == c.length - 1 - (|s.sent| - r1)
       case _ => false
  }

  lemma {:induction false} KeepsMeasuring(c: Setup, s: State, run: seq<Action>, r0: nat, r1: nat) returns (r: nat)
    requires Inv(c, s) && SetupOk(c) && c.length <= SIZES / 2 && Possible(c, s, run) && Measuring(c, s, r0, r1)
    requires forall a :: a in run ==> !a.RecheckTail?
    ensures Inv(c, After(c, s, run)) && Measuring(c, After(c, s, run), r0, r)
    decreases |run|
  {
    hide Inv, Enabled, Next, Measuring;
    if run == [] {
      r := r1;
    } else {
      assert run[0] in run;
      StepKeepsInv(c, s, run[0]);
      StepMeasures(c, s, run[0], r0, r1);
      r := KeepsMeasuring(c, Next(c, s, run[0]), run[1..], r0, if run[0].ComputeSpace? then |s.received| else r1);
    }
  }

  lemma StepMeasures(c: Setup, s: State, a: Action, r0: nat, r1: nat)
    requires Inv(c, s) && SetupOk(c) && c.length <= SIZES / 2 && Enabled(c, s, a) && Measuring(c, s, r0, r1)
    requires !a.RecheckTail?
    ensures Measuring(c, Next(c, s, a), r0, if a.ComputeSpace? then |s.received| else r1)
  {
    hide Slot, SpaceFor, BytesIn, Inv, MovedOn, PlaceOf, Frame, Payload;
    CountsAreCurrent(c, s);
  }

  // What the second look at the tail is for.  If it is where it was at the first look, and the reader
  // has not gone all the way round since, the space is as it is now; if it is not, bytes have been read.
  lemma RecheckIsExact(c: Setup, s: State, run: seq<Action>)
    requires Inv(c, s) && SetupOk(c) && c.length <= SIZES / 2
    requires Possible(c, s, [ReadTail] + run) && forall a :: a in run ==> !a.RecheckTail?
    requires Enabled(c, After(c, s, [ReadTail] + run), RecheckTail)
    ensures var e := After(c, s, [ReadTail] + run);
            match Next(c, e, RecheckTail).writer
            case Measured(_, space) => |e.received| < |s.received| + c.length ==> space == Free(c, e)
            case Asked(_) => |s.received| < |e.received|
            case _ => false
  {
    hide Slot, Inv, SpaceFor, BytesIn;
    var all := [ReadTail] + run;
    assert all[1..] == run && all[0] == ReadTail;
    StepKeepsInv(c, s, ReadTail);
    RingParts(c, s);
    var r := KeepsMeasuring(c, Next(c, s, ReadTail), run, |s.received|, |s.received|);
    var e := After(c, s, all);
    RingParts(c, e);
    if |s.received| < |e.received| < |s.received| + c.length {
      SlotsDiffer(|s.received|, |e.received|, c.length);
    }
  }

  lemma RingParts(c: Setup, s: State)
    requires Inv(c, s)
    ensures SetupOk(c) && s.tail == Slot(|s.received|, c.length)
  {}
}
