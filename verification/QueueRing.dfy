/** The storage of kernel/FreeRTOS/queue.c: a ring of fixed-size items in a byte array, with the
  * pointers pcWriteTo and pcReadFrom kept as byte offsets from pcHead.  pcReadFrom is the place the
  * last item was read from, so the next item to read is one slot further on.
  */
module QueueRing {
  import opened Arithmetic

  newtype Byte = b: int | 0 <= b < 256

  type Item = seq<Byte>

  datatype Position = Back | Front | Overwrite

  datatype Result<T> = Ok(value: T) | Fail

  // ---------------------------------------------------------------- the bounded deque

  // What sending does to the items of a queue, oldest first.
  function Sent(items: seq<Item>, item: Item, position: Position): seq<Item> {
    match position
    case Back => items + [item]
    case Front => [item] + items
    case Overwrite => [item]
  }

  // The same for a queue whose items may have size 0; those are only counted, so that overwriting
  // adds one like any other send.
  function Stored(items: seq<Item>, item: Item, position: Position): seq<Item> {
    if item == [] then items + [item] else Sent(items, item, position)
  }

  // Calls that do not wait.
  datatype Event = Send(item: Item, position: Position) | Receive | Peek

  datatype Reply = Accepted(item: Item) | Delivered(item: Item) | Shown(item: Item) | Refused

  function ReplyTo(length: nat, items: seq<Item>, e: Event): Reply {
    match e
    case Send(item, position) => if |items| < length || position == Overwrite then Accepted(item) else Refused
    case Receive => if items == [] then Refused else Delivered(items[0])
    case Peek => if items == [] then Refused else Shown(items[0])
  }

  function ItemsAfter(length: nat, items: seq<Item>, e: Event): seq<Item> {
    match e
    case Send(item, position) =>
      if |items| < length || position == Overwrite then Stored(items, item, position) else items
    case Receive => if items == [] then items else items[1..]
    case Peek => items
  }

  // The items left after a run of calls, and the replies to them.
  function Run(length: nat, items: seq<Item>, run: seq<Event>): (r: (seq<Item>, seq<Reply>))
    ensures |r.1| == |run|
    decreases |run|
  {
    if run == [] then (items, []) else
      var (left, replies) := Run(length, ItemsAfter(length, items, run[0]), run[1..]);
      (left, [ReplyTo(length, items, run[0])] + replies)
  }

  function AcceptedItems(replies: seq<Reply>): seq<Item> {
    if replies == [] then [] else
      (if replies[0].Accepted? then [replies[0].item] else []) + AcceptedItems(replies[1..])
  }

  function DeliveredItems(replies: seq<Reply>): seq<Item> {
    if replies == [] then [] else
      (if replies[0].Delivered? then [replies[0].item] else []) + DeliveredItems(replies[1..])
  }

  // First in, first out: over any run of receives, peeks and sends to the back, what comes out,
  // followed by what is left, is what was there followed by what was accepted.
  lemma {:induction false} FirstInFirstOut(length: nat, items: seq<Item>, run: seq<Event>)
    requires forall e :: e in run && e.Send? ==> e.position == Back
    ensures var (left, replies) := Run(length, items, run);
            DeliveredItems(replies) + left == items + AcceptedItems(replies)
    decreases |run|
  {
    hide ItemsAfter, ReplyTo;
    if run != [] {
      assert run[0] in run;
      var more, reply := ItemsAfter(length, items, run[0]), ReplyTo(length, items, run[0]);
      OneCallInOrder(length, items, run[0]);
      FirstInFirstOut(length, more, run[1..]);
      var (left, replies) := Run(length, more, run[1..]);
      assert ([reply] + replies)[1..] == replies;
      var out := if reply.Delivered? then [reply.item] else [];
      var into := if reply.Accepted? then [reply.item] else [];
      Chained(out, DeliveredItems(replies), left, more, AcceptedItems(replies), items, into);
    } else {
      assert items + [] == [] + items;
    }
  }

  lemma Chained<T>(out: seq<T>, later: seq<T>, left: seq<T>, more: seq<T>, accepted: seq<T>, items: seq<T>,
            into: seq<T>)
    requires later + left == more + accepted && out + more == items + into
    ensures (out + later) + left == items + (into + accepted)
  {
    assert (out + later) + left == out + (later + left);
    assert out + (more + accepted) == (out + more) + accepted;
    assert (items + into) + accepted == items + (into + accepted);
  }

  lemma OneCallInOrder(length: nat, items: seq<Item>, e: Event)
    requires e.Send? ==> e.position == Back
    ensures var reply := ReplyTo(length, items, e);
            (if reply.Delivered? then [reply.item] else []) + ItemsAfter(length, items, e)
            == items + (if reply.Accepted? then [reply.item] else [])
  {}

  // A queue takes as many items as its length, from either end, and then no more.
  lemma {:induction false} FillsUp(length: nat, items: seq<Item>, run: seq<Event>)
    requires |items| <= length && forall e :: e in run ==> e.Send? && e.position != Overwrite
    ensures var (left, replies) := Run(length, items, run);
            && |left| == (if |items| + |run| < length then |items| + |run| else length)
            && forall i :: 0 <= i < |run| ==>
                 replies[i] == if |items| + i < length then Accepted(run[i].item) else Refused
    decreases |run|
  {
    if run != [] {
      assert run[0] in run;
      var more := ItemsAfter(length, items, run[0]);
      FillsUp(length, more, run[1..]);
      var rest := Run(length, more, run[1..]).1;
      forall i | 0 < i < |run|
        ensures Run(length, items, run).1[i] == if |items| + i < length then Accepted(run[i].item) else Refused
      {
        assert run[1..][i - 1] == run[i] && Run(length, items, run).1[i] == rest[i - 1];
      }
    }
  }

  // What is sent to the front is what the next receive delivers, and then all is as before; an overwrite
  // leaves what it has sent and nothing else; a peek shows what the next receive delivers.
  lemma NextIsReceived(length: nat, items: seq<Item>, item: Item)
    requires item != []
    ensures |items| < length ==> Run(length, items, [Send(item, Front), Receive])
                                 == (items, [Accepted(item), Delivered(item)])
    ensures Run(length, items, [Send(item, Overwrite), Receive]) == ([], [Accepted(item), Delivered(item)])
    ensures items != [] ==> Run(length, items, [Peek, Receive]) == (items[1..], [Shown(items[0]), Delivered(items[0])])
    ensures Run(length, [], [Peek, Receive]) == ([], [Refused, Refused])
  {
    hide Run;
    assert ([item] + items)[1..] == items && [item][1..] == [];
    TwoCalls(length, items, Send(item, Front), Receive);
    TwoCalls(length, items, Send(item, Overwrite), Receive);
    TwoCalls(length, items, Peek, Receive);
    TwoCalls(length, [], Peek, Receive);
  }

  lemma TwoCalls(length: nat, items: seq<Item>, a: Event, b: Event)
    ensures var more := ItemsAfter(length, items, a);
            Run(length, items, [a, b])
            == (ItemsAfter(length, more, b), [ReplyTo(length, items, a), ReplyTo(length, more, b)])
  {
    hide ItemsAfter, ReplyTo;
    OneCall(length, items, a, [b]);
    OneCall(length, ItemsAfter(length, items, a), b, []);
    assert [a, b] == [a] + [b] && [b] == [b] + [];
    var x, y := ReplyTo(length, items, a), ReplyTo(length, ItemsAfter(length, items, a), b);
    assert [x] + ([y] + []) == [x, y];
  }

  lemma OneCall(length: nat, items: seq<Item>, a: Event, run: seq<Event>)
    ensures var more := ItemsAfter(length, items, a);
            Run(length, items, [a] + run)
            == (Run(length, more, run).0, [ReplyTo(length, items, a)] + Run(length, more, run).1)
  {
    hide ItemsAfter, ReplyTo;
    assert ([a] + run)[1..] == run;
  }

  // ---------------------------------------------------------------- slots of the storage area

  // The ring never counts further than twice round.
  function Wrap(i: nat, length: nat): (r: nat)
    requires i < 3 * length
    ensures r < length
  {
    if i < length then i else if i < 2 * length then i - length else i - 2 * length
  }

  lemma WrapIsRemainder(i: nat, length: nat)
    requires i < 3 * length
    ensures Wrap(i, length) == i % length
  {
    DivisionIsUnique(i, length, if i < length then 0 else if i < 2 * length then 1 else 2, Wrap(i, length));
  }

  // The byte offset of slot k.
  ghost function Offset(k: nat, size: nat): nat {
    if k == 0 then 0 else Offset(k - 1, size) + size
  }

  lemma {:induction false} OffsetIsProduct(k: nat, size: nat)
    ensures Offset(k, size) == k * size
  {
    if k != 0 {
      OffsetIsProduct(k - 1, size);
      assert k * size == (k - 1) * size + size;
    }
  }

  lemma {:induction false} SlotsApart(j: nat, k: nat, size: nat)
    requires j < k
    ensures Offset(j, size) + size <= Offset(k, size)
  {
    if j + 1 < k {
      SlotsApart(j, k - 1, size);
    }
  }

  // Moving a pointer on by one item, back to the start at the end of the area.
  lemma NextOffset(k: nat, length: nat, size: nat)
    requires k < length && 0 < size
    ensures Offset(k, size) + size <= Offset(length, size)
    ensures Wrap(k + 1, length) == if Offset(k, size) + size < Offset(length, size) then k + 1 else 0
    ensures Offset(k + 1, size) == Offset(k, size) + size && Offset(0, size) == 0
  {
    SlotsApart(k, length, size);
    if k + 1 < length {
      SlotsApart(k + 1, length, size);
    }
  }

  function Before(k: nat, length: nat): nat
    requires k < length
  {
    if k == 0 then length - 1 else k - 1
  }

  // Moving a pointer back by one item.
  lemma PreviousOffset(k: nat, length: nat, size: nat)
    requires k < length && 0 < size
    ensures Offset(k, size) < size <==> k == 0
    ensures Offset(Before(k, length), size)
            == if k == 0 then Offset(length, size) - size else Offset(k, size) - size
  {
    if k != 0 {
      SlotsApart(0, k, size);
    }
  }

  // The elements that follow the slot last read from, oldest first.
  function Ring<T>(slots: seq<T>, read: nat, count: nat): (r: seq<T>)
    requires read < |slots| && count <= |slots|
    ensures |r| == count && forall i :: 0 <= i < count ==> r[i] == slots[Wrap(read + 1 + i, |slots|)]
  {
    seq(count, i requires 0 <= i < count => slots[Wrap(read + 1 + i, |slots|)])
  }

  lemma RingGrowsAtBack<T>(slots: seq<T>, read: nat, count: nat, x: T)
    requires read < |slots| && count < |slots|
    ensures Ring(slots[Wrap(read + 1 + count, |slots|) := x], read, count + 1) == Ring(slots, read, count) + [x]
  {}

  lemma RingGrowsAtFront<T>(slots: seq<T>, read: nat, count: nat, x: T)
    requires read < |slots| && count < |slots|
    ensures Ring(slots[read := x], Before(read, |slots|), count + 1) == [x] + Ring(slots, read, count)
  {}

  lemma RingWithoutFirst<T>(slots: seq<T>, read: nat, count: nat)
    requires read < |slots| && 0 < count <= |slots|
    ensures Wrap(read + 1, |slots|) < |slots|
    ensures Ring(slots, Wrap(read + 1, |slots|), count - 1) == Ring(slots, read, count)[1..]
    ensures Wrap(Wrap(read + 1, |slots|) + count, |slots|) == Wrap(read + 1 + count, |slots|)
  {}

  // The storage area as a sequence of slots.
  ghost function Slots(bytes: seq<Byte>, length: nat, size: nat): (r: seq<Item>)
    requires |bytes| == Offset(length, size)
    ensures |r| == length
    decreases length
  {
    if length == 0 then []
    else Slots(bytes[..Offset(length - 1, size)], length - 1, size) + [bytes[Offset(length - 1, size)..]]
  }

  lemma {:induction false} SlotAt(bytes: seq<Byte>, k: nat, length: nat, size: nat)
    requires |bytes| == Offset(length, size) && k < length
    ensures Offset(k, size) + size <= |bytes|
    ensures Slots(bytes, length, size)[k] == bytes[Offset(k, size)..Offset(k, size) + size]
    decreases length
  {
    SlotsApart(k, length, size);
    if k < length - 1 {
      var front := bytes[..Offset(length - 1, size)];
      SlotAt(front, k, length - 1, size);
      assert front[Offset(k, size)..Offset(k, size) + size] == bytes[Offset(k, size)..Offset(k, size) + size];
    }
  }

  lemma Spliced(bytes: seq<Byte>, item: Item, at: nat, cut: nat)
    requires at + |item| <= cut <= |bytes|
    ensures var after := bytes[..at] + item + bytes[at + |item|..];
            && |after| == |bytes| && after[cut..] == bytes[cut..]
            && after[..cut] == bytes[..cut][..at] + item + bytes[..cut][at + |item|..]
  {}

  // Storing an item in one slot leaves the other slots as they were.
  lemma {:induction false} SlotStored(bytes: seq<Byte>, item: Item, k: nat, length: nat, size: nat)
    requires |bytes| == Offset(length, size) && k < length && |item| == size
    ensures Offset(k, size) + size <= |bytes|
    ensures var after := bytes[..Offset(k, size)] + item + bytes[Offset(k, size) + size..];
            |after| == |bytes| && Slots(after, length, size) == Slots(bytes, length, size)[k := item]
    decreases length
  {
    SlotsApart(k, length, size);
    var after := bytes[..Offset(k, size)] + item + bytes[Offset(k, size) + size..];
    var cut := Offset(length - 1, size);
    if k < length - 1 {
      SlotStored(bytes[..cut], item, k, length - 1, size);
      Spliced(bytes, item, Offset(k, size), cut);
    } else {
      assert after[..cut] == bytes[..cut];
      assert after[cut..] == item;
    }
  }

  // What each of the three ways of storing an item does to the items.
  lemma ItemStored(bytes: seq<Byte>, item: Item, read: nat, count: nat, position: Position, length: nat, size: nat)
    requires |bytes| == Offset(length, size) && |item| == size && read < length && count <= length
    requires if position == Overwrite then length == 1 else count < length
    ensures var at := Offset(if position == Back then Wrap(read + 1 + count, length) else read, size);
            && at + size <= |bytes|
            && var after := bytes[..at] + item + bytes[at + size..];
            && |after| == |bytes|
            && Ring(Slots(after, length, size), if position == Back then read else Before(read, length),
                    if position == Overwrite then 1 else count + 1)
               == Sent(Ring(Slots(bytes, length, size), read, count), item, position)
  {
    var slots := Slots(bytes, length, size);
    SlotStored(bytes, item, if position == Back then Wrap(read + 1 + count, length) else read, length, size);
    match position
    case Back => RingGrowsAtBack(slots, read, count, item);
    case Front => RingGrowsAtFront(slots, read, count, item);
    case Overwrite => RingGrowsAtFront(slots, read, 0, item);
  }

  // ---------------------------------------------------------------- the queue

  // memcpy() into a buffer.
  method CopyInto(to: array<Byte>, at: nat, from: seq<Byte>)
    requires at + |from| <= to.Length
    modifies to
    ensures to[..] == old(to[..at]) + from + old(to[at + |from|..])
  {
    var i := 0;
    while i < |from|
      invariant i <= |from|
      invariant forall k :: 0 <= k < to.Length ==> to[k] == if at <= k < at + i then from[k - at] else old(to[k])
    {
      to[at + i] := from[i];
      i := i + 1;
    }
  }

  // The items of a semaphore.
  function Empties(n: nat): (r: seq<Item>)
    ensures |r| == n && forall i :: 0 <= i < n ==> r[i] == []
  {
    seq(n, _ => [])
  }

  lemma EmptiesBut(n: nat)
    ensures Empties(n) + [[]] == Empties(n + 1)
    ensures n > 0 ==> Empties(n)[1..] == Empties(n - 1)
  {}

  class Queue {
    const storage: array<Byte>
    const length: nat
    const itemSize: nat
    var writeTo: nat
    var readFrom: nat
    var messagesWaiting: nat
    ghost var readSlot: nat
    ghost var writeSlot: nat

    // Semaphores have items of size 0 and never move the pointers.
    ghost predicate Valid()
      reads this
    {
      && 0 < length
      && storage.Length == Offset(length, itemSize)
      && (itemSize != 0 ==>
            && messagesWaiting <= length
            && readSlot < length && readFrom == Offset(readSlot, itemSize)
            && writeTo == Offset(writeSlot, itemSize)
            && writeSlot == Wrap(readSlot + 1 + messagesWaiting, length))
    }

    // The items, oldest first.
    ghost function Items(): (items: seq<Item>)
      reads this, storage
      requires Valid()
      ensures |items| == messagesWaiting && forall i :: i in items && itemSize == 0 ==> i == []
    {
      if itemSize == 0 then Empties(messagesWaiting)
      else Ring(Slots(storage[..], length, itemSize), readSlot, messagesWaiting)
    }

    // xQueueGenericCreate followed by prvInitialiseNewQueue.
    constructor (queueLength: nat, size: nat)
      requires 0 < queueLength
      ensures Valid() && fresh(storage) && length == queueLength && itemSize == size && Items() == []
    {
      length, itemSize := queueLength, size;
      OffsetIsProduct(queueLength, size);
      storage := new Byte[queueLength * size];
      new;
      Reset();
    }

    // xQueueGenericReset, without the event lists.
    method Reset()
      requires 0 < length && storage.Length == Offset(length, itemSize)
      modifies this
      ensures Valid() && Items() == []
    {
      OffsetIsProduct(length - 1, itemSize);
      messagesWaiting := 0;
      writeTo := 0;
      readFrom := (length - 1) * itemSize;
      readSlot, writeSlot := length - 1, 0;
    }

    // The queueSEND_TO_BACK branch of prvCopyDataToQueue.
    method StoreAtBack(item: Item)
      requires Valid() && |item| == itemSize != 0 && messagesWaiting < length
      modifies this`writeTo, this`writeSlot, storage
      ensures writeSlot == Wrap(old(writeSlot) + 1, length) && writeTo == Offset(writeSlot, itemSize)
      ensures Ring(Slots(storage[..], length, itemSize), readSlot, messagesWaiting + 1)
              == Sent(old(Items()), item, Back)
    {
      hide Ring, Slots, Offset, Sent;
      ItemStored(storage[..], item, readSlot, messagesWaiting, Back, length, itemSize);
      CopyInto(storage, writeTo, item);
      assert Ring(Slots(storage[..], length, itemSize), readSlot, messagesWaiting + 1)
             == Sent(old(Items()), item, Back);
      NextOffset(writeSlot, length, itemSize);
      writeTo := writeTo + itemSize;
      if writeTo >= storage.Length {
        writeTo := 0;
      }
      writeSlot := Wrap(writeSlot + 1, length);
    }

    // Its other branch, up to the test for queueOVERWRITE.
    method StoreAtFront(item: Item, ghost position: Position)
      requires Valid() && |item| == itemSize != 0 && position != Back
      requires if position == Overwrite then length == 1 else messagesWaiting < length
      modifies this`readFrom, this`readSlot, storage
      ensures readSlot == Before(old(readSlot), length) && readFrom == Offset(readSlot, itemSize)
      ensures Ring(Slots(storage[..], length, itemSize), readSlot,
                   if position == Overwrite then 1 else messagesWaiting + 1)
              == Sent(old(Items()), item, position)
    {
      hide Ring, Slots, Offset, Wrap, Sent;
      ItemStored(storage[..], item, readSlot, messagesWaiting, position, length, itemSize);
      PreviousOffset(readSlot, length, itemSize);
      CopyInto(storage, readFrom, item);
      if readFrom < itemSize {
        readFrom := storage.Length - itemSize;
      } else {
        readFrom := readFrom - itemSize;
      }
      readSlot := Before(readSlot, length);
    }

    // prvCopyDataToQueue
    method CopyDataToQueue(item: Item, position: Position)
      requires Valid() && |item| == itemSize
      requires messagesWaiting < length || position == Overwrite
      requires position == Overwrite ==> length == 1
      modifies this, storage
      ensures Valid()
      ensures Items() == Stored(old(Items()), item, position)
    {
      hide Empties, Slots, Ring, Offset, Sent;
      var waiting := messagesWaiting;
      if itemSize == 0 {
        EmptiesBut(waiting);
      } else if position == Back {
        StoreAtBack(item);
      } else {
        StoreAtFront(item, position);
        if position == Overwrite {
          if waiting > 0 {
            waiting := waiting - 1;
          }
        }
      }
      messagesWaiting := waiting + 1;
    }

    // prvCopyDataFromQueue
    method CopyDataFromQueue() returns (item: Item)
      requires Valid() && 0 < messagesWaiting
      modifies this`readFrom, this`readSlot
      ensures item == old(Items()[0])
      ensures itemSize == 0 ==> Valid() && readFrom == old(readFrom)
      ensures itemSize != 0 ==> readSlot == Wrap(old(readSlot) + 1, length) && readFrom == Offset(readSlot, itemSize)
    {
      hide Slots, Offset, Ring, Wrap;
      item := [];
      if itemSize != 0 {
        NextOffset(readSlot, length, itemSize);
        readFrom := readFrom + itemSize;
        if readFrom >= storage.Length {
          readFrom := 0;
        }
        readSlot := Wrap(readSlot + 1, length);
        SlotAt(storage[..], readSlot, length, itemSize);
        item := storage[readFrom..readFrom + itemSize];
      }
    }

    // The part of xQueueGenericSend and xQueueGenericSendFromISR that decides and stores.
    method Send(item: Item, position: Position) returns (ok: bool)
      requires Valid() && |item| == itemSize
      requires position == Overwrite ==> length == 1
      modifies this, storage
      ensures Valid()
      ensures ok <==> old(messagesWaiting) < length || position == Overwrite
      ensures Items() == if ok then Stored(old(Items()), item, position) else old(Items())
      // The count stays within the length, except when a full semaphore is overwritten.
      ensures old(messagesWaiting) <= length ==>
        (messagesWaiting <= length <==> !(itemSize == 0 && position == Overwrite && old(messagesWaiting) == length))
    {
      if messagesWaiting < length || position == Overwrite {
        CopyDataToQueue(item, position);
        ok := true;
      } else {
        ok := false;
      }
    }

    // The part of xQueueReceive, xQueueReceiveFromISR and xQueueSemaphoreTake that takes an item.
    method Receive() returns (r: Result<Item>)
      requires Valid()
      modifies this
      ensures Valid()
      ensures r == if old(Items()) == [] then Fail else Ok(old(Items())[0])
      ensures Items() == if old(Items()) == [] then [] else old(Items())[1..]
    {
      hide Ring, Slots, Offset, Wrap, Empties;
      var waiting := messagesWaiting;
      if waiting > 0 {
        EmptiesBut(waiting);
        ghost var slot := readSlot;
        var item := CopyDataFromQueue();
        messagesWaiting := waiting - 1;
        if itemSize != 0 {
          RingWithoutFirst(Slots(storage[..], length, itemSize), slot, waiting);
        }
        r := Ok(item);
      } else {
        r := Fail;
      }
    }

    // xQueuePeek and xQueuePeekFromISR
    method Peek() returns (r: Result<Item>)
      requires Valid()
      modifies this`readFrom, this`readSlot
      ensures Valid()
      ensures r == if old(Items()) == [] then Fail else Ok(old(Items())[0])
      ensures Items() == old(Items()) && readFrom == old(readFrom)
    {
      if messagesWaiting > 0 {
        var originalReadPosition := readFrom;
        ghost var slot := readSlot;
        var item := CopyDataFromQueue();
        readFrom := originalReadPosition;
        readSlot := slot;
        r := Ok(item);
      } else {
        r := Fail;
      }
    }
  }

  // Callers that use the queue one after the other see the calls answered as the sequence of items
  // demands.
  method Perform(q: Queue, run: seq<Event>) returns (replies: seq<Reply>)
    requires q.Valid()
    requires forall e :: e in run && e.Send? ==> |e.item| == q.itemSize && (e.position == Overwrite ==> q.length == 1)
    modifies q, q.storage
    ensures q.Valid() && (q.Items(), replies) == Run(q.length, old(q.Items()), run)
  {
    hide Run, ItemsAfter, ReplyTo, Stored;
    replies := [];
    var i := 0;
    RunFromStart(q.length, q.Items(), run);
    while i < |run|
      invariant i <= |run| && q.Valid()
      invariant RunFrom(q.length, q.Items(), run, i, replies) == Run(q.length, old(q.Items()), run)
    {
      ghost var was := q.Items();
      var reply := Refused;
      match run[i] {
        case Send(item, position) =>
          assert run[i] in run;
          var ok := q.Send(item, position);
          reply := if ok then Accepted(item) else Refused;
        case Receive =>
          var r := q.Receive();
          reply := if r.Ok? then Delivered(r.value) else Refused;
        case Peek =>
          var r := q.Peek();
          reply := if r.Ok? then Shown(r.value) else Refused;
      }
      EventDone(q.length, was, run[i], reply, q.Items());
      RunFromNext(q.length, was, run, i, replies);
      replies := replies + [reply];
      i := i + 1;
    }
    RunFromEnd(q.length, q.Items(), run, replies);
  }

  // Where a run ends that has come to call number i with these items and these replies.
  function RunFrom(length: nat, items: seq<Item>, run: seq<Event>, i: nat, replies: seq<Reply>): (seq<Item>, seq<Reply>)
    requires i <= |run|
  {
    (Run(length, items, run[i..]).0, replies + Run(length, items, run[i..]).1)
  }

  lemma RunFromNext(length: nat, items: seq<Item>, run: seq<Event>, i: nat, replies: seq<Reply>)
    requires i < |run|
    ensures RunFrom(length, items, run, i, replies)
            == RunFrom(length, ItemsAfter(length, items, run[i]), run, i + 1,
                       replies + [ReplyTo(length, items, run[i])])
  {
    hide ItemsAfter, ReplyTo;
    assert run[i..][1..] == run[i + 1..];
    var rest := Run(length, ItemsAfter(length, items, run[i]), run[i + 1..]).1;
    var reply := ReplyTo(length, items, run[i]);
    assert replies + ([reply] + rest) == replies + [reply] + rest;
  }

  lemma RunFromEnd(length: nat, items: seq<Item>, run: seq<Event>, replies: seq<Reply>)
    ensures RunFrom(length, items, run, |run|, replies) == (items, replies)
  {
    assert run[|run|..] == [] && replies + [] == replies;
  }

  lemma RunFromStart(length: nat, items: seq<Item>, run: seq<Event>)
    ensures RunFrom(length, items, run, 0, []) == Run(length, items, run)
  {
    assert run[0..] == run;
    assert [] + Run(length, items, run).1 == Run(length, items, run).1;
  }

  // What the three calls promise is what the sequence of items demands.
  lemma EventDone(length: nat, items: seq<Item>, e: Event, reply: Reply, more: seq<Item>)
    requires match e
             case Send(item, position) =>
               var ok := |items| < length || position == Overwrite;
               && reply == (if ok then Accepted(item) else Refused)
               && more == if ok then Stored(items, item, position) else items
             case Receive =>
               && reply == (if items == [] then Refused else Delivered(items[0]))
               && more == if items == [] then [] else items[1..]
             case Peek => reply == (if items == [] then Refused else Shown(items[0])) && more == items
    ensures reply == ReplyTo(length, items, e) && more == ItemsAfter(length, items, e)
  {}
}
