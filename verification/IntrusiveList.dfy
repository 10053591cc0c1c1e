/** The kernel's circular doubly linked list (kernel/FreeRTOS/list.c).  The items are linked through
  * their own fields, and the list's end marker is an item of the ring like the others.
  */
module IntrusiveList {
  import Lists
  import Turns

  const MAX_DELAY: nat := 0xffff_ffff     // portMAX_DELAY

  class Item {
    const owner: Turns.Id       // pvOwner
    var value: nat              // xItemValue
    var next: Item?             // pxNext
    var previous: Item?         // pxPrevious
    var container: List?        // pxContainer

    // vListInitialiseItem and listSET_LIST_ITEM_OWNER
    constructor (value: nat, owner: Turns.Id)
      requires value <= MAX_DELAY
      ensures this.value == value && this.owner == owner && container == null
    {
      this.value, this.owner, next, previous, container := value, owner, null, null, null;
    }
  }

  function After(k: nat, n: nat): nat { if k + 1 == n then 0 else k + 1 }
  function Before(k: nat, n: nat): nat
    requires 0 < n
  {
    if k == 0 then n - 1 else k - 1
  }

  // The items are linked in the order of the sequence, and the last one to the first one.
  ghost predicate Forward(ring: seq<Item>)
    reads ring
  {
    forall k {:trigger ring[k].next} :: 0 <= k < |ring| ==> ring[k].next == ring[After(k, |ring|)]
  }

  ghost predicate Backward(ring: seq<Item>)
    reads ring
  {
    forall k {:trigger ring[k].previous} :: 0 <= k < |ring| ==> ring[k].previous == ring[Before(k, |ring|)]
  }

  ghost predicate Linked(ring: seq<Item>)
    reads ring
  {
    Lists.Distinct(ring) && Forward(ring) && Backward(ring)
  }

  // The ring with x behind position k.
  function Spliced<T>(ring: seq<T>, k: nat, x: T): seq<T>
    requires k < |ring|
  {
    ring[..k + 1] + [x] + ring[k + 1..]
  }

  lemma SplicedDistinct<T>(ring: seq<T>, k: nat, x: T)
    requires k < |ring| && Lists.Distinct(ring) && x !in ring
    ensures Lists.Distinct(Spliced(ring, k, x))
    ensures forall y :: y in Spliced(ring, k, x) <==> y in ring || y == x
  {
    var r := Spliced(ring, k, x);
    forall y | y in ring ensures y in r {
      var i :| 0 <= i < |ring| && ring[i] == y;
      assert r[if i <= k then i else i + 1] == y;
    }
    assert r[k + 1] == x;
  }

  lemma SplicedForward(ring: seq<Item>, k: nat, x: Item)
    requires k < |ring| && x.next == ring[After(k, |ring|)] && ring[k].next == x
    requires forall i {:trigger ring[i].next} :: 0 <= i < |ring| && i != k ==> ring[i].next == ring[After(i, |ring|)]
    ensures Forward(Spliced(ring, k, x))
  {
    var r := Spliced(ring, k, x);
    forall j | 0 <= j < |r| ensures r[j].next == r[After(j, |r|)] {
      if j != k + 1 {
        assert r[j] == ring[if j <= k then j else j - 1];
      }
    }
  }

  lemma SplicedBackward(ring: seq<Item>, k: nat, x: Item)
    requires k < |ring| && x.previous == ring[k] && ring[After(k, |ring|)].previous == x
    requires forall i {:trigger ring[i].previous} :: 0 <= i < |ring| && i != After(k, |ring|) ==>
               ring[i].previous == ring[Before(i, |ring|)]
    ensures Backward(Spliced(ring, k, x))
  {
    var r := Spliced(ring, k, x);
    forall j | 0 <= j < |r| ensures r[j].previous == r[Before(j, |r|)] {
      if j != k + 1 {
        assert r[j] == ring[if j <= k then j else j - 1];
      }
    }
  }

  // The ring without the item at position k.
  function Cut<T>(ring: seq<T>, k: nat): seq<T>
    requires k < |ring|
  {
    ring[..k] + ring[k + 1..]
  }

  lemma CutForward(ring: seq<Item>, k: nat)
    requires 0 < k < |ring| && ring[k - 1].next == ring[After(k, |ring|)]
    requires forall i {:trigger ring[i].next} :: 0 <= i < |ring| && i != k && i != k - 1 ==>
               ring[i].next == ring[After(i, |ring|)]
    ensures Forward(Cut(ring, k))
  {
    var r := Cut(ring, k);
    forall j | 0 <= j < |r| ensures r[j].next == r[After(j, |r|)] {
      assert r[j] == ring[if j < k then j else j + 1];
    }
  }

  lemma CutBackward(ring: seq<Item>, k: nat)
    requires 0 < k < |ring| && ring[After(k, |ring|)].previous == ring[k - 1]
    requires forall i {:trigger ring[i].previous} :: 0 <= i < |ring| && i != k && i != After(k, |ring|) ==>
               ring[i].previous == ring[Before(i, |ring|)]
    ensures Backward(Cut(ring, k))
  {
    var r := Cut(ring, k);
    forall j | 0 <= j < |r| ensures r[j].previous == r[Before(j, |r|)] {
      assert r[j] == ring[if j < k then j else j + 1];
    }
  }

  lemma CutDistinct<T>(ring: seq<T>, k: nat)
    requires 0 < k < |ring| && Lists.Distinct(ring)
    ensures Lists.Distinct(Cut(ring, k)) && forall y :: y in Cut(ring, k) <==> y in ring && y != ring[k]
  {
    var r := Cut(ring, k);
    forall y | y in ring && y != ring[k] ensures y in r {
      var i :| 0 <= i < |ring| && ring[i] == y;
      assert r[if i < k then i else i - 1] == y;
    }
  }

  lemma CutIndices<T>(ring: seq<T>, k: nat, at: nat)
    requires 0 < k < |ring| && at < |ring|
    ensures var r := Cut(ring, k);
            && |r| == |ring| - 1 && r[0] == ring[0]
            && r[if at < k then at else at - 1] == ring[if at == k then k - 1 else at]
  {}

  lemma {:induction false} RemoveBehind<T>(front: seq<T>, x: T, back: seq<T>)
    requires x !in front
    ensures Lists.Remove(front + [x] + back, x) == front + back
  {
    if front == [] {
      assert [] + [x] + back == [x] + back;
    } else {
      RemoveBehind(front[1..], x, back);
      assert (front + [x] + back)[1..] == front[1..] + [x] + back;
    }
  }

  // The ring in the order from position `at` on, round to it, without the first `low` positions.
  function Around<T>(ring: seq<T>, at: nat, low: nat): seq<T>
    requires low <= at + 1 <= |ring|
  {
    ring[at + 1..] + ring[low..at + 1]
  }

  lemma CutAhead<T>(ring: seq<T>, at: nat, k: nat, low: nat)
    requires low <= at + 1 <= k < |ring|
    ensures Around(ring, at, low) == ring[at + 1..k] + [ring[k]] + (ring[k + 1..] + ring[low..at + 1])
    ensures Around(Cut(ring, k), at, low) == ring[at + 1..k] + (ring[k + 1..] + ring[low..at + 1])
  {
    assert ring[at + 1..] == ring[at + 1..k] + [ring[k]] + ring[k + 1..];
    assert Cut(ring, k)[at + 1..] == ring[at + 1..k] + ring[k + 1..];
    assert Cut(ring, k)[low..at + 1] == ring[low..at + 1];
  }

  lemma CutBehind<T>(ring: seq<T>, at: nat, k: nat, low: nat)
    requires low <= k <= at < |ring| && 0 < k
    ensures Around(ring, at, low) == (ring[at + 1..] + ring[low..k]) + [ring[k]] + ring[k + 1..at + 1]
    ensures Around(Cut(ring, k), at - 1, low) == (ring[at + 1..] + ring[low..k]) + ring[k + 1..at + 1]
  {
    assert ring[low..at + 1] == ring[low..k] + [ring[k]] + ring[k + 1..at + 1];
    assert Cut(ring, k)[at..] == ring[at + 1..];
    assert Cut(ring, k)[low..at] == ring[low..k] + ring[k + 1..at + 1];
  }

  lemma CutAround<T>(ring: seq<T>, at: nat, k: nat, low: nat)
    requires at < |ring| && low <= 1 <= k < |ring| && Lists.Distinct(ring)
    ensures Around(Cut(ring, k), if at < k then at else at - 1, low) == Lists.Remove(Around(ring, at, low), ring[k])
  {
    hide Around, Cut;
    if at < k {
      CutAhead(ring, at, k, low);
      RemoveBehind(ring[at + 1..k], ring[k], ring[k + 1..] + ring[low..at + 1]);
    } else {
      CutBehind(ring, at, k, low);
      RemoveBehind(ring[at + 1..] + ring[low..k], ring[k], ring[k + 1..at + 1]);
    }
  }

  // A walk goes on as before, without the item that has been removed.
  lemma WalkAfterCut<T>(ring: seq<T>, at: nat, k: nat)
    requires at < |ring| && 0 < k < |ring| && Lists.Distinct(ring)
    ensures Walk(Cut(ring, k), if at < k then at else at - 1) == Lists.Remove(Walk(ring, at), ring[k])
  {
    hide Cut;
    CutAround(ring, at, k, 1);
  }

  lemma AllLinks(ring: seq<Item>)
    requires Linked(ring)
    ensures forall i {:trigger ring[i].next} :: 0 <= i < |ring| ==> ring[i].next == ring[After(i, |ring|)]
    ensures forall i {:trigger ring[i].previous} :: 0 <= i < |ring| ==> ring[i].previous == ring[Before(i, |ring|)]
  {}

  lemma LinkBefore(ring: seq<Item>, k: nat)
    requires Linked(ring) && k < |ring|
    ensures ring[k].previous == ring[Before(k, |ring|)]
    ensures Lists.Distinct(ring)
  {}

  lemma SplicedIndices<T>(ring: seq<T>, k: nat, x: T)
    requires k < |ring|
    ensures var r := Spliced(ring, k, x);
            && |r| == |ring| + 1 && r[k + 1] == x
            && forall i :: 0 <= i < |ring| ==> r[if i <= k then i else i + 1] == ring[i]
  {}

  lemma DistinctRing(ring: seq<Item>)
    requires Linked(ring)
    ensures Lists.Distinct(ring)
  {}

  lemma DistinctIndices(ring: seq<Item>, k: nat)
    requires k < |ring| && Lists.Distinct(ring)
    ensures forall i :: 0 <= i < |ring| && ring[i] == ring[k] ==> i == k
  {}

  // The order in which the items are returned by walking on from position k; the end marker, at
  // position 0, is passed over.
  function Walk<T>(ring: seq<T>, k: nat): seq<T>
    requires k < |ring|
  {
    Around(ring, k, 1)
  }

  ghost predicate InOrder(ring: seq<Item>)
    reads ring
  {
    forall i, j :: 1 <= i < j < |ring| ==> ring[i].value <= ring[j].value
  }

  lemma LaterItems(ring: seq<Item>, k: nat, value: nat)
    requires InOrder(ring) && k < |ring| && (k + 1 < |ring| ==> value < ring[k + 1].value)
    ensures forall i {:trigger ring[i].value} :: k < i < |ring| ==> value < ring[i].value
  {}

  lemma ItemsBelow(l: List)
    requires l.Valid()
    ensures forall i {:trigger l.ring[i].value} :: 1 <= i < |l.ring| ==> l.ring[i].value <= MAX_DELAY
  {
    forall i | 1 <= i < |l.ring| ensures l.ring[i].value <= MAX_DELAY {
      assert l.ring[i] in l.ring;
    }
  }

  // Putting x where its value belongs keeps the order.
  lemma OrderKept(ring: seq<Item>, k: nat, x: Item)
    requires k < |ring| && InOrder(ring)
    requires forall i {:trigger ring[i].value} :: 1 <= i <= k ==> ring[i].value <= x.value
    requires forall i {:trigger ring[i].value} :: k < i < |ring| ==> x.value < ring[i].value
    ensures InOrder(Spliced(ring, k, x))
  {
    var r := Spliced(ring, k, x);
    forall i, j | 1 <= i < j < |r| ensures r[i].value <= r[j].value {
      assert r[i] == if i <= k then ring[i] else if i == k + 1 then x else ring[i - 1];
      assert r[j] == if j <= k then ring[j] else if j == k + 1 then x else ring[j - 1];
    }
  }

  // ---------------------------------------------------------------- the ring as a ready list

  // What a scheduler sees of the ring.
  function Slots(ring: seq<Item>): (r: seq<Turns.Slot>)
    ensures |r| == |ring|
    ensures forall i :: 0 <= i < |ring| ==> r[i] == if i == 0 then Turns.EndMarker else Turns.Member(ring[i].owner)
  {
    seq(|ring|, i requires 0 <= i < |ring| => if i == 0 then Turns.EndMarker else Turns.Member(ring[i].owner))
  }

  // The ring in the order of the walk from position `at` on, with that position last.
  function FromIndex<T>(ring: seq<T>, at: nat): seq<T>
    requires at < |ring|
  {
    Around(ring, at, 0)
  }

  // The ring as Turns has it.
  function Ready(ring: seq<Item>, at: nat): Turns.ReadyList
    requires at < |ring| && Lists.Distinct(Slots(ring))
  {
    FromIndexOk(Slots(ring), at);
    assert Slots(ring)[0] == Turns.EndMarker;
    FromIndex(Slots(ring), at)
  }

  lemma FromIndexOk<T>(ring: seq<T>, at: nat)
    requires at < |ring| && Lists.Distinct(ring)
    ensures Lists.Distinct(FromIndex(ring, at))
    ensures forall s :: s in FromIndex(ring, at) <==> s in ring
  {
    Lists.SplitDistinct(ring, at + 1);
  }

  lemma SplicedSlots(ring: seq<Item>, k: nat, x: Item)
    requires k < |ring|
    ensures Slots(Spliced(ring, k, x)) == Spliced(Slots(ring), k, Turns.Member(x.owner))
  {}

  lemma CutSlots(ring: seq<Item>, k: nat)
    requires 0 < k < |ring|
    ensures Slots(Cut(ring, k)) == Cut(Slots(ring), k)
  {}

  // An item linked in before the index joins the ready list.
  lemma SpliceJoins<T>(ring: seq<T>, at: nat, x: T)
    requires at < |ring|
    ensures var k := Before(at, |ring|); var all := FromIndex(ring, at);
            FromIndex(Spliced(ring, k, x), if at <= k then at else at + 1) == all[..|all| - 1] + [x, all[|all| - 1]]
  {
    var all, r := FromIndex(ring, at), Spliced(ring, Before(at, |ring|), x);
    assert all[..|all| - 1] == ring[at + 1..] + ring[..at];
    if at == 0 {
      assert r == ring + [x];
      assert r[1..] == ring[1..] + [x];
    } else {
      assert r == ring[..at] + [x] + ring[at..];
      assert r[at + 2..] == ring[at + 1..] && r[..at + 2] == ring[..at] + [x, ring[at]];
    }
  }

  lemma IndexRotates<T>(ring: seq<T>, at: nat)
    requires at < |ring|
    ensures var all := FromIndex(ring, at); FromIndex(ring, After(at, |ring|)) == all[1..] + [all[0]]
  {}

  lemma ReadyJoined(ring: seq<Item>, at: nat, x: Item)
    requires at < |ring| && Lists.Distinct(Slots(ring)) && !Turns.Has(Ready(ring, at), x.owner)
    ensures var k := Before(at, |ring|); var slots := Slots(Spliced(ring, k, x));
            Lists.Distinct(slots) && |slots| == |ring| + 1
            && FromIndex(slots, if at <= k then at else at + 1) == Turns.Joined(Ready(ring, at), x.owner)
  {
    hide Slots, Spliced, FromIndex, Lists.Distinct;
    var k := Before(at, |ring|);
    FromIndexOk(Slots(ring), at);
    SplicedIndices(ring, k, x);
    SplicedSlots(ring, k, x);
    SplicedDistinct(Slots(ring), k, Turns.Member(x.owner));
    SpliceJoins(Slots(ring), at, Turns.Member(x.owner));
  }

  lemma ReadyLeft(ring: seq<Item>, at: nat, k: nat)
    requires at < |ring| && 0 < k < |ring| && Lists.Distinct(Slots(ring))
    ensures var slots := Slots(Cut(ring, k));
            Lists.Distinct(slots) && |slots| == |ring| - 1
            && FromIndex(slots, if at < k then at else at - 1) == Turns.Left(Ready(ring, at), ring[k].owner)
  {
    hide Slots, Cut, Around, Lists.Distinct;
    CutIndices(ring, k, at);
    CutSlots(ring, k);
    CutDistinct(Slots(ring), k);
    CutAround(Slots(ring), at, k, 0);
  }

  lemma ReadyAdvanced(ring: seq<Item>, at: nat)
    requires at < |ring| && 1 < |ring| && Lists.Distinct(Slots(ring))
    ensures var next := if at + 1 == |ring| then 1 else at + 1;
            && !Turns.Empty(Ready(ring, at)) && Ready(ring, next) == Turns.Advanced(Ready(ring, at))
            && ring[next].owner == Turns.Next(Ready(ring, at))
  {
    hide Lists.Distinct;
    IndexRotates(Slots(ring), at);
    IndexRotates(Slots(ring), After(at, |ring|));
  }

  // The pointer assignments that put x behind another item.
  method Link(x: Item, after: Item)
    requires after.next != null && x != after && x != after.next
    modifies x`next, x`previous, after`next, after.next`previous
    ensures after.next == x && x.previous == after && x.next == old(after.next) && old(after.next).previous == x
  {
    x.next := after.next;
    x.next.previous := x;
    x.previous := after;
    after.next := x;
  }

  // Going on by one item, past the end marker.
  lemma WalkOn<T>(ring: seq<T>, at: nat)
    requires at < |ring| && 1 < |ring|
    ensures var next := if at + 1 == |ring| then 1 else at + 1;
            Walk(ring, at) != [] && Walk(ring, at)[0] == ring[next]
            && Walk(ring, next) == Walk(ring, at)[1..] + [ring[next]]
  {
    if at + 1 == |ring| {
      assert Walk(ring, at) == ring[1..];
    }
  }

  // The pointer assignments that take x out of its list.
  method Unlink(x: Item, ghost ring: seq<Item>, ghost k: nat)
    requires 0 < k < |ring| && ring[k] == x && Linked(ring)
    modifies ring`next, ring`previous
    ensures Linked(Cut(ring, k)) && x.previous == ring[k - 1]
  {
    hide Lists.Distinct, Forward, Backward, Cut;
    AllLinks(ring);
    DistinctIndices(ring, k);
    DistinctIndices(ring, After(k, |ring|));
    DistinctIndices(ring, k - 1);
    x.next.previous := x.previous;
    x.previous.next := x.next;
    forall i | 0 <= i < |ring| && i != k && i != k - 1 ensures ring[i].next == ring[After(i, |ring|)] {
      assert ring[i] != ring[k - 1] && ring[i].next == old(ring[i].next);
    }
    forall i | 0 <= i < |ring| && i != k && i != After(k, |ring|) ensures ring[i].previous == ring[Before(i, |ring|)] {
      assert ring[i] != ring[After(k, |ring|)] && ring[i].previous == old(ring[i].previous);
    }
    CutForward(ring, k);
    CutBackward(ring, k);
    CutDistinct(ring, k);
  }

  class List {
    const end: Item             // xListEnd
    var index: Item             // pxIndex
    var count: nat              // uxNumberOfItems
    ghost var ring: seq<Item>   // the end marker and then the items in their order
    ghost var at: nat           // where the index is on the ring

    ghost predicate Valid()
      reads this, ring
    {
      && 0 < |ring| && ring[0] == end && Linked(ring) && count == |ring| - 1
      && at < |ring| && ring[at] == index
      && end.value == MAX_DELAY
      && forall y :: y in ring && y != end ==> y.container == this && y.value <= MAX_DELAY
    }

    ghost predicate Sorted()
      reads this, ring
    {
      InOrder(ring)
    }

    // Every item of the list has an owner of its own.
    ghost predicate OwnersDiffer()
      reads this
    {
      Lists.Distinct(Slots(ring))
    }

    // The list as Turns has it.
    ghost function ReadyList(): Turns.ReadyList
      requires Valid() && OwnersDiffer()
      reads this, ring
    {
      Ready(ring, at)
    }

    // vListInitialise
    constructor ()
      ensures Valid() && ring == [end] && index == end && fresh(end)
    {
      var e := new Item(MAX_DELAY, 0);
      end, index, count, ring, at := e, e, 0, [e], 0;
      new;
      e.next, e.previous := e, e;
    }

    // The items of the list are the items that say so.
    ghost predicate Outside(x: Item)
      reads this, x, ring
    {
      x.container == null && x !in ring && x.value <= MAX_DELAY
    }

    // Link x behind the item at position k.
    method Splice(x: Item, ghost k: nat, after: Item)
      requires Valid() && Outside(x) && k < |ring| && ring[k] == after
      modifies this`count, this`ring, this`at, x`next, x`previous, x`container, ring
      ensures Valid() && ring == Spliced(old(ring), k, x)
      ensures index == old(index) && at == (if old(at) <= k then old(at) else old(at) + 1)
      ensures x.value == old(x.value) && forall y :: y in old(ring) ==> y.value == old(y.value)
    {
      hide Lists.Distinct, Forward, Backward, Spliced;
      ghost var r, succ := ring, After(k, |ring|);
      AllLinks(r);
      DistinctIndices(r, k);
      DistinctIndices(r, succ);
      Link(x, after);
      x.container := this;
      count := count + 1;
      forall i | 0 <= i < |r| && i != k ensures r[i].next == r[After(i, |r|)] {
        assert r[i] != r[k] && r[i].next == old(r[i].next);
      }
      forall i | 0 <= i < |r| && i != succ ensures r[i].previous == r[Before(i, |r|)] {
        assert r[i] != r[succ] && r[i].previous == old(r[i].previous);
      }
      SplicedForward(r, k, x);
      SplicedBackward(r, k, x);
      SplicedDistinct(r, k, x);
      SplicedIndices(r, k, x);
      ring := Spliced(r, k, x);
      at := if at <= k then at else at + 1;
    }

    // vListInsertEnd: the item comes right before the index, so that every other item is returned
    // before it by a walk from the index, unless that comes to the index once more.
    method InsertEnd(x: Item)
      requires Valid() && Outside(x)
      modifies this`count, this`ring, this`at, x`next, x`previous, x`container, ring
      ensures Valid() && index == old(index) && old(at) < |old(ring)|
      ensures ring == Spliced(old(ring), Before(old(at), |old(ring)|), x)
      ensures Walk(ring, at) == if old(index) == end then Walk(old(ring), old(at)) + [x]
                                else old(ring[at + 1..] + ring[1..at]) + [x, old(index)]
      ensures forall y :: y in old(ring) ==> y.value == old(y.value)
      ensures x.value == old(x.value)
      ensures old(OwnersDiffer()) && !Turns.Has(old(ReadyList()), x.owner) ==>
                OwnersDiffer() && ReadyList() == Turns.Joined(old(ReadyList()), x.owner)
    {
      hide Linked, Spliced, Slots, Around, Walk, Turns.Joined, Turns.Has;
      LinkBefore(ring, at);
      DistinctIndices(ring, 0);
      WalkAfterInsert(ring, at, x);
      if OwnersDiffer() && !Turns.Has(ReadyList(), x.owner) {
        ReadyJoined(ring, at, x);
      }
      Splice(x, Before(at, |ring|), index.previous);
    }

    // The item behind which vListInsert puts an item of this value.
    method FindPlace(value: nat) returns (current: Item, ghost k: nat)
      requires Valid() && Sorted() && value <= MAX_DELAY
      ensures k < |ring| && ring[k] == current
      ensures forall i {:trigger ring[i].value} :: 1 <= i <= k ==> ring[i].value <= value
      ensures forall i {:trigger ring[i].value} :: k < i < |ring| ==> value < ring[i].value
    {
      hide Linked, InOrder;
      AllLinks(ring);
      current, k := end, 0;
      if value == MAX_DELAY {
        k := |ring| - 1;
        current := end.previous;
        ItemsBelow(this);
      } else {
        while current.next.value <= value
          invariant 0 <= k < |ring| && ring[k] == current
          invariant forall i {:trigger ring[i].value} :: 1 <= i <= k ==> ring[i].value <= value
          decreases |ring| - k
        {
          assert k + 1 < |ring|;
          current := current.next;
          k := k + 1;
        }
        LaterItems(ring, k, value);
      }
    }

    // vListInsert: the item comes after all items whose value is not greater, and before all others.
    method Insert(x: Item)
      requires Valid() && Sorted() && Outside(x)
      modifies this`count, this`ring, this`at, x`next, x`previous, x`container, ring
      ensures Valid() && Sorted() && index == old(index)
      ensures exists k :: 0 <= k < |old(ring)| && InsertedAt(old(ring), k, x)
    {
      hide Linked, Spliced;
      var current, k := FindPlace(x.value);
      ghost var before := ring;
      Splice(x, k, current);
      forall i | 1 <= i < |before| ensures if i <= k then before[i].value <= x.value else x.value < before[i].value {
        assert before[i] in before;
      }
      OrderKept(before, k, x);
      assert InsertedAt(before, k, x);
    }

    // uxListRemove
    method Remove(x: Item) returns (left: nat)
      requires Valid() && x in ring && x != end
      modifies this`index, this`count, this`ring, this`at, x`container, ring
      ensures Valid() && left == count && x.container == null && old(at) < |old(ring)|
      ensures exists k :: 0 < k < |old(ring)| && old(ring)[k] == x && ring == Cut(old(ring), k)
      ensures Walk(ring, at) == Lists.Remove(old(Walk(ring, at)), x)
      ensures forall y :: y in old(ring) ==> y.value == old(y.value)
      ensures old(OwnersDiffer()) ==> OwnersDiffer() && ReadyList() == Turns.Left(old(ReadyList()), x.owner)
    {
      hide Linked, Cut, Walk, Lists.Remove, Lists.Distinct, FromIndex, Around, Slots;
      ghost var k :| 0 < k < |ring| && ring[k] == x;
      DistinctRing(ring);
      WalkAfterCut(ring, at, k);
      if OwnersDiffer() {
        ReadyLeft(ring, at, k);
      }
      left := TakeOut(x, k);
    }

    method TakeOut(x: Item, ghost k: nat) returns (left: nat)
      requires Valid() && 0 < k < |ring| && ring[k] == x
      modifies this`index, this`count, this`ring, this`at, x`container, ring
      ensures Valid() && left == count && x.container == null && ring == Cut(old(ring), k)
      ensures at == (if old(at) < k then old(at) else old(at) - 1)
      ensures forall y :: y in old(ring) ==> y.value == old(y.value)
    {
      hide Linked, Cut, Lists.Distinct;
      ghost var r := ring;
      DistinctRing(r);
      DistinctIndices(r, k);
      Unlink(x, r, k);
      if index == x {
        index := x.previous;
      }
      CutDistinct(r, k);
      CutIndices(r, k, at);
      at := if at < k then at else at - 1;
      ring := Cut(r, k);
      assert index == ring[at] && x !in ring && Linked(ring);
      x.container := null;
      count := count - 1;
      left := count;
    }

    // listGET_OWNER_OF_NEXT_ENTRY: the walk goes round, item by item.
    method GetNext() returns (item: Item)
      requires Valid() && count > 0
      modifies this`index, this`at
      ensures Valid() && old(at) < |ring| && Walk(ring, old(at)) != []
      ensures item == Walk(ring, old(at))[0] && Walk(ring, at) == Walk(ring, old(at))[1..] + [item]
      ensures OwnersDiffer() ==>
        && !Turns.Empty(old(ReadyList())) && item.owner == Turns.Next(old(ReadyList()))
        && ReadyList() == Turns.Advanced(old(ReadyList()))
    {
      hide Lists.Distinct, FromIndex, Around, Slots, Walk;
      if OwnersDiffer() {
        ReadyAdvanced(ring, at);
      }
      AllLinks(ring);
      DistinctIndices(ring, 0);
      WalkOn(ring, at);
      index := index.next;
      at := After(at, |ring|);
      if index == end {
        index := index.next;
        at := After(at, |ring|);
      }
      item := index;
    }

    // The ring is the sequence `before` with x behind position k, which is where the values put it.
    ghost predicate InsertedAt(before: seq<Item>, k: nat, x: Item)
      requires k < |before|
      reads this, before, x
    {
      && ring == Spliced(before, k, x)
      && (forall i :: 1 <= i <= k ==> before[i].value <= x.value)
      && (forall i :: k < i < |before| ==> x.value < before[i].value)
    }
  }

  lemma WalkAfterInsert<T>(ring: seq<T>, at: nat, x: T)
    requires at < |ring|
    ensures var k := Before(at, |ring|);
            Walk(Spliced(ring, k, x), if at <= k then at else at + 1) ==
              if at == 0 then Walk(ring, at) + [x] else ring[at + 1..] + ring[1..at] + [x, ring[at]]
  {
    var r := Spliced(ring, Before(at, |ring|), x);
    if at == 0 {
      assert r == ring + [x];
      assert r[1..] == ring[1..] + [x];
    } else {
      assert r == ring[..at] + [x] + ring[at..];
      assert r[at + 2..] == ring[at + 1..] && r[1..at + 2] == ring[1..at] + [x, ring[at]];
    }
  }
}
