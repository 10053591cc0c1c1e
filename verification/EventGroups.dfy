/** Event groups (kernel/FreeRTOS/event_groups.c).  Every step below runs with the scheduler suspended
  * or in a critical section, so the steps of different tasks do not overlap.
  */
module EventGroups {
  import opened Lists
  import opened Words

  type Id = nat

  const CLEAR_EVENTS_ON_EXIT: Bits := 0x0100_0000
  const UNBLOCKED_DUE_TO_BIT_SET: Bits := 0x0200_0000
  const WAIT_FOR_ALL: Bits := 0x0400_0000
  const CONTROL: Bits := 0xff00_0000
  const IN_USE: Bits := 0x8000_0000       // taskEVENT_LIST_ITEM_VALUE_IN_USE

  // prvTestWaitCondition
  predicate TestWaitCondition(current: Bits, waitFor: Bits, waitForAll: bool) {
    if !waitForAll then Common(current, waitFor) != 0 else Common(current, waitFor) == waitFor
  }

  // What a caller of xEventGroupWaitBits waits for.
  datatype Wait = Wait(waitFor: Bits, clearOnExit: bool, waitForAll: bool)

  // Its condition, bit by bit: every bit that it waits for is an event bit, or some bit is.
  ghost predicate Met(w: Wait, bits: Bits) {
    if w.waitForAll then forall k :: Has(w.waitFor, k) ==> Has(bits, k)
    else exists k :: Has(w.waitFor, k) && Has(bits, k)
  }

  lemma TestIsMet(bits: Bits, w: Wait)
    ensures TestWaitCondition(bits, w.waitFor, w.waitForAll) <==> Met(w, bits)
  {
    hide Common, Has;
    WithinIsEveryBit(bits, w.waitFor);
    CommonIsSomeBit(bits, w.waitFor);
  }

  // What a task stores in its event list item when it blocks.
  function ItemValue(waitFor: Bits, clearOnExit: bool, waitForAll: bool): Bits {
    waitFor | (if clearOnExit then CLEAR_EVENTS_ON_EXIT else 0) | (if waitForAll then WAIT_FOR_ALL else 0) | IN_USE
  }

  // Whether xEventGroupSetBits finds that an item with this value matches.
  predicate Satisfied(value: Bits, bits: Bits) {
    TestWaitCondition(bits, value & !CONTROL, value & CONTROL & WAIT_FOR_ALL != 0)
  }

  // The bits that a waiter has cleared when it is woken.
  function Clears(value: Bits, bits: Bits): Bits {
    if Satisfied(value, bits) && value & CONTROL & CLEAR_EVENTS_ON_EXIT != 0 then value & !CONTROL else 0
  }

  // A waiter is judged as the task's own test would.
  lemma ItemKeepsCondition(waitFor: Bits, clearOnExit: bool, waitForAll: bool, bits: Bits)
    requires Common(waitFor, CONTROL) == 0
    ensures var value := ItemValue(waitFor, clearOnExit, waitForAll);
            && Satisfied(value, bits) == TestWaitCondition(bits, waitFor, waitForAll)
            && Clears(value, bits)
               == (if TestWaitCondition(bits, waitFor, waitForAll) && clearOnExit then waitFor else 0)
            && Common(value, UNBLOCKED_DUE_TO_BIT_SET) == 0
  {
    var value := ItemValue(waitFor, clearOnExit, waitForAll);
    ItemParts(waitFor, if clearOnExit then CLEAR_EVENTS_ON_EXIT else 0, if waitForAll then WAIT_FOR_ALL else 0);
  }

  lemma ItemParts(waitFor: Bits, c: Bits, a: Bits)
    requires waitFor & CONTROL == 0 && (c == 0 || c == CLEAR_EVENTS_ON_EXIT) && (a == 0 || a == WAIT_FOR_ALL)
    ensures var v := waitFor | c | a | IN_USE;
            && v & !CONTROL == waitFor && v & CONTROL & WAIT_FOR_ALL == a && v & CONTROL & CLEAR_EVENTS_ON_EXIT == c
            && v & UNBLOCKED_DUE_TO_BIT_SET == 0
  {
    ControlPart(waitFor, c, a);
    BitsPart(waitFor, c, a);
    UnblockedPart(waitFor, c, a);
    FlagParts(c, a);
  }

  lemma UnblockedPart(waitFor: Bits, c: Bits, a: Bits)
    requires waitFor & CONTROL == 0 && (c == 0 || c == CLEAR_EVENTS_ON_EXIT) && (a == 0 || a == WAIT_FOR_ALL)
    ensures (waitFor | c | a | IN_USE) & UNBLOCKED_DUE_TO_BIT_SET == 0
  {}

  lemma FlagParts(c: Bits, a: Bits)
    requires (c == 0 || c == CLEAR_EVENTS_ON_EXIT) && (a == 0 || a == WAIT_FOR_ALL)
    ensures (c | a | IN_USE) & WAIT_FOR_ALL == a && (c | a | IN_USE) & CLEAR_EVENTS_ON_EXIT == c
  {}

  lemma ControlPart(waitFor: Bits, c: Bits, a: Bits)
    requires waitFor & CONTROL == 0 && (c == 0 || c == CLEAR_EVENTS_ON_EXIT) && (a == 0 || a == WAIT_FOR_ALL)
    ensures (waitFor | c | a | IN_USE) & CONTROL == c | a | IN_USE
  {}

  lemma BitsPart(waitFor: Bits, c: Bits, a: Bits)
    requires waitFor & CONTROL == 0 && (c == 0 || c == CLEAR_EVENTS_ON_EXIT) && (a == 0 || a == WAIT_FOR_ALL)
    ensures (waitFor | c | a | IN_USE) & !CONTROL == waitFor
  {}

  // Clearing bits satisfies nobody.
  lemma SatisfiedIsMonotone(value: Bits, less: Bits, more: Bits)
    requires Common(less, more) == less && Satisfied(value, less)
    ensures Satisfied(value, more)
  {
    hide TestWaitCondition;
    TestIsMonotone(less, more, value & !CONTROL, value & CONTROL & WAIT_FOR_ALL != 0);
  }

  lemma TestIsMonotone(less: Bits, more: Bits, waitFor: Bits, waitForAll: bool)
    requires Common(less, more) == less && TestWaitCondition(less, waitFor, waitForAll)
    ensures TestWaitCondition(more, waitFor, waitForAll)
  {
    hide Common;
    if waitForAll {
      AllIsMonotone(less, more, waitFor);
    } else {
      AnyIsMonotone(less, more, waitFor);
    }
  }

  // ---------------------------------------------------------------- setting bits

  // What is left for a task that is woken because its condition is met.
  function Answer(bits: Bits): Bits { bits | UNBLOCKED_DUE_TO_BIT_SET | IN_USE }

  datatype State = State(bits: Bits, waiting: seq<Id>, items: map<Id, Bits>)

  function Value(items: map<Id, Bits>, x: Id): Bits { if x in items then items[x] else 0 }

  // The waiters that stay, in their order.
  function Staying(waiting: seq<Id>, items: map<Id, Bits>, bits: Bits): seq<Id> {
    if waiting == [] then [] else
      var last := waiting[|waiting| - 1];
      Staying(waiting[..|waiting| - 1], items, bits) + if Satisfied(Value(items, last), bits) then [] else [last]
  }

  // The union of what the woken waiters have cleared.
  function ClearUnion(waiting: seq<Id>, items: map<Id, Bits>, bits: Bits): Bits {
    if waiting == [] then 0 else
      Join(ClearUnion(waiting[..|waiting| - 1], items, bits), Clears(Value(items, waiting[|waiting| - 1]), bits))
  }

  // The items after the satisfied waiters have been given the bits they were woken with.
  function Answered(waiting: seq<Id>, items: map<Id, Bits>, bits: Bits): map<Id, Bits> {
    map x | x in items ::
      if x in waiting && Satisfied(items[x], bits) then Answer(bits) else items[x]
  }

  // xEventGroupSetBits: all waiters are judged on the same bits, and the union is cleared at the end.
  function AfterSetBits(s: State, bitsToSet: Bits): State {
    var bits := Join(s.bits, bitsToSet);
    State(Minus(bits, ClearUnion(s.waiting, s.items, bits)), Staying(s.waiting, s.items, bits),
          Answered(s.waiting, s.items, bits))
  }

  lemma {:induction false} StayingExactly(waiting: seq<Id>, items: map<Id, Bits>, bits: Bits)
    requires Distinct(waiting)
    ensures Distinct(Staying(waiting, items, bits))
    ensures forall x :: x in Staying(waiting, items, bits) <==> x in waiting && !Satisfied(Value(items, x), bits)
  {
    if waiting != [] {
      var n := |waiting| - 1;
      assert waiting == waiting[..n] + [waiting[n]];
      StayingExactly(waiting[..n], items, bits);
    }
  }

  ghost predicate NoneClears(waiting: seq<Id>, items: map<Id, Bits>, bits: Bits, mask: Bits) {
    forall x :: x in waiting ==> Common(Clears(Value(items, x), bits), mask) == 0
  }

  // A set of bits is clear of the union exactly if it is clear of what each woken waiter clears.
  lemma {:induction false} UnionExactly(waiting: seq<Id>, items: map<Id, Bits>, bits: Bits, mask: Bits)
    ensures Common(ClearUnion(waiting, items, bits), mask) == 0 <==> NoneClears(waiting, items, bits, mask)
  {
    hide Clears, Common, Join;
    if waiting == [] {
      ZeroIsClear(mask);
    } else {
      var n := |waiting| - 1;
      assert waiting == waiting[..n] + [waiting[n]];
      UnionExactly(waiting[..n], items, bits, mask);
      OrIsClear(ClearUnion(waiting[..n], items, bits), Clears(Value(items, waiting[n]), bits), mask);
    }
  }

  lemma SameUnion(waiting: seq<Id>, waiting': seq<Id>, items: map<Id, Bits>, bits: Bits)
    requires forall x :: x in waiting' <==> x in waiting
    ensures ClearUnion(waiting', items, bits) == ClearUnion(waiting, items, bits)
  {
    hide Clears, ClearUnion, Common, Others;
    var a, b := ClearUnion(waiting, items, bits), ClearUnion(waiting', items, bits);
    UnionWithin(waiting, waiting', items, bits, b);
    UnionWithin(waiting', waiting, items, bits, a);
    SameMasks(a, b);
  }

  lemma UnionWithin(waiting: seq<Id>, waiting': seq<Id>, items: map<Id, Bits>, bits: Bits, b: Bits)
    requires forall x :: x in waiting ==> x in waiting'
    requires b == ClearUnion(waiting', items, bits)
    ensures Common(ClearUnion(waiting, items, bits), Others(b)) == 0
  {
    hide Clears, ClearUnion, Common, Others;
    UnionExactly(waiting', items, bits, Others(b));
    MaskSelf(b);
    UnionExactly(waiting, items, bits, Others(b));
  }

  // The order of the wait list makes no difference to who is woken, with which bits, or to the bits
  // that are left.
  lemma OrderDoesNotMatter(s: State, s': State, bitsToSet: Bits)
    requires s'.bits == s.bits && s'.items == s.items && Distinct(s.waiting) && Distinct(s'.waiting)
    requires forall x :: x in s'.waiting <==> x in s.waiting
    ensures AfterSetBits(s', bitsToSet).bits == AfterSetBits(s, bitsToSet).bits
    ensures AfterSetBits(s', bitsToSet).items == AfterSetBits(s, bitsToSet).items
    ensures forall x :: x in AfterSetBits(s', bitsToSet).waiting <==> x in AfterSetBits(s, bitsToSet).waiting
  {
    hide Satisfied, Clears, ClearUnion, Staying, Join, Minus;
    var bits := Join(s.bits, bitsToSet);
    StayingExactly(s.waiting, s.items, bits);
    StayingExactly(s'.waiting, s.items, bits);
    SameUnion(s.waiting, s'.waiting, s.items, bits);
  }

  // ---------------------------------------------------------------- nobody is stranded

  // No waiting task has its condition met, and no waiting task has been answered.
  ghost predicate Valid(s: State) {
    && Distinct(s.waiting)
    && forall x :: x in s.waiting ==>
         x in s.items && !Satisfied(s.items[x], s.bits) && Common(s.items[x], UNBLOCKED_DUE_TO_BIT_SET) == 0
  }

  // Fewer bits satisfy fewer waiters.
  lemma ClearKeepsValid(s: State, bitsToClear: Bits)
    requires Valid(s)
    ensures Valid(s.(bits := Minus(s.bits, bitsToClear)))
  {
    hide Satisfied, Common, Minus;
    forall x | x in s.waiting ensures !Satisfied(s.items[x], Minus(s.bits, bitsToClear)) {
      if Satisfied(s.items[x], Minus(s.bits, bitsToClear)) {
        MinusIsLess(s.bits, bitsToClear);
        SatisfiedIsMonotone(s.items[x], Minus(s.bits, bitsToClear), s.bits);
      }
    }
  }

  // After bits have been set no task that still waits has its condition met; exactly the tasks whose
  // condition the old bits and the new ones together meet have been woken; all bits that a woken task
  // asked to have cleared are clear, and all bits that none of them did are as they were set.
  lemma SetBitsWakesExactly(s: State, bitsToSet: Bits)
    requires Distinct(s.waiting) && forall x :: x in s.waiting ==>
               x in s.items && Common(s.items[x], UNBLOCKED_DUE_TO_BIT_SET) == 0
    ensures var s' := AfterSetBits(s, bitsToSet);
            var bits := Join(s.bits, bitsToSet);
            && Valid(s')
            && (forall x :: x in s'.waiting <==> x in s.waiting && !Satisfied(s.items[x], bits))
            && (forall x :: x in s'.items <==> x in s.items)
            && (forall x :: x in s.items ==>
                 s'.items[x] == if x in s.waiting && Satisfied(s.items[x], bits) then Answer(bits) else s.items[x])
            && (forall x :: x in s.waiting ==> Common(s'.bits, Clears(s.items[x], bits)) == 0)
            && (forall mask :: NoneClears(s.waiting, s.items, bits, mask) ==>
                 Common(s'.bits, mask) == Common(bits, mask))
  {
    hide Satisfied, Common, Minus, Join, ClearUnion, Answer, Clears;
    var bits := Join(s.bits, bitsToSet);
    StayingExactly(s.waiting, s.items, bits);
    var t := State(bits, Staying(s.waiting, s.items, bits), Answered(s.waiting, s.items, bits));
    assert Valid(t);
    ClearKeepsValid(t, ClearUnion(s.waiting, s.items, bits));
    ClearsWhatWasAsked(s.waiting, s.items, bits);
  }

  lemma ClearsWhatWasAsked(waiting: seq<Id>, items: map<Id, Bits>, bits: Bits)
    ensures var left := Minus(bits, ClearUnion(waiting, items, bits));
            && (forall x :: x in waiting ==> Common(left, Clears(Value(items, x), bits)) == 0)
            && (forall mask :: NoneClears(waiting, items, bits, mask) ==> Common(left, mask) == Common(bits, mask))
  {
    hide Common, Minus, ClearUnion, Clears, Others;
    var all := ClearUnion(waiting, items, bits);
    forall mask | NoneClears(waiting, items, bits, mask) ensures Common(Minus(bits, all), mask) == Common(bits, mask) {
      UnionExactly(waiting, items, bits, mask);
      MinusKeeps(bits, all, mask);
    }
    MaskSelf(all);
    UnionExactly(waiting, items, bits, Others(all));
    forall x | x in waiting ensures Common(Minus(bits, all), Clears(Value(items, x), bits)) == 0 {
      MinusClears(bits, all, Clears(Value(items, x), bits));
    }
  }

  lemma BlockKeepsValid(s: State, id: Id, value: Bits)
    requires Valid(s) && id !in s.waiting && !Satisfied(value, s.bits) && Common(value, UNBLOCKED_DUE_TO_BIT_SET) == 0
    ensures Valid(State(s.bits, s.waiting + [id], s.items[id := value]))
  {
    hide Satisfied, Common;
  }

  lemma RemoveKeepsValid(s: State, id: Id)
    requires Valid(s)
    ensures Valid(s.(waiting := Remove(s.waiting, id)))
    ensures forall x :: x in Remove(s.waiting, id) <==> x in s.waiting && x != id
  {
    hide Satisfied, Common;
    RemoveOne(s.waiting, id);
  }

  // ---------------------------------------------------------------- the code

  // How a call ends: at once with some bits, or after the task has been blocked.
  datatype Outcome = Done(bits: Bits) | Blocked

  class EventGroup {
    var bits: Bits                  // uxEventBits
    var waiting: seq<Id>            // xTasksWaitingForBits
    var items: map<Id, Bits>        // the event list item values of the tasks

    function Contents(): State
      reads this
    {
      State(bits, waiting, items)
    }

    constructor ()
      ensures Valid(Contents()) && Contents() == State(0, [], map[])
    {
      bits, waiting, items := 0, [], map[];
    }

    // xEventGroupSetBits, up to the point where the scheduler is resumed.
    method SetBits(bitsToSet: Bits)
      requires Valid(Contents())
      modifies this
      ensures Valid(Contents())
      ensures Contents() == AfterSetBits(old(Contents()), bitsToSet)
    {
      hide Satisfied, Clears, Common, Minus, Join, Answer, Looked, Valid, Staying, ClearUnion, Answered;
      ghost var s := Contents();
      ValidParts(s);
      SetBitsWakesExactly(s, bitsToSet);
      bits := Join(bits, bitsToSet);
      var bitsToClear := 0;
      var i := 0;
      ghost var j := 0;
      LookedAtNone(s, bits);
      while i < |waiting|
        invariant bits == Join(s.bits, bitsToSet)
        invariant Looked(s, bits, j, waiting, items, bitsToClear, i)
        decreases |s.waiting| - j
      {
        var item := waiting[i];
        LookedAtOneMore(s, bits, j, waiting, items, bitsToClear, i);
        var waitedFor := items[item];
        bitsToClear := Join(bitsToClear, Clears(waitedFor, bits));
        if Satisfied(waitedFor, bits) {
          items := items[item := Answer(bits)];
          waiting := waiting[..i] + waiting[i + 1..];
        } else {
          i := i + 1;
        }
        j := j + 1;
      }
      LookedAtAll(s, bits, j, waiting, items, bitsToClear, i);
      bits := Minus(bits, bitsToClear);
    }

    // The value that xEventGroupSetBits returns is read after the scheduler has been resumed, when
    // other tasks may have changed the bits since.
    method SetBitsResult() returns (result: Bits)
      ensures result == bits
    {
      result := bits;
    }

    // xEventGroupClearBits
    method ClearBits(bitsToClear: Bits) returns (result: Bits)
      requires Valid(Contents())
      modifies this`bits
      ensures Valid(Contents()) && result == old(bits) && bits == Minus(old(bits), bitsToClear)
    {
      hide Minus, Valid;
      ClearKeepsValid(Contents(), bitsToClear);
      result := bits;
      bits := Minus(bits, bitsToClear);
    }

    // The block time of a waiting task ends: the kernel takes it off the list.
    method Expire(id: Id)
      requires Valid(Contents())
      modifies this`waiting
      ensures Valid(Contents()) && waiting == Remove(old(waiting), id)
    {
      hide Valid;
      RemoveKeepsValid(Contents(), id);
      waiting := Remove(waiting, id);
    }

    // xEventGroupWaitBits up to the point where the task may block.
    method WaitBits(id: Id, waitFor: Bits, clearOnExit: bool, waitForAll: bool, patient: bool) returns (o: Outcome)
      requires Valid(Contents()) && id !in waiting && Common(waitFor, CONTROL) == 0
      modifies this
      ensures Valid(Contents())
      ensures Met(Wait(waitFor, clearOnExit, waitForAll), old(bits)) ==>
        && o == Done(old(bits)) && bits == (if clearOnExit then Minus(old(bits), waitFor) else old(bits))
        && waiting == old(waiting) && items == old(items)
      ensures !Met(Wait(waitFor, clearOnExit, waitForAll), old(bits)) ==>
        && bits == old(bits)
        && (!patient ==> o == Done(bits) && waiting == old(waiting) && items == old(items))
        && (patient ==> o.Blocked? && waiting == old(waiting) + [id]
                        && items == old(items)[id := ItemValue(waitFor, clearOnExit, waitForAll)])
    {
      hide Valid, Satisfied, Minus, ItemValue, TestWaitCondition, Met;
      TestIsMet(bits, Wait(waitFor, clearOnExit, waitForAll));
      var current := bits;
      if TestWaitCondition(current, waitFor, waitForAll) {
        if clearOnExit {
          ClearKeepsValid(Contents(), waitFor);
          bits := Minus(bits, waitFor);
        }
        return Done(current);
      }
      if !patient {
        return Done(current);
      }
      ItemKeepsCondition(waitFor, clearOnExit, waitForAll, bits);
      BlockKeepsValid(Contents(), id, ItemValue(waitFor, clearOnExit, waitForAll));
      items := items[id := ItemValue(waitFor, clearOnExit, waitForAll)];
      waiting := waiting + [id];
      o := Blocked;
    }

    // The rest of xEventGroupWaitBits, after the task has been blocked.  A task whose time ran out
    // looks once more, for its condition may have been met since.
    method ResumeWaitBits(id: Id, waitFor: Bits, clearOnExit: bool, waitForAll: bool) returns (result: Bits)
      requires Valid(Contents()) && id !in waiting && id in items
      modifies this
      ensures Valid(Contents()) && waiting == old(waiting) && items == old(items)[id := 0]
      ensures Common(old(items[id]), UNBLOCKED_DUE_TO_BIT_SET) != 0 ==>
        result == Minus(old(items[id]), CONTROL) && bits == old(bits)
      ensures Common(old(items[id]), UNBLOCKED_DUE_TO_BIT_SET) == 0 ==>
        && result == Minus(old(bits), CONTROL)
        && bits == if Met(Wait(waitFor, clearOnExit, waitForAll), old(bits)) && clearOnExit
                   then Minus(old(bits), waitFor) else old(bits)
    {
      hide Valid, Minus, Common, TestWaitCondition, Met;
      TestIsMet(bits, Wait(waitFor, clearOnExit, waitForAll));
      result := items[id];
      ItemUnused(Contents(), id);
      items := items[id := 0];
      if Common(result, UNBLOCKED_DUE_TO_BIT_SET) == 0 {
        result := bits;
        if TestWaitCondition(result, waitFor, waitForAll) {
          if clearOnExit {
            ClearKeepsValid(Contents(), waitFor);
            bits := Minus(bits, waitFor);
          }
        }
      }
      result := Minus(result, CONTROL);
    }

    // xEventGroupSync up to the point where the task may block.
    method Sync(id: Id, bitsToSet: Bits, waitFor: Bits, patient: bool) returns (o: Outcome)
      requires Valid(Contents()) && id !in waiting && Common(waitFor, CONTROL) == 0
      modifies this
      ensures Valid(Contents())
      ensures var s := old(Contents());
              && (patient || Complete(s, bitsToSet, waitFor) ==>
                    (Contents(), o) == AfterSync(s, id, bitsToSet, waitFor))
              && (!patient && !Complete(s, bitsToSet, waitFor) ==>
                    Contents() == AfterSetBits(s, bitsToSet) && o == Done(bits))
    {
      hide Valid, Satisfied, Minus, ItemValue, Join, Staying, Answered, ClearUnion, CONTROL;
      ghost var s := Contents();
      var original := bits;
      SyncKeepsValid(s, id, bitsToSet, waitFor);
      SetBits(bitsToSet);
      if Common(Join(original, bitsToSet), waitFor) == waitFor {
        bits := Minus(bits, waitFor);
        return Done(Join(original, bitsToSet));
      }
      if !patient {
        return Done(bits);
      }
      items := items[id := ItemValue(waitFor, true, true)];
      waiting := waiting + [id];
      o := Blocked;
    }

    // The rest of xEventGroupSync, after the task has been blocked.
    method ResumeSync(id: Id, waitFor: Bits) returns (result: Bits)
      requires Valid(Contents()) && id !in waiting && id in items
      modifies this
      ensures Valid(Contents()) && waiting == old(waiting) && items == old(items)[id := 0]
      ensures Common(old(items[id]), UNBLOCKED_DUE_TO_BIT_SET) != 0 ==>
        result == Minus(old(items[id]), CONTROL) && bits == old(bits)
      ensures Common(old(items[id]), UNBLOCKED_DUE_TO_BIT_SET) == 0 ==>
        && result == Minus(old(bits), CONTROL)
        && bits == if Common(old(bits), waitFor) == waitFor then Minus(old(bits), waitFor) else old(bits)
    {
      hide Valid, Minus, Common, CONTROL;
      result := items[id];
      ItemUnused(Contents(), id);
      items := items[id := 0];
      if Common(result, UNBLOCKED_DUE_TO_BIT_SET) == 0 {
        result := bits;
        if Common(result, waitFor) == waitFor {
          ClearKeepsValid(Contents(), waitFor);
          bits := Minus(bits, waitFor);
        }
      }
      result := Minus(result, CONTROL);
    }
  }

  // The item of a task that does not wait is nobody's business.
  lemma ItemUnused(s: State, id: Id)
    requires Valid(s) && id !in s.waiting
    ensures Valid(s.(items := s.items[id := 0]))
  {
    hide Satisfied, Common;
  }

  // All rendezvous bits are set, by earlier callers and this one together.
  predicate Complete(s: State, bitsToSet: Bits, waitFor: Bits) {
    Common(Join(s.bits, bitsToSet), waitFor) == waitFor
  }

  // xEventGroupSync with time to wait.
  function AfterSync(s: State, id: Id, bitsToSet: Bits, waitFor: Bits): (State, Outcome) {
    var t := AfterSetBits(s, bitsToSet);
    if Complete(s, bitsToSet, waitFor) then (t.(bits := Minus(t.bits, waitFor)), Done(Join(s.bits, bitsToSet)))
    else (State(t.bits, t.waiting + [id], t.items[id := ItemValue(waitFor, true, true)]), Blocked)
  }

  lemma SyncKeepsValid(s: State, id: Id, bitsToSet: Bits, waitFor: Bits)
    requires Valid(s) && id !in s.waiting && Common(waitFor, CONTROL) == 0
    ensures Valid(AfterSetBits(s, bitsToSet)) && Valid(AfterSync(s, id, bitsToSet, waitFor).0)
  {
    hide Valid, Satisfied, Minus, ItemValue, Join, Staying, Answered, ClearUnion, Common, CONTROL;
    ValidParts(s);
    SetBitsWakesExactly(s, bitsToSet);
    var t := AfterSetBits(s, bitsToSet);
    if Complete(s, bitsToSet, waitFor) {
      ClearKeepsValid(t, waitFor);
    } else {
      NotSatisfied(s, bitsToSet, waitFor);
      BlockKeepsValid(t, id, ItemValue(waitFor, true, true));
    }
  }

  lemma ValidParts(s: State)
    requires Valid(s)
    ensures Distinct(s.waiting)
    ensures forall x :: x in s.waiting ==> x in s.items && Common(s.items[x], UNBLOCKED_DUE_TO_BIT_SET) == 0
  {}

  // A task that has to wait in xEventGroupSync is not one whose bits are all there, even after some
  // bits have been cleared again.
  lemma NotSatisfied(s: State, bitsToSet: Bits, waitFor: Bits)
    requires !Complete(s, bitsToSet, waitFor) && Common(waitFor, CONTROL) == 0
    ensures var value := ItemValue(waitFor, true, true);
            !Satisfied(value, AfterSetBits(s, bitsToSet).bits) && Common(value, UNBLOCKED_DUE_TO_BIT_SET) == 0
  {
    hide Satisfied, Minus, ItemValue, Join, ClearUnion;
    var bits := Join(s.bits, bitsToSet);
    var less := Minus(bits, ClearUnion(s.waiting, s.items, bits));
    ItemKeepsCondition(waitFor, true, true, bits);
    MinusIsLess(bits, ClearUnion(s.waiting, s.items, bits));
    if Satisfied(ItemValue(waitFor, true, true), less) {
      SatisfiedIsMonotone(ItemValue(waitFor, true, true), less, bits);
    }
  }

  // The loop of xEventGroupSetBits has looked at the first j waiters; the next one to look at is at
  // position i of the list as it is now.
  ghost predicate Looked(s: State, bits: Bits, j: nat, waiting: seq<Id>, items: map<Id, Bits>, clear: Bits, i: nat) {
    && j <= |s.waiting| && i == |Staying(s.waiting[..j], s.items, bits)|
    && waiting == Staying(s.waiting[..j], s.items, bits) + s.waiting[j..]
    && items == Answered(s.waiting[..j], s.items, bits)
    && clear == ClearUnion(s.waiting[..j], s.items, bits)
  }

  lemma LookedAtNone(s: State, bits: Bits)
    ensures Looked(s, bits, 0, s.waiting, s.items, 0, 0)
  {
    assert s.items == Answered([], s.items, bits);
  }

  lemma LookedAtAll(s: State, bits: Bits, j: nat, waiting: seq<Id>, items: map<Id, Bits>, clear: Bits, i: nat)
    requires Looked(s, bits, j, waiting, items, clear, i) && i >= |waiting|
    ensures waiting == Staying(s.waiting, s.items, bits) && items == Answered(s.waiting, s.items, bits)
    ensures clear == ClearUnion(s.waiting, s.items, bits)
  {
    assert s.waiting[..j] == s.waiting && s.waiting[j..] == [];
  }

  lemma LookedAtOneMore(s: State, bits: Bits, j: nat, waiting: seq<Id>, items: map<Id, Bits>, clear: Bits, i: nat)
    requires Valid(s) && Looked(s, bits, j, waiting, items, clear, i) && i < |waiting|
    ensures j < |s.waiting| && waiting[i] in items
    ensures var value := items[waiting[i]];
            var on := Satisfied(value, bits);
            Looked(s, bits, j + 1,
                   if on then waiting[..i] + waiting[i + 1..] else waiting,
                   if on then items[waiting[i] := Answer(bits)] else items,
                   Join(clear, Clears(value, bits)), if on then i else i + 1)
  {
    hide Satisfied, Clears, Join, Answer, Answered, Common, Staying, ClearUnion;
    var before := Staying(s.waiting[..j], s.items, bits);
    NextOf(before, s.waiting, j, waiting);
    AnsweredNext(s, bits, j);
    StayingNext(s, bits, j);
  }

  lemma NextOf(before: seq<Id>, all: seq<Id>, j: nat, waiting: seq<Id>)
    requires j <= |all| && waiting == before + all[j..] && |before| < |waiting|
    ensures j < |all| && waiting[|before|] == all[j]
    ensures waiting[..|before|] + waiting[|before| + 1..] == before + all[j + 1..]
    ensures waiting == (before + [all[j]]) + all[j + 1..]
  {}

  lemma StayingNext(s: State, bits: Bits, j: nat)
    requires Valid(s) && j < |s.waiting|
    ensures var x := s.waiting[j]; var before, after := s.waiting[..j], s.waiting[..j + 1];
            && x in s.items
            && Staying(after, s.items, bits) ==
                 Staying(before, s.items, bits) + (if Satisfied(s.items[x], bits) then [] else [x])
            && ClearUnion(after, s.items, bits) == Join(ClearUnion(before, s.items, bits), Clears(s.items[x], bits))
  {
    hide Satisfied, Clears, Join, Common;
    var x := s.waiting[j];
    assert x in s.waiting;
    var before, after := s.waiting[..j], s.waiting[..j + 1];
    assert after[..|after| - 1] == before && after[|after| - 1] == x;
  }

  lemma AnsweredNext(s: State, bits: Bits, j: nat)
    requires Valid(s) && j < |s.waiting|
    ensures var x := s.waiting[j]; var before := Answered(s.waiting[..j], s.items, bits);
            && x in s.items && x in before && before[x] == s.items[x]
            && Answered(s.waiting[..j + 1], s.items, bits) ==
                 if Satisfied(s.items[x], bits) then before[x := Answer(bits)] else before
  {
    hide Satisfied, Answer, Common;
    var x := s.waiting[j];
    assert x in s.waiting;
    var head := s.waiting[..j];
    assert x !in head && s.waiting[..j + 1] == head + [x];
    hide Valid;
    OneMoreAnswered(head, x, s.items, bits);
  }

  lemma OneMoreAnswered(head: seq<Id>, x: Id, items: map<Id, Bits>, bits: Bits)
    requires x !in head && x in items
    ensures var before := Answered(head, items, bits);
            && before[x] == items[x]
            && Answered(head + [x], items, bits) ==
                 if Satisfied(items[x], bits) then before[x := Answer(bits)] else before
  {
    hide Satisfied, Answer;
    assert forall y :: y in head + [x] <==> y in head || y == x;
  }
}
