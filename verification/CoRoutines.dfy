/** The co-routine scheduler (kernel/FreeRTOS/croutine.c): ready lists by priority, two delay lists
  * over the wrapping co-routine tick count, and the list that interrupts use to ready a co-routine.
  */
module CoRoutines {
  import opened Wrappers
  import opened Lists
  import opened Ticks
  import Turns

  type Id = nat

  // The list that holds a co-routine's event list item.
  datatype Container = NoList | OnEventList | OnPendingList

  // `due` is the unbounded time behind the value of the generic list item; no decision depends on it.
  datatype Routine = Routine(priority: nat, itemValue: nat, due: nat, container: Container)

  datatype State = State(
    clock: nat,                  // the unbounded time behind xCoRoutineTickCount
    delayed: seq<Id>,            // *pxDelayedCoRoutineList
    overflow: seq<Id>,           // *pxOverflowDelayedCoRoutineList
    ready: seq<Turns.ReadyList>, // pxReadyCoRoutineLists
    top: nat,                    // uxTopCoRoutineReadyPriority
    pending: seq<Id>,            // xPendingReadyCoRoutineList
    routines: map<Id, Routine>)

  function Due(routines: map<Id, Routine>): Id -> nat {
    x => if x in routines then routines[x].due else 0
  }

  function ItemValue(routines: map<Id, Routine>): Id -> nat {
    x => if x in routines then routines[x].itemValue else 0
  }

  predicate OnDelayList(s: State, x: Id) { x in s.delayed || x in s.overflow }

  predicate IsReady(s: State, x: Id)
  {
    x in s.routines && s.routines[x].priority < |s.ready| && Turns.Has(s.ready[s.routines[x].priority], x)
  }

  // ---------------------------------------------------------------- what the scheduler does, over unbounded time

  // prvAddCoRoutineToReadyQueue
  function AddToReady(s: State, x: Id): State
    requires x in s.routines && s.routines[x].priority < |s.ready|
  {
    var p := s.routines[x].priority;
    s.(ready := s.ready[p := Turns.Joined(s.ready[p], x)], top := if p > s.top then p else s.top)
  }

  // vCoRoutineAddToDelayedList for the running co-routine x, and the delay of d ticks
  function Delayed(s: State, x: Id, d: nat, onEvent: bool): State
    requires x in s.routines && s.routines[x].priority < |s.ready|
  {
    var r := s.routines[x];
    var due := s.clock + d;
    var routines := s.routines[x := Routine(r.priority, Tick(due), due, if onEvent then OnEventList else r.container)];
    var t := s.(ready := s.ready[r.priority := Turns.Left(s.ready[r.priority], x)], routines := routines);
    if Epoch(due) == Epoch(s.clock) then t.(delayed := Insert(s.delayed, x, Due(routines)))
    else t.(overflow := Insert(s.overflow, x, Due(routines)))
  }

  // xCoRoutineRemoveFromEventList, called by an interrupt for the head x of an event list
  function Signalled(s: State, x: Id): State
    requires x in s.routines
  {
    s.(pending := s.pending + [x], routines := s.routines[x := s.routines[x].(container := OnPendingList)])
  }

  // The critical section of prvCheckPendingReadyList
  function Taken(s: State): State
    requires s.pending != [] && s.pending[0] in s.routines
  {
    var x := s.pending[0];
    s.(pending := s.pending[1..], routines := s.routines[x := s.routines[x].(container := NoList)])
  }

  // The rest of a round of its loop, for the co-routine x that has been taken off the pending list
  function Readied(s: State, x: Id): State
    requires x in s.routines && s.routines[x].priority < |s.ready|
  {
    AddToReady(s.(delayed := Remove(s.delayed, x), overflow := Remove(s.overflow, x)), x)
  }

  // One round of the loop in prvCheckPendingReadyList
  function MovePending(s: State): State
    requires s.pending != [] && s.pending[0] in s.routines && s.routines[s.pending[0]].priority < |s.ready|
  {
    Readied(Taken(s), s.pending[0])
  }

  // One round of the inner loop in prvCheckDelayedList
  function Expired(s: State): State
    requires s.delayed != [] && s.delayed[0] in s.routines && s.routines[s.delayed[0]].priority < |s.ready|
  {
    var x := s.delayed[0];
    var routines := s.routines[x := s.routines[x].(container := NoList)];
    AddToReady(s.(delayed := s.delayed[1..], pending := Remove(s.pending, x), routines := routines), x)
  }

  // The tick count goes up by one, and the delay lists are swapped if it wraps.
  function NextTick(s: State): State {
    var t := s.(clock := s.clock + 1);
    if Tick(s.clock + 1) == 0 then t.(delayed := s.overflow, overflow := s.delayed) else t
  }

  // ---------------------------------------------------------------- invariants

  // The co-routines on a delay list are due in its epoch, and not before time `low`.
  ghost predicate DelayListOk(routines: map<Id, Routine>, list: seq<Id>, epoch: nat, low: nat) {
    && Distinct(list) && Sorted(list, Due(routines))
    && forall x :: x in list ==>
         x in routines && routines[x].itemValue == Tick(routines[x].due)
         && Epoch(routines[x].due) == epoch && low <= routines[x].due
  }

  // The generic list item of co-routine x is on exactly one list: its ready list or one of the delay
  // lists; only a delayed co-routine waits for an event, and only one that does is pending.
  ghost predicate RoutineOk(s: State, x: Id) {
    && (x in s.routines ==> s.routines[x].priority < |s.ready| && (IsReady(s, x) <==> !OnDelayList(s, x)))
    && !(x in s.delayed && x in s.overflow)
    && (OnDelayList(s, x) ==> x in s.routines)
    && (x in s.routines && s.routines[x].container != NoList ==> OnDelayList(s, x))
    && (x in s.pending <==> x in s.routines && s.routines[x].container == OnPendingList)
    && (forall p: nat :: p < |s.ready| && Turns.Has(s.ready[p], x) ==> x in s.routines && s.routines[x].priority == p)
  }

  // Nothing is due before `low`, which is the next tick whenever the scheduler is not at work.
  ghost predicate ListsOk(s: State, low: nat) {
    && DelayListOk(s.routines, s.delayed, Epoch(s.clock), low)
    && DelayListOk(s.routines, s.overflow, Epoch(s.clock) + 1, low)
  }

  ghost predicate RoutinesOk(s: State) {
    Distinct(s.pending) && forall x :: RoutineOk(s, x)
  }

  // No ready co-routine has a priority above the one the scheduler starts to look at.
  ghost predicate TopOk(s: State) {
    s.top < |s.ready| && forall p: nat :: s.top < p < |s.ready| ==> Turns.Empty(s.ready[p])
  }

  ghost predicate Inv(s: State, low: nat) {
    ListsOk(s, low) && RoutinesOk(s) && TopOk(s)
  }

  lemma DelayListFrame(routines: map<Id, Routine>, routines': map<Id, Routine>, list: seq<Id>, epoch: nat, low: nat)
    requires DelayListOk(routines, list, epoch, low)
    requires forall x :: x in list && x in routines ==>
      x in routines' && routines'[x].due == routines[x].due && routines'[x].itemValue == routines[x].itemValue
    ensures DelayListOk(routines', list, epoch, low)
  {}

  lemma DelayListInserted(routines: map<Id, Routine>, list: seq<Id>, epoch: nat, low: nat, x: Id)
    requires DelayListOk(routines, list, epoch, low) && x !in list
    requires x in routines && routines[x].itemValue == Tick(routines[x].due)
    requires Epoch(routines[x].due) == epoch && low <= routines[x].due
    ensures DelayListOk(routines, Insert(list, x, Due(routines)), epoch, low)
    ensures forall y :: y in Insert(list, x, Due(routines)) <==> y in list || y == x
    ensures Insert(list, x, ItemValue(routines)) == Insert(list, x, Due(routines))
  {
    InsertOne(list, x, Due(routines));
    InsertKeepsSorted(list, x, Due(routines));
    InsertSameOrder(list, x, ItemValue(routines), Due(routines));
  }

  lemma DelayListRemoved(routines: map<Id, Routine>, list: seq<Id>, epoch: nat, low: nat, x: Id)
    requires DelayListOk(routines, list, epoch, low)
    ensures DelayListOk(routines, Remove(list, x), epoch, low)
    ensures forall y :: y in Remove(list, x) <==> y in list && y != x
  {
    RemoveOne(list, x);
    RemoveKeepsSorted(list, x, Due(routines));
  }

  // A delay of less than 2^32 ticks ends in this epoch or the next, and the wrapped comparison tells
  // which.
  lemma DelayFits(clock: nat, d: nat)
    requires d < TICKS
    ensures (Tick(clock + d) < Tick(clock) <==> Epoch(clock + d) != Epoch(clock))
    ensures Epoch(clock + d) == Epoch(clock) || Epoch(clock + d) == Epoch(clock) + 1
  {
    Advance(clock, d);
  }

  // The next time that a co-routine delayed by d ticks may be due at.
  function Soonest(s: State, d: nat): nat { if d > 0 then s.clock + 1 else s.clock }

  lemma EarlierBound(s: State, low: nat, low': nat)
    requires ListsOk(s, low) && low' <= low
    ensures ListsOk(s, low')
  {}

  lemma DelayedLists(s: State, x: Id, d: nat, onEvent: bool)
    requires ListsOk(s, s.clock + 1) && RoutineOk(s, x) && IsReady(s, x) && d < TICKS
    ensures var t := Delayed(s, x, d, onEvent);
            && ListsOk(t, Soonest(s, d))
            && (forall y :: y in t.delayed <==> y in s.delayed || (y == x && Epoch(s.clock + d) == Epoch(s.clock)))
            && (forall y :: y in t.overflow <==> y in s.overflow || (y == x && Epoch(s.clock + d) != Epoch(s.clock)))
  {
    hide DelayListOk, Insert, Epoch, Tick, RoutineOk, IsReady, Due, ItemValue;
    DelayFits(s.clock, d);
    NotDelayed(s, x);
    var t, low := Delayed(s, x, d, onEvent), Soonest(s, d);
    EarlierBound(s, s.clock + 1, low);
    OtherRoutines(s.routines, t.routines, x, s.delayed, Epoch(s.clock), low);
    OtherRoutines(s.routines, t.routines, x, s.overflow, Epoch(s.clock) + 1, low);
    if Epoch(s.clock + d) == Epoch(s.clock) {
      DelayListInserted(t.routines, s.delayed, Epoch(s.clock), low, x);
    } else {
      DelayListInserted(t.routines, s.overflow, Epoch(s.clock) + 1, low, x);
    }
  }

  lemma NotDelayed(s: State, x: Id)
    requires RoutineOk(s, x) && IsReady(s, x)
    ensures x !in s.delayed && x !in s.overflow && x in s.routines && s.routines[x].priority < |s.ready|
  {}

  lemma OtherRoutines(routines: map<Id, Routine>, routines': map<Id, Routine>, x: Id, list: seq<Id>, epoch: nat,
            low: nat)
    requires DelayListOk(routines, list, epoch, low) && x !in list
    requires x in routines' && routines' == routines[x := routines'[x]]
    ensures DelayListOk(routines', list, epoch, low)
  {
    DelayListFrame(routines, routines', list, epoch, low);
  }

  lemma DelayKeepsInv(s: State, x: Id, d: nat, onEvent: bool)
    requires Inv(s, s.clock + 1) && IsReady(s, x) && d < TICKS
    ensures var t := Delayed(s, x, d, onEvent);
            && Inv(t, Soonest(s, d)) && t.clock == s.clock
            && OnDelayList(t, x) && t.routines[x].due == s.clock + d
            && forall y :: y != x ==> (OnDelayList(t, y) <==> OnDelayList(s, y))
  {
    hide ListsOk, Insert, Epoch, Tick;
    assert RoutineOk(s, x);
    DelayedLists(s, x, d, onEvent);
    var t := Delayed(s, x, d, onEvent);
    forall y ensures RoutineOk(t, y) {
      assert RoutineOk(s, y);
      if y != x {
        assert y in t.delayed <==> y in s.delayed;
        assert y in t.overflow <==> y in s.overflow;
      }
    }
  }

  lemma SignalKeepsInv(s: State, x: Id, low: nat)
    requires Inv(s, low) && x in s.routines && s.routines[x].container == OnEventList
    ensures Inv(Signalled(s, x), low)
  {
    hide DelayListOk, Epoch, Tick;
    var t := Signalled(s, x);
    DelayListFrame(s.routines, t.routines, s.delayed, Epoch(s.clock), low);
    DelayListFrame(s.routines, t.routines, s.overflow, Epoch(s.clock) + 1, low);
    assert RoutineOk(s, x);
    forall y ensures RoutineOk(t, y) {
      assert RoutineOk(s, y);
    }
  }

  lemma ReadiedLists(s: State, x: Id, low: nat)
    requires ListsOk(s, low) && x in s.routines
    ensures ListsOk(s.(routines := s.routines[x := s.routines[x].(container := NoList)],
                       delayed := Remove(s.delayed, x), overflow := Remove(s.overflow, x)), low)
    ensures forall y :: y in Remove(s.delayed, x) <==> y in s.delayed && y != x
    ensures forall y :: y in Remove(s.overflow, x) <==> y in s.overflow && y != x
  {
    hide DelayListOk, Epoch, Tick;
    var routines := s.routines[x := s.routines[x].(container := NoList)];
    DelayListRemoved(s.routines, s.delayed, Epoch(s.clock), low, x);
    DelayListRemoved(s.routines, s.overflow, Epoch(s.clock) + 1, low, x);
    DelayListFrame(s.routines, routines, Remove(s.delayed, x), Epoch(s.clock), low);
    DelayListFrame(s.routines, routines, Remove(s.overflow, x), Epoch(s.clock) + 1, low);
  }

  // A co-routine that leaves its delay list, and the pending list if it is on that, is ready.
  lemma ReadiedKeepsInv(s: State, x: Id, pending: seq<Id>, low: nat)
    requires Inv(s, low) && OnDelayList(s, x) && x in s.routines && s.routines[x].priority < |s.ready|
    requires Distinct(pending) && forall y :: y in pending <==> y in s.pending && y != x
    ensures var t := AddToReady(s.(pending := pending, routines := s.routines[x := s.routines[x].(container := NoList)],
                                   delayed := Remove(s.delayed, x), overflow := Remove(s.overflow, x)), x);
            && Inv(t, low) && IsReady(t, x) && t.clock == s.clock
            && forall y :: y != x ==> RoutineOk(s, y) && SamePlace(s, t, y)
  {
    hide ListsOk, Epoch, Tick, Turns.Joined, Turns.Has, Turns.Empty;
    ReadiedLists(s, x, low);
    var u := s.(pending := pending, routines := s.routines[x := s.routines[x].(container := NoList)],
                delayed := Remove(s.delayed, x), overflow := Remove(s.overflow, x));
    var t := AddToReady(u, x);
    assert RoutineOk(s, x);
    forall y ensures RoutineOk(t, y) && (y != x ==> RoutineOk(s, y) && SamePlace(s, t, y)) {
      assert RoutineOk(s, y);
      assert y in t.delayed <==> y in s.delayed && y != x;
      assert y in t.overflow <==> y in s.overflow && y != x;
    }
    SameLists(s.(routines := u.routines, delayed := u.delayed, overflow := u.overflow), t, low);
  }

  lemma SameLists(s: State, t: State, low: nat)
    requires t.clock == s.clock && t.delayed == s.delayed && t.overflow == s.overflow && t.routines == s.routines
    ensures ListsOk(t, low) <==> ListsOk(s, low)
  {}

  predicate SamePlace(s: State, t: State, y: Id) {
    && (y in t.routines <==> y in s.routines) && (y in s.routines ==> t.routines[y] == s.routines[y])
    && (y in t.delayed <==> y in s.delayed) && (y in t.overflow <==> y in s.overflow)
    && (IsReady(t, y) <==> IsReady(s, y))
  }

  lemma MovePendingKeepsInv(s: State, low: nat)
    requires Inv(s, low) && s.pending != []
    ensures var x := s.pending[0];
            && x in s.routines && s.routines[x].priority < |s.ready|
            && Inv(MovePending(s), low) && IsReady(MovePending(s), x)
            && forall y :: y != x ==> SamePlace(s, MovePending(s), y)
  {
    hide ListsOk, AddToReady;
    var x := s.pending[0];
    assert RoutineOk(s, x);
    SplitDistinct(s.pending, 1);
    assert s.pending[..1] == [x];
    ReadiedKeepsInv(s, x, s.pending[1..], low);
  }

  lemma ExpiredKeepsInv(s: State, low: nat)
    requires Inv(s, low) && s.delayed != []
    ensures var x := s.delayed[0];
            && x in s.routines && s.routines[x].priority < |s.ready|
            && Inv(Expired(s), low) && IsReady(Expired(s), x)
            && forall y :: y != x ==> SamePlace(s, Expired(s), y)
  {
    hide ListsOk, AddToReady;
    var x := s.delayed[0];
    assert x in s.delayed;
    assert RoutineOk(s, x);
    RemoveOne(s.pending, x);
    RemoveAbsent(s.overflow, x);
    ReadiedKeepsInv(s, x, Remove(s.pending, x), low);
  }

  // ---------------------------------------------------------------- ticks

  // When the lists are swapped the list of the epoch that ends is empty.
  lemma NextTickKeepsInv(s: State)
    requires Inv(s, s.clock + 1)
    ensures Inv(NextTick(s), s.clock + 1)
    ensures Tick(s.clock + 1) == 0 ==> s.delayed == []
    ensures forall y :: OnDelayList(NextTick(s), y) <==> OnDelayList(s, y)
  {
    hide Insert, ListsOk, Tick, Epoch;
    var t := NextTick(s);
    ListsAfterTick(s);
    forall y ensures RoutineOk(t, y) {
      assert RoutineOk(s, y);
    }
  }

  lemma EmptyAtSwap(s: State)
    requires ListsOk(s, s.clock + 1) && Tick(s.clock + 1) == 0
    ensures s.delayed == []
  {
    TickBoundary(s.clock);
    if s.delayed != [] {
      HeadInEpoch(s);
    }
  }

  lemma HeadInEpoch(s: State)
    requires ListsOk(s, s.clock + 1) && s.delayed != []
    ensures Epoch(Due(s.routines)(s.delayed[0])) == Epoch(s.clock)
    ensures s.clock + 1 <= Due(s.routines)(s.delayed[0])
  {
    assert s.delayed[0] in s.delayed;
  }

  lemma ListsAfterTick(s: State)
    requires ListsOk(s, s.clock + 1)
    ensures ListsOk(NextTick(s), s.clock + 1)
    ensures Tick(s.clock + 1) == 0 ==> s.delayed == []
  {
    hide DelayListOk, Tick, Epoch;
    TickBoundary(s.clock);
    if Tick(s.clock + 1) == 0 {
      EmptyAtSwap(s);
      EmptyListOk(s.routines, Epoch(s.clock + 1) + 1, s.clock + 1);
    }
  }

  lemma EmptyListOk(routines: map<Id, Routine>, epoch: nat, low: nat)
    ensures DelayListOk(routines, [], epoch, low)
  {}

  lemma TickBoundary(t: nat)
    ensures if Tick(t + 1) == 0 then Epoch(t + 1) == Epoch(t) + 1 else Epoch(t + 1) == Epoch(t)
  {
    Advance(t, 1);
  }

  // The inner loop of prvCheckDelayedList: everything that is due is readied.
  ghost function ExpireAll(s: State): State
    requires Inv(s, s.clock)
    decreases |s.delayed|
  {
    if s.delayed == [] || s.clock < Due(s.routines)(s.delayed[0]) then s else
      ExpiredKeepsInv(s, s.clock);
      ExpireAll(Expired(s))
  }

  // One tick, as prvCheckDelayedList processes it.
  ghost function Ticked(s: State): State
    requires Inv(s, s.clock + 1)
  {
    NextTickKeepsInv(s);
    ExpireAll(NextTick(s))
  }

  // The co-routines that are due now are ready afterwards; the others stay where they are.
  ghost predicate ExpiredExactly(s: State, t: State, x: Id) {
    if OnDelayList(s, x) && Due(s.routines)(x) == s.clock then IsReady(t, x) else SamePlace(s, t, x)
  }

  lemma HeadDue(s: State)
    requires ListsOk(s, s.clock) && s.delayed != []
    ensures s.delayed[0] in s.routines && s.clock <= Due(s.routines)(s.delayed[0])
    ensures s.clock < Due(s.routines)(s.delayed[0]) ==> ListsOk(s, s.clock + 1)
    ensures Epoch(s.routines[s.delayed[0]].due) == Epoch(s.clock)
    ensures s.routines[s.delayed[0]].itemValue == Tick(s.routines[s.delayed[0]].due)
  {
    assert s.delayed[0] in s.delayed;
    HeadIsLeast(s.delayed, Due(s.routines));
    forall x | x in s.delayed ensures Due(s.routines)(s.delayed[0]) <= s.routines[x].due {
      assert Due(s.routines)(s.delayed[0]) <= Due(s.routines)(x);
    }
    OverflowLater(s);
  }

  lemma OverflowLater(s: State)
    requires ListsOk(s, s.clock)
    ensures forall x :: x in s.overflow ==> x in s.routines && s.clock < s.routines[x].due
    ensures s.delayed == [] ==> ListsOk(s, s.clock + 1)
  {
    forall x | x in s.overflow ensures x in s.routines && s.clock < s.routines[x].due {
      EpochLater(s.clock, s.routines[x].due);
    }
  }

  lemma EpochLater(t: nat, due: nat)
    requires Epoch(t) < Epoch(due)
    ensures t < due
  {}

  lemma {:induction false} ExpireAllIsExact(s: State)
    requires Inv(s, s.clock)
    ensures var t := ExpireAll(s);
            && Inv(t, t.clock + 1) && t.clock == s.clock
            && forall x :: ExpiredExactly(s, t, x)
    decreases |s.delayed|
  {
    hide ListsOk, Expired, RoutinesOk, TopOk, Epoch;
    var t := ExpireAll(s);
    if s.delayed == [] {
      OverflowLater(s);
      NothingExpired(s);
    } else {
      HeadDue(s);
      if s.clock < Due(s.routines)(s.delayed[0]) {
        NothingExpired(s);
      } else {
        ExpiredKeepsInv(s, s.clock);
        var x0, u := s.delayed[0], Expired(s);
        ClockKept(s);
        ExpireAllIsExact(u);
        forall x ensures ExpiredExactly(s, t, x) {
          assert ExpiredExactly(u, t, x);
          if x == x0 {
            ReadyIsNotDelayed(u, x);
          } else {
            assert SamePlace(s, u, x);
          }
        }
      }
    }
  }

  lemma ClockKept(s: State)
    requires s.delayed != [] && s.delayed[0] in s.routines && s.routines[s.delayed[0]].priority < |s.ready|
    ensures Expired(s).clock == s.clock && |Expired(s).delayed| < |s.delayed|
  {}

  lemma ReadyIsNotDelayed(s: State, x: Id)
    requires RoutinesOk(s) && IsReady(s, x)
    ensures !OnDelayList(s, x)
  {
    assert RoutineOk(s, x);
  }

  lemma NothingExpired(s: State)
    requires ListsOk(s, s.clock + 1)
    ensures forall x :: ExpiredExactly(s, s, x)
  {}

  // Main theorem: a tick readies exactly the co-routines whose delay ends with it.
  lemma TickIsExact(s: State)
    requires Inv(s, s.clock + 1)
    ensures var t := Ticked(s);
            && Inv(t, t.clock + 1) && t.clock == s.clock + 1
            && forall x :: OnDelayList(s, x) ==>
                 && x in s.routines && s.routines[x].due >= t.clock
                 && if s.routines[x].due == t.clock then IsReady(t, x) && !OnDelayList(t, x)
                    else OnDelayList(t, x) && !IsReady(t, x) && x in t.routines && t.routines[x] == s.routines[x]
  {
    hide Inv, OnDelayList, IsReady, ExpiredExactly;
    NextTickKeepsInv(s);
    var u, t := NextTick(s), Ticked(s);
    NextTickKeepsRest(s);
    ExpireAllIsExact(u);
    forall x | OnDelayList(s, x)
      ensures x in s.routines && s.routines[x].due >= t.clock
      ensures if s.routines[x].due == t.clock then IsReady(t, x) && !OnDelayList(t, x)
              else OnDelayList(t, x) && !IsReady(t, x) && x in t.routines && t.routines[x] == s.routines[x]
    {
      assert ExpiredExactly(u, t, x);
      OneAfterTick(s, u, t, x);
    }
  }

  lemma NextTickKeepsRest(s: State)
    ensures NextTick(s).clock == s.clock + 1 && NextTick(s).routines == s.routines
  {
    hide Tick;
  }

  // What a tick does to one co-routine that waits.
  lemma OneAfterTick(s: State, u: State, t: State, x: Id)
    requires Inv(s, s.clock + 1) && Inv(u, u.clock) && Inv(t, t.clock + 1)
    requires u.clock == s.clock + 1 && u.routines == s.routines && t.clock == u.clock
    requires OnDelayList(s, x) && OnDelayList(u, x) && ExpiredExactly(u, t, x)
    ensures x in s.routines && s.routines[x].due >= t.clock
    ensures if s.routines[x].due == t.clock then IsReady(t, x) && !OnDelayList(t, x)
            else OnDelayList(t, x) && !IsReady(t, x) && x in t.routines && t.routines[x] == s.routines[x]
  {
    hide ListsOk, TopOk;
    DueLater(s, x);
    assert RoutineOk(t, x);
  }

  lemma DueLater(s: State, x: Id)
    requires ListsOk(s, s.clock + 1) && OnDelayList(s, x)
    ensures x in s.routines && s.clock < s.routines[x].due
  {}

  // ---------------------------------------------------------------- whole runs

  // What the scheduler is in the middle of, at the places where an interrupt can act.
  datatype Phase =
    | Resting           // a co-routine may run
    | Taking(x: Id)     // x is off the pending list and not ready yet
    | Expiring          // a tick has been counted and the head of the delay list is to be looked at
    | Found(x: Id)      // x has been found to be due and not been taken off the delay list yet

  datatype Machine = Machine(s: State, phase: Phase)

  // Delay: the running co-routine delays itself; Signal: an interrupt takes a co-routine off an event
  // list; the others are what the scheduler does between two such places.
  datatype Action =
    | Delay(x: Id, ticks: nat, onEvent: bool)
    | Signal(x: Id)
    | Take | MakeReady
    | CountTick | FindDue | Expire | EndTick

  ghost predicate AtRest(s: State) { Inv(s, s.clock + 1) }

  predicate HeadIsDue(s: State) { s.delayed != [] && Due(s.routines)(s.delayed[0]) <= s.clock }

  ghost predicate MachineOk(m: Machine) {
    match m.phase
    case Resting => AtRest(m.s)
    case Taking(x) => AtRest(m.s) && OnDelayList(m.s, x) && x in m.s.routines && m.s.routines[x].container == NoList
    case Expiring => Inv(m.s, m.s.clock)
    case Found(x) => Inv(m.s, m.s.clock) && HeadIsDue(m.s) && m.s.delayed[0] == x
  }

  ghost predicate Enabled(m: Machine, a: Action) {
    match a
    case Delay(x, ticks, _) => m.phase.Resting? && IsReady(m.s, x) && 0 < ticks < TICKS
    case Signal(x) => x in m.s.routines && m.s.routines[x].container == OnEventList
    case Take => m.phase.Resting? && m.s.pending != []
    case MakeReady => m.phase.Taking?
    case CountTick => m.phase.Resting?
    case FindDue => m.phase.Expiring? && HeadIsDue(m.s)
    case Expire => m.phase.Found?
    case EndTick => m.phase.Expiring? && !HeadIsDue(m.s)
  }

  ghost function Next(m: Machine, a: Action): Machine
    requires MachineOk(m) && Enabled(m, a)
  {
    match a
    case Delay(x, ticks, onEvent) => m.(s := Delayed(m.s, x, ticks, onEvent))
    case Signal(x) => m.(s := Signalled(m.s, x))
    case Take =>
      PendingExists(m.s, m.s.clock + 1);
      Machine(Taken(m.s), Taking(m.s.pending[0]))
    case MakeReady =>
      RoutineExists(m.s, m.phase.x, m.s.clock + 1);
      Machine(Readied(m.s, m.phase.x), Resting)
    case CountTick => Machine(NextTick(m.s), Expiring)
    case FindDue => m.(phase := Found(m.s.delayed[0]))
    case Expire =>
      ExpiredKeepsInv(m.s, m.s.clock);
      Machine(Expired(m.s), Expiring)
    case EndTick => m.(phase := Resting)
  }

  lemma PendingExists(s: State, low: nat)
    requires Inv(s, low) && s.pending != []
    ensures var x := s.pending[0]; x in s.routines && s.routines[x].priority < |s.ready| && OnDelayList(s, x)
    ensures s.routines[s.pending[0]].container == OnPendingList
  {
    hide ListsOk;
    assert RoutineOk(s, s.pending[0]);
  }

  lemma RoutineExists(s: State, x: Id, low: nat)
    requires Inv(s, low) && x in s.routines
    ensures s.routines[x].priority < |s.ready|
  {
    hide ListsOk;
    assert RoutineOk(s, x);
  }

  lemma TakeKeepsInv(s: State, low: nat)
    requires Inv(s, low) && s.pending != [] && s.pending[0] in s.routines
    ensures Inv(Taken(s), low) && OnDelayList(Taken(s), s.pending[0])
    ensures Taken(s).routines[s.pending[0]].container == NoList
    ensures forall y :: y != s.pending[0] ==> SamePlace(s, Taken(s), y)
  {
    hide DelayListOk, Epoch, Tick;
    var t, x := Taken(s), s.pending[0];
    DelayListFrame(s.routines, t.routines, s.delayed, Epoch(s.clock), low);
    DelayListFrame(s.routines, t.routines, s.overflow, Epoch(s.clock) + 1, low);
    assert RoutineOk(s, x);
    SplitDistinct(s.pending, 1);
    assert s.pending[..1] == [x];
    forall y ensures RoutineOk(t, y) && (y != x ==> SamePlace(s, t, y)) {
      assert RoutineOk(s, y);
    }
  }

  lemma ReadiedTaken(s: State, x: Id, low: nat)
    requires Inv(s, low) && OnDelayList(s, x) && x in s.routines && s.routines[x].container == NoList
    ensures s.routines[x].priority < |s.ready|
    ensures Inv(Readied(s, x), low) && IsReady(Readied(s, x), x) && Readied(s, x).clock == s.clock
    ensures forall y :: y != x ==> SamePlace(s, Readied(s, x), y)
  {
    hide ListsOk;
    assert RoutineOk(s, x);
    assert s.routines[x := s.routines[x].(container := NoList)] == s.routines;
    ReadiedKeepsInv(s, x, s.pending, low);
  }

  lemma NothingDue(s: State)
    requires Inv(s, s.clock) && !HeadIsDue(s)
    ensures Inv(s, s.clock + 1)
  {
    hide RoutinesOk, TopOk;
    if s.delayed == [] {
      OverflowLater(s);
    } else {
      HeadDue(s);
    }
  }

  // Every step of the scheduler, of a co-routine or of an interrupt keeps each generic item on exactly
  // one list, and the delay lists right.
  lemma StepKeepsInv(m: Machine, a: Action)
    requires MachineOk(m) && Enabled(m, a)
    ensures var t := Next(m, a); MachineOk(t) && t.s.clock == m.s.clock + (if a.CountTick? then 1 else 0)
  {
    hide ListsOk, RoutinesOk, TopOk, Epoch, Tick, Insert, AddToReady;
    var s := m.s;
    match a
    case Delay(y, ticks, onEvent) => DelayKeepsInv(s, y, ticks, onEvent);
    case Signal(y) => SignalKeepsInv(s, y, if m.phase.Resting? || m.phase.Taking? then s.clock + 1 else s.clock);
    case Take =>
      PendingExists(s, s.clock + 1);
      TakeKeepsInv(s, s.clock + 1);
    case MakeReady => ReadiedTaken(s, m.phase.x, s.clock + 1);
    case CountTick => NextTickKeepsInv(s);
    case FindDue =>
    case Expire =>
      ExpiredKeepsInv(s, s.clock);
      ClockKept(s);
    case EndTick => NothingDue(s);
  }

  // Co-routine x waits for time `due`, and no event has readied it.
  ghost predicate WaitsFor(s: State, x: Id, due: nat) {
    && OnDelayList(s, x) && x in s.routines && s.routines[x].due == due && s.routines[x].container != OnPendingList
    && !IsReady(s, x)
  }

  // It waits until tick `due` is processed; while that goes on it may be ready already; then it is.
  ghost predicate OnTime(m: Machine, x: Id, due: nat) {
    && m.phase != Taking(x)
    && if m.s.clock < due then WaitsFor(m.s, x, due)
       else IsReady(m.s, x) || (m.s.clock == due && (m.phase.Expiring? || m.phase.Found?) && WaitsFor(m.s, x, due))
  }

  lemma ReadyIsOnNoList(s: State, x: Id, low: nat)
    requires Inv(s, low)
    ensures IsReady(s, x) ==> x in s.routines && !OnDelayList(s, x) && s.routines[x].container == NoList
    ensures x in s.routines && !OnDelayList(s, x) ==> IsReady(s, x)
  {
    hide ListsOk, TopOk;
    assert RoutineOk(s, x);
  }

  lemma OthersKeepPlace(m: Machine, a: Action, x: Id)
    requires MachineOk(m) && Enabled(m, a)
    requires !(a.Delay? && a.x == x) && !(a.Signal? && a.x == x)
    requires a.Take? ==> m.s.pending[0] != x
    requires (a.MakeReady? || a.Expire?) ==> m.phase.x != x
    ensures var t := Next(m, a).s;
            && (x in t.routines <==> x in m.s.routines)
            && (x in m.s.routines ==> t.routines[x] == m.s.routines[x])
            && (OnDelayList(t, x) <==> OnDelayList(m.s, x))
            && (IsReady(t, x) <==> IsReady(m.s, x))
  {
    hide ListsOk, RoutinesOk, TopOk, Epoch, Tick, Insert, AddToReady;
    var s := m.s;
    match a
    case Delay(y, ticks, onEvent) =>
      DelayKeepsInv(s, y, ticks, onEvent);
      ReadyIsOnNoList(s, x, s.clock + 1);
      ReadyIsOnNoList(Next(m, a).s, x, s.clock + 1);
    case Signal(y) =>
    case Take =>
      PendingExists(s, s.clock + 1);
      TakeKeepsInv(s, s.clock + 1);
    case MakeReady =>
      ReadiedTaken(s, m.phase.x, s.clock + 1);
      assert SamePlace(s, Readied(s, m.phase.x), x);
    case CountTick => NextTickKeepsInv(s);
    case FindDue =>
    case Expire =>
      ExpiredKeepsInv(s, s.clock);
      assert SamePlace(s, Expired(s), x);
    case EndTick =>
  }

  lemma DueIsLater(m: Machine, x: Id)
    requires MachineOk(m) && OnDelayList(m.s, x)
    ensures x in m.s.routines && m.s.clock <= m.s.routines[x].due
    ensures m.phase.Resting? || m.phase.Taking? ==> m.s.clock < m.s.routines[x].due
    ensures m.phase.Expiring? && !HeadIsDue(m.s) ==> m.s.clock < m.s.routines[x].due
  {
    hide RoutinesOk, TopOk;
    var s := m.s;
    if m.phase.Expiring? && !HeadIsDue(s) {
      NothingDue(s);
    }
    if m.phase.Resting? || m.phase.Taking? || (m.phase.Expiring? && !HeadIsDue(s)) {
      DueLater(s, x);
    } else {
      DueNotEarlier(s, x);
    }
  }

  lemma DueNotEarlier(s: State, x: Id)
    requires ListsOk(s, s.clock) && OnDelayList(s, x)
    ensures x in s.routines && s.clock <= s.routines[x].due
  {}

  lemma StepIsOnTime(m: Machine, a: Action, x: Id, due: nat)
    requires MachineOk(m) && Enabled(m, a) && OnTime(m, x, due)
    requires !(a.Delay? && a.x == x) && !(a.Signal? && a.x == x)
    ensures OnTime(Next(m, a), x, due)
  {
    hide Inv, Epoch, Tick, Insert, AddToReady, IsReady, Delayed, Signalled, Taken, Readied, Expired, NextTick,
         OnDelayList;
    StepKeepsInv(m, a);
    var t := Next(m, a);
    var low := if m.phase.Resting? || m.phase.Taking? then m.s.clock + 1 else m.s.clock;
    ReadyIsOnNoList(m.s, x, low);
    if a.Take? {
      PendingExists(m.s, low);
    }
    if a.Expire? && m.phase.x == x {
      ExpiredKeepsInv(m.s, m.s.clock);
      HeadOnList(m.s);
      DueIsLater(m, x);
    } else {
      OthersKeepPlace(m, a, x);
      if OnDelayList(t.s, x) {
        DueIsLater(t, x);
      }
    }
  }

  lemma HeadOnList(s: State)
    requires s.delayed != []
    ensures OnDelayList(s, s.delayed[0])
  {}

  ghost predicate Possible(m: Machine, actions: seq<Action>)
    requires MachineOk(m)
    decreases |actions|
  {
    actions != [] ==>
      && Enabled(m, actions[0])
      && (StepKeepsInv(m, actions[0]);
          Possible(Next(m, actions[0]), actions[1..]))
  }

  ghost function After(m: Machine, actions: seq<Action>): Machine
    requires MachineOk(m) && Possible(m, actions)
    decreases |actions|
  {
    if actions == [] then m else
      StepKeepsInv(m, actions[0]);
      After(Next(m, actions[0]), actions[1..])
  }

  predicate Concerns(a: Action, x: Id) { (a.Delay? || a.Signal?) && a.x == x }

  lemma {:induction false} RunIsOnTime(m: Machine, actions: seq<Action>, x: Id, due: nat)
    requires MachineOk(m) && Possible(m, actions) && OnTime(m, x, due)
    requires forall a :: a in actions ==> !Concerns(a, x)
    ensures MachineOk(After(m, actions)) && OnTime(After(m, actions), x, due)
    decreases |actions|
  {
    hide MachineOk, OnTime, Next, Enabled;
    if actions != [] {
      assert actions[0] in actions;
      StepKeepsInv(m, actions[0]);
      StepIsOnTime(m, actions[0], x, due);
      RunIsOnTime(Next(m, actions[0]), actions[1..], x, due);
    }
  }

  // Delaying by d ticks at co-routine tick t is waiting for tick t + d, for every d that the tick
  // type can hold but 0.
  lemma DelayWaits(s: State, x: Id, d: nat, onEvent: bool)
    requires AtRest(s) && IsReady(s, x) && 0 < d < TICKS
    ensures AtRest(Delayed(s, x, d, onEvent)) && WaitsFor(Delayed(s, x, d, onEvent), x, s.clock + d)
  {
    hide ListsOk, Insert, Tick, Epoch;
    DelayKeepsInv(s, x, d, onEvent);
    var t := Delayed(s, x, d, onEvent);
    assert RoutineOk(s, x) && RoutineOk(t, x);
  }

  // Main theorem: a co-routine that delays itself by d ticks at tick t, and is not readied by an event,
  // is not ready before tick t + d is processed, and is ready from then on until it delays itself
  // again, wherever interrupts act in between.
  lemma DelayIsExact(s: State, x: Id, d: nat, onEvent: bool, actions: seq<Action>)
    requires AtRest(s) && IsReady(s, x) && 0 < d < TICKS
    requires var m := Machine(Delayed(s, x, d, onEvent), Resting); MachineOk(m) && Possible(m, actions)
    requires forall a :: a in actions ==> !Concerns(a, x)
    ensures var t := After(Machine(Delayed(s, x, d, onEvent), Resting), actions);
            && (t.s.clock < s.clock + d ==> !IsReady(t.s, x) && OnDelayList(t.s, x))
            && (t.s.clock == s.clock + d && t.phase.Resting? ==> IsReady(t.s, x) && !OnDelayList(t.s, x))
            && (t.s.clock > s.clock + d ==> IsReady(t.s, x) && !OnDelayList(t.s, x))
  {
    hide Inv, Possible, After, Delayed, IsReady, OnDelayList;
    ReadyIsOnNoList(s, x, s.clock + 1);
    RoutineExists(s, x, s.clock + 1);
    DelayWaits(s, x, d, onEvent);
    var m := Machine(Delayed(s, x, d, onEvent), Resting);
    SameClock(s, x, d, onEvent);
    RunIsOnTime(m, actions, x, s.clock + d);
    var t := After(m, actions);
    ReadyIsOnNoList(t.s, x, if t.phase.Resting? || t.phase.Taking? then t.s.clock + 1 else t.s.clock);
  }

  lemma SameClock(s: State, x: Id, d: nat, onEvent: bool)
    requires x in s.routines && s.routines[x].priority < |s.ready|
    ensures Delayed(s, x, d, onEvent).clock == s.clock
  {}

  lemma Precede(m: Machine, a: Action, rest: seq<Action>)
    requires MachineOk(m) && Enabled(m, a) && MachineOk(Next(m, a)) && Possible(Next(m, a), rest)
    ensures Possible(m, [a] + rest) && After(m, [a] + rest) == After(Next(m, a), rest)
  {
    hide MachineOk, Enabled, Next;
    assert ([a] + rest)[1..] == rest;
  }

  // Without interrupts in between, the steps from counting a tick on lead to where the tick as a whole
  // does.
  lemma TickIsARun(s: State) returns (actions: seq<Action>)
    requires AtRest(s) && MachineOk(Machine(s, Resting))
    ensures Possible(Machine(s, Resting), actions)
    ensures After(Machine(s, Resting), actions) == Machine(Ticked(s), Resting)
  {
    hide Inv, ExpireAll;
    TickSteps(s);
    var rest := ExpiringIsARun(NextTick(s));
    StepKeepsInv(Machine(s, Resting), CountTick);
    Precede(Machine(s, Resting), CountTick, rest);
    actions := [CountTick] + rest;
  }

  lemma {:induction false} ExpiringIsARun(s: State) returns (actions: seq<Action>)
    requires Inv(s, s.clock) && MachineOk(Machine(s, Expiring))
    ensures Possible(Machine(s, Expiring), actions)
    ensures After(Machine(s, Expiring), actions) == Machine(ExpireAll(s), Resting)
    decreases |s.delayed|
  {
    hide Inv, Expired;
    var m := Machine(s, Expiring);
    if HeadIsDue(s) {
      ExpiredKeepsInv(s, s.clock);
      ClockKept(s);
      StepKeepsInv(m, FindDue);
      var f := Next(m, FindDue);
      StepKeepsInv(f, Expire);
      var rest := ExpiringIsARun(Expired(s));
      Precede(f, Expire, rest);
      Precede(m, FindDue, [Expire] + rest);
      actions := [FindDue] + ([Expire] + rest);
    } else {
      StepKeepsInv(m, EndTick);
      Precede(m, EndTick, []);
      actions := [EndTick] + [];
    }
  }

  // Why crDELAY leaves out delays of 0 ticks: such a co-routine would go to the current delay list, and
  // on the last tick before the count wraps it would still be there when the lists are swapped, and
  // so miss a whole turn of the counter.
  lemma ZeroDelayIsMissedIff(s: State, x: Id)
    requires AtRest(s) && IsReady(s, x)
    ensures var t := NextTick(Delayed(s, x, 0, false));
            x in t.overflow <==> Tick(s.clock + 1) == 0
  {
    hide ListsOk, Tick, Epoch;
    assert RoutineOk(s, x);
    var routines := Delayed(s, x, 0, false).routines;
    InsertOne(s.delayed, x, Due(routines));
  }

  // ---------------------------------------------------------------- the code

  ghost function PendAll(s: State): State
    requires AtRest(s)
    decreases |s.pending|
  {
    if s.pending == [] then s else
      PendStep(s);
      PendAll(MovePending(s))
  }

  lemma PendStep(s: State)
    requires AtRest(s) && s.pending != []
    ensures var x := s.pending[0]; x in s.routines && s.routines[x].priority < |s.ready|
    ensures AtRest(MovePending(s)) && |MovePending(s).pending| == |s.pending| - 1 && MovePending(s).clock == s.clock
  {
    hide Inv;
    MovePendingKeepsInv(s, s.clock + 1);
    ClockOfMoved(s);
  }

  lemma ClockOfMoved(s: State)
    requires s.pending != [] && s.pending[0] in s.routines && s.routines[s.pending[0]].priority < |s.ready|
    ensures |MovePending(s).pending| == |s.pending| - 1 && MovePending(s).clock == s.clock
  {}

  ghost function TickAll(s: State, n: nat): State
    decreases n
  {
    if n == 0 || !AtRest(s) then s else TickAll(Ticked(s), n - 1)
  }

  class Scheduler {
    var clock: nat               // history: the unbounded time behind tickCount
    var tickCount: nat           // xCoRoutineTickCount
    var lastTickCount: nat       // xLastTickCount
    var delayed: seq<Id>
    var overflow: seq<Id>
    var ready: seq<Turns.ReadyList>
    var top: nat
    var pending: seq<Id>
    var routines: map<Id, Routine>

    function Contents(): State
      reads this
    {
      State(clock, delayed, overflow, ready, top, pending, routines)
    }

    ghost predicate Valid()
      reads this
    {
      AtRest(Contents()) && tickCount == lastTickCount == Tick(clock)
    }

    // prvInitialiseCoRoutineLists
    constructor (priorities: nat)
      requires 0 < priorities
      ensures Valid() && Contents() == State(0, [], [], seq(priorities, _ => [Turns.EndMarker]), 0, [], map[])
    {
      clock, tickCount, lastTickCount, top := 0, 0, 0, 0;
      delayed, overflow, pending, routines := [], [], [], map[];
      ready := seq(priorities, _ => [Turns.EndMarker]);
    }

    // xCoRoutineCreate
    method Create(x: Id, priority: nat)
      requires Valid() && x !in routines
      modifies this`ready, this`top, this`routines
      ensures Valid() && x in routines && IsReady(Contents(), x)
      ensures routines[x].priority == if priority < |ready| then priority else |ready| - 1
    {
      hide ListsOk;
      var p := if priority >= |ready| then |ready| - 1 else priority;
      ghost var s := Contents();
      NewRoutine(s, x, p);
      routines := routines[x := Routine(p, 0, 0, NoList)];
      if p > top {
        top := p;
      }
      ready := ready[p := Turns.Joined(ready[p], x)];
    }

    // vCoRoutineAddToDelayedList, for the running co-routine
    method AddToDelayedList(x: Id, ticksToDelay: nat, onEvent: bool)
      requires Valid() && IsReady(Contents(), x) && ticksToDelay < TICKS
      modifies this`delayed, this`overflow, this`ready, this`routines
      ensures old(IsReady(Contents(), x)) && Contents() == Delayed(old(Contents()), x, ticksToDelay, onEvent)
      ensures Inv(Contents(), Soonest(old(Contents()), ticksToDelay)) && (ticksToDelay > 0 ==> Valid())
    {
      hide Inv, Tick, Insert, Delayed, Epoch, Due, ItemValue;
      ghost var s := Contents();
      DelayKeepsInv(s, x, ticksToDelay, onEvent);
      WrappedSum(clock, ticksToDelay);
      DelayedByItemValue(s, x, ticksToDelay, onEvent);
      var timeToWake := (tickCount + ticksToDelay) % TICKS;
      var r := routines[x];
      ready := ready[r.priority := Turns.Left(ready[r.priority], x)];
      routines := routines[x := Routine(r.priority, timeToWake, clock + ticksToDelay,
                                        if onEvent then OnEventList else r.container)];
      if timeToWake < tickCount {
        overflow := Insert(overflow, x, ItemValue(routines));
      } else {
        delayed := Insert(delayed, x, ItemValue(routines));
      }
    }

    // xCoRoutineRemoveFromEventList, for the head x of an event list
    method RemoveFromEventList(x: Id)
      requires Valid() && x in routines && routines[x].container == OnEventList
      modifies this`pending, this`routines
      ensures Valid() && x in old(routines) && Contents() == Signalled(old(Contents()), x)
    {
      hide Inv;
      SignalKeepsInv(Contents(), x, clock + 1);
      pending := pending + [x];
      routines := routines[x := routines[x].(container := OnPendingList)];
    }

    // prvAddCoRoutineToReadyQueue
    method AddToReadyQueue(x: Id)
      requires x in routines && routines[x].priority < |ready|
      modifies this`ready, this`top
      ensures Contents() == AddToReady(old(Contents()), x)
    {
      var p := routines[x].priority;
      if p > top {
        top := p;
      }
      ready := ready[p := Turns.Joined(ready[p], x)];
    }

    // prvCheckPendingReadyList
    method CheckPendingReadyList()
      requires Valid()
      modifies this`delayed, this`overflow, this`ready, this`top, this`pending, this`routines
      ensures old(Valid()) && Valid() && pending == [] && Contents() == PendAll(old(Contents()))
    {
      hide Inv, Tick, AddToReady, AtRest;
      while pending != []
        invariant Valid() && PendAll(Contents()) == PendAll(old(Contents()))
        decreases |pending|
      {
        PendStep(Contents());
        var x := pending[0];
        pending := pending[1..];
        routines := routines[x := routines[x].(container := NoList)];
        delayed, overflow := Remove(delayed, x), Remove(overflow, x);
        AddToReadyQueue(x);
      }
    }

    // prvCheckDelayedList, at tick count `now`
    method CheckDelayedList(now: nat)
      requires Valid() && now < TICKS
      modifies this
      ensures old(Valid()) && Valid() && tickCount == now
      ensures Contents() == TickAll(old(Contents()), (now - old(tickCount)) % TICKS)
    {
      hide AtRest, Tick, Epoch, Ticked;
      var passedTicks: nat := (now - lastTickCount) % TICKS;
      ghost var n: nat := passedTicks;
      while passedTicks > 0
        invariant passedTicks <= n && AtRest(Contents()) && tickCount == Tick(clock)
        invariant TickAll(Contents(), passedTicks) == TickAll(old(Contents()), n)
        invariant clock == old(clock) + (n - passedTicks)
        decreases passedTicks
      {
        ProcessTick();
        passedTicks := passedTicks - 1;
      }
      ArrivedAt(old(clock), now);
      lastTickCount := tickCount;
    }

    // One round of the outer loop in prvCheckDelayedList
    method ProcessTick()
      requires AtRest(Contents()) && tickCount == Tick(clock)
      modifies this`clock, this`tickCount, this`delayed, this`overflow, this`ready, this`top, this`pending,
               this`routines
      ensures old(AtRest(Contents())) && AtRest(Contents()) && Contents() == Ticked(old(Contents()))
      ensures tickCount == Tick(clock) && clock == old(clock) + 1
    {
      hide Inv, Tick, Ticked, ExpireAll;
      TickSteps(Contents());
      WrappedSum(clock, 1);
      tickCount := (tickCount + 1) % TICKS;
      clock := clock + 1;
      if tickCount == 0 {
        delayed, overflow := overflow, delayed;
      }
      ReadyExpired();
    }

    // The inner loop in prvCheckDelayedList
    method ReadyExpired()
      requires Inv(Contents(), clock) && tickCount == Tick(clock)
      modifies this`delayed, this`ready, this`top, this`pending, this`routines
      ensures old(Inv(Contents(), clock)) && Contents() == ExpireAll(old(Contents()))
    {
      hide Inv, Tick, AddToReady, ExpireAll;
      ghost var u := Contents();
      while delayed != []
        invariant Inv(Contents(), clock) && ExpireAll(Contents()) == ExpireAll(u)
        decreases |delayed|
      {
        ExpireStep(Contents());
        var x := delayed[0];
        if tickCount < routines[x].itemValue {
          return;
        }
        delayed := delayed[1..];
        if routines[x].container != NoList {
          pending := Remove(pending, x);
        }
        routines := routines[x := routines[x].(container := NoList)];
        AddToReadyQueue(x);
      }
      NoneToExpire(Contents());
    }

    // vCoRoutineSchedule: the co-routine to run, if there is one, is the one whose turn it is among those
    // of the highest priority that is ready.
    method Schedule(now: nat) returns (next: Option<Id>)
      requires Valid() && now < TICKS
      modifies this
      ensures Valid() && old(Valid())
      ensures var s := TickAll(PendAll(old(Contents())), (now - old(tickCount)) % TICKS);
              match next
              case None =>
                Contents() == s.(top := top) && forall p: nat :: p < |ready| ==> Turns.Empty(ready[p])
              case Some(x) =>
                && top < |s.ready| && !Turns.Empty(s.ready[top])
                && Contents() == s.(top := top, ready := s.ready[top := Turns.Advanced(s.ready[top])])
                && x == Turns.Next(s.ready[top]) && IsReady(Contents(), x) && routines[x].priority == top
                && forall p: nat :: top < p < |ready| ==> Turns.Empty(ready[p])
    {
      hide ListsOk, RoutinesOk, Tick, Epoch, TickAll, PendAll, Ticked, IsReady;
      CheckPendingReadyList();
      CheckDelayedList(now);
      ghost var s := Contents();
      while Turns.Empty(ready[top])
        invariant Valid() && Contents() == s.(top := top)
        decreases top
      {
        if top == 0 {
          return None;
        }
        TopLower(Contents());
        top := top - 1;
      }
      InItsList(Contents(), Turns.Next(ready[top]), top);
      TurnKeepsInv(Contents());
      next := Some(Turns.Next(ready[top]));
      ready := ready[top := Turns.Advanced(ready[top])];
    }
  }

  // Whose turn it is makes no difference to who is ready.
  lemma TurnKeepsInv(s: State)
    requires AtRest(s) && s.top < |s.ready|
    ensures var t := s.(ready := s.ready[s.top := Turns.Advanced(s.ready[s.top])]);
            AtRest(t) && forall x :: IsReady(t, x) <==> IsReady(s, x)
  {
    hide DelayListOk;
    var t := s.(ready := s.ready[s.top := Turns.Advanced(s.ready[s.top])]);
    forall x ensures RoutineOk(t, x) && (IsReady(t, x) <==> IsReady(s, x)) {
      assert RoutineOk(s, x);
    }
  }

  lemma TickSteps(s: State)
    requires AtRest(s)
    ensures NextTick(s).clock == s.clock + 1 && Inv(NextTick(s), NextTick(s).clock)
    ensures Ticked(s) == ExpireAll(NextTick(s))
    ensures AtRest(Ticked(s)) && Ticked(s).clock == s.clock + 1
  {
    hide Inv, Tick, ExpireAll, IsReady, OnDelayList;
    NextTickKeepsInv(s);
    TickIsExact(s);
  }

  lemma NoneToExpire(s: State)
    requires Inv(s, s.clock) && s.delayed == []
    ensures ExpireAll(s) == s
  {}

  // One round of the loop over the delay list, in terms of the item values.
  lemma ExpireStep(s: State)
    requires Inv(s, s.clock) && s.delayed != []
    ensures var x := s.delayed[0];
            && x in s.routines && s.routines[x].priority < |s.ready|
            && (s.routines[x].container == NoList ==> Remove(s.pending, x) == s.pending)
            && if Tick(s.clock) < s.routines[x].itemValue then ExpireAll(s) == s
               else Inv(Expired(s), s.clock) && ExpireAll(s) == ExpireAll(Expired(s))
                    && |Expired(s).delayed| < |s.delayed| && Expired(s).clock == s.clock
  {
    hide ListsOk, RoutinesOk, TopOk, Tick, Epoch, Expired;
    HeadDue(s);
    ExpiredKeepsInv(s, s.clock);
    ClockKept(s);
    SameEpochOrder(s.clock, s.routines[s.delayed[0]].due);
    NotPending(s, s.delayed[0]);
  }

  // The event item of a co-routine that is on an event list is not on the pending list.
  lemma NotPending(s: State, x: Id)
    requires RoutinesOk(s) && x in s.routines
    ensures s.routines[x].container != OnPendingList ==> Remove(s.pending, x) == s.pending
  {
    assert RoutineOk(s, x);
    if s.routines[x].container != OnPendingList {
      RemoveAbsent(s.pending, x);
    }
  }

  lemma TopLower(s: State)
    requires AtRest(s) && 0 < s.top && Turns.Empty(s.ready[s.top])
    ensures AtRest(s.(top := s.top - 1))
  {
    hide DelayListOk;
    var t := s.(top := s.top - 1);
    forall x ensures RoutineOk(t, x) {
      assert RoutineOk(s, x);
    }
  }

  lemma InItsList(s: State, x: Id, p: nat)
    requires AtRest(s) && p < |s.ready| && Turns.Has(s.ready[p], x)
    ensures IsReady(s, x) && s.routines[x].priority == p
  {
    hide ListsOk, TopOk;
    assert RoutineOk(s, x);
  }

  lemma SameEpochOrder(t: nat, due: nat)
    requires Epoch(t) == Epoch(due)
    ensures Tick(t) < Tick(due) <==> t < due
  {}

  lemma ArrivedAt(clock: nat, now: nat)
    requires now < TICKS
    ensures Tick(clock + (now - Tick(clock)) % TICKS) == now
  {
    Advance(clock, (now - Tick(clock)) % TICKS);
  }

  lemma NewRoutine(s: State, x: Id, p: nat)
    requires AtRest(s) && x !in s.routines && p < |s.ready|
    ensures AtRest(AddToReady(s.(routines := s.routines[x := Routine(p, 0, 0, NoList)]), x))
  {
    hide DelayListOk, Tick, Epoch, Turns.Joined, Turns.Has, Turns.Empty;
    assert RoutineOk(s, x);
    var t := AddToReady(s.(routines := s.routines[x := Routine(p, 0, 0, NoList)]), x);
    forall y ensures RoutineOk(t, y) {
      assert RoutineOk(s, y);
    }
    DelayListFrame(s.routines, t.routines, s.delayed, Epoch(s.clock), s.clock + 1);
    DelayListFrame(s.routines, t.routines, s.overflow, Epoch(s.clock) + 1, s.clock + 1);
  }

  // The code inserts by item value.
  lemma DelayedByItemValue(s: State, x: Id, d: nat, onEvent: bool)
    requires AtRest(s) && IsReady(s, x) && d < TICKS
    ensures var r := s.routines[x];
            var routines := s.routines[x := Routine(r.priority, Tick(s.clock + d), s.clock + d,
                                                    if onEvent then OnEventList else r.container)];
            var t := s.(ready := s.ready[r.priority := Turns.Left(s.ready[r.priority], x)], routines := routines);
            Delayed(s, x, d, onEvent) ==
              if Tick(s.clock + d) < Tick(s.clock) then t.(overflow := Insert(s.overflow, x, ItemValue(routines)))
              else t.(delayed := Insert(s.delayed, x, ItemValue(routines)))
  {
    hide DelayListOk, Insert, Epoch, Tick, AtRest, IsReady, Due, ItemValue;
    var low := Soonest(s, d);
    ReadyIsOnNoDelayList(s, x, low);
    DelayFits(s.clock, d);
    var routines := Delayed(s, x, d, onEvent).routines;
    if Epoch(s.clock + d) == Epoch(s.clock) {
      InsertedByItemValue(s.routines, routines, x, s.delayed, Epoch(s.clock), low);
    } else {
      InsertedByItemValue(s.routines, routines, x, s.overflow, Epoch(s.clock) + 1, low);
    }
  }

  lemma ReadyIsOnNoDelayList(s: State, x: Id, low: nat)
    requires AtRest(s) && IsReady(s, x) && low <= s.clock + 1
    ensures x !in s.delayed && x !in s.overflow && x in s.routines && s.routines[x].priority < |s.ready|
    ensures DelayListOk(s.routines, s.delayed, Epoch(s.clock), low)
    ensures DelayListOk(s.routines, s.overflow, Epoch(s.clock) + 1, low)
  {
    hide DelayListOk;
    assert RoutineOk(s, x);
    EarlierBound(s, s.clock + 1, low);
  }

  lemma InsertedByItemValue(routines: map<Id, Routine>, routines': map<Id, Routine>, x: Id, list: seq<Id>, epoch: nat,
            low: nat)
    requires DelayListOk(routines, list, epoch, low) && x !in list
    requires x in routines' && routines' == routines[x := routines'[x]]
    requires routines'[x].itemValue == Tick(routines'[x].due)
    requires Epoch(routines'[x].due) == epoch && low <= routines'[x].due
    ensures Insert(list, x, ItemValue(routines')) == Insert(list, x, Due(routines'))
  {
    hide Insert, DelayListOk, Epoch, Tick;
    OtherRoutines(routines, routines', x, list, epoch, low);
    DelayListInserted(routines', list, epoch, low, x);
  }
}
