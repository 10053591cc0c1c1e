/** Events and co-routines: an interrupt readies a co-routine that waits for an event before its delay
  * ends (kernel/FreeRTOS/croutine.c).
  */
module CoRoutineEvents {
  import opened Lists
  import opened Ticks
  import opened CoRoutines
  import Turns

  // Co-routine x waits for time `due`, with its event list item where it was put when it began to wait.
  ghost predicate WaitsOn(m: Machine, x: Id, due: nat, container: Container) {
    && OnTime(m, x, due)
    && (m.s.clock < due ==> x in m.s.routines && m.s.routines[x].container == container)
  }

  lemma StepKeepsWaitsOn(m: Machine, a: Action, x: Id, due: nat, container: Container)
    requires MachineOk(m) && Enabled(m, a) && WaitsOn(m, x, due, container) && !Concerns(a, x)
    ensures WaitsOn(Next(m, a), x, due, container)
  {
    hide Inv, Epoch, Tick, Insert, AddToReady, IsReady, Delayed, Signalled, Taken, Readied, Expired, NextTick,
         OnDelayList;
    StepIsOnTime(m, a, x, due);
    StepKeepsInv(m, a);
    if m.s.clock < due {
      if a.Take? {
        PendingExists(m.s, m.s.clock + 1);
      }
      OthersKeepPlace(m, a, x);
    }
  }

  lemma {:induction false} RunKeepsWaitsOn(m: Machine, actions: seq<Action>, x: Id, due: nat, container: Container)
    requires MachineOk(m) && Possible(m, actions) && WaitsOn(m, x, due, container)
    requires forall a :: a in actions ==> !Concerns(a, x)
    ensures MachineOk(After(m, actions)) && WaitsOn(After(m, actions), x, due, container)
    decreases |actions|
  {
    hide MachineOk, WaitsOn, Next, Enabled;
    if actions != [] {
      assert actions[0] in actions;
      StepKeepsInv(m, actions[0]);
      StepKeepsWaitsOn(m, actions[0], x, due, container);
      RunKeepsWaitsOn(Next(m, actions[0]), actions[1..], x, due, container);
    }
  }

  // A co-routine that delays itself and waits for an event can be signalled as long as its delay has
  // not ended, whatever happens in between; one that only delays itself never can.
  lemma SignalIsPossibleIff(s: State, x: Id, d: nat, onEvent: bool, actions: seq<Action>)
    requires AtRest(s) && IsReady(s, x) && 0 < d < TICKS
    requires var m := Machine(Delayed(s, x, d, onEvent), Resting); MachineOk(m) && Possible(m, actions)
    requires forall a :: a in actions ==> !Concerns(a, x)
    ensures var t := After(Machine(Delayed(s, x, d, onEvent), Resting), actions);
            t.s.clock < s.clock + d ==> (Enabled(t, Signal(x)) <==> onEvent)
  {
    hide Inv, Possible, After, IsReady, OnDelayList, Insert, Epoch, Tick, Due;
    ReadyIsOnNoList(s, x, s.clock + 1);
    RoutineExists(s, x, s.clock + 1);
    DelayWaits(s, x, d, onEvent);
    var m := Machine(Delayed(s, x, d, onEvent), Resting);
    RunKeepsWaitsOn(m, actions, x, s.clock + d, if onEvent then OnEventList else NoList);
  }

  // Co-routine x has been signalled, and has not delayed itself since.
  ghost predicate IsSignalled(m: Machine, x: Id) {
    && x in m.s.routines
    && (m.s.routines[x].container == OnPendingList || m.phase == Taking(x) || IsReady(m.s, x))
    && m.s.routines[x].container != OnEventList
  }

  lemma StepKeepsSignalled(m: Machine, a: Action, x: Id)
    requires MachineOk(m) && Enabled(m, a) && IsSignalled(m, x) && !Concerns(a, x)
    ensures IsSignalled(Next(m, a), x)
  {
    hide Inv, Epoch, Tick, Insert, AddToReady, IsReady, Delayed, Signalled, Readied, Expired, NextTick,
         OnDelayList;
    StepKeepsInv(m, a);
    var t := Next(m, a);
    if a.Take? && m.s.pending[0] == x {
      PendingExists(m.s, m.s.clock + 1);
    } else if a.MakeReady? && m.phase.x == x {
      ReadiedTaken(m.s, x, m.s.clock + 1);
      ReadyIsOnNoList(t.s, x, t.s.clock + 1);
    } else if a.Expire? && m.phase.x == x {
      ExpiredKeepsInv(m.s, m.s.clock);
      ReadyIsOnNoList(t.s, x, t.s.clock);
    } else {
      OthersKeepPlace(m, a, x);
    }
  }

  lemma {:induction false} RunKeepsSignalled(m: Machine, actions: seq<Action>, x: Id)
    requires MachineOk(m) && Possible(m, actions) && IsSignalled(m, x)
    requires forall a :: a in actions ==> !Concerns(a, x)
    ensures MachineOk(After(m, actions)) && IsSignalled(After(m, actions), x)
    decreases |actions|
  {
    hide MachineOk, IsSignalled, Next, Enabled;
    if actions != [] {
      assert actions[0] in actions;
      StepKeepsInv(m, actions[0]);
      StepKeepsSignalled(m, actions[0], x);
      RunKeepsSignalled(Next(m, actions[0]), actions[1..], x);
    }
  }

  // A co-routine that an interrupt has signalled, at whatever place, is ready whenever the scheduler
  // is at rest with nothing left on the pending list, however little time has passed.
  lemma SignalledIsReadied(m: Machine, x: Id, actions: seq<Action>)
    requires MachineOk(m) && Enabled(m, Signal(x))
    requires MachineOk(Next(m, Signal(x))) && Possible(Next(m, Signal(x)), actions)
    requires forall a :: a in actions ==> !Concerns(a, x)
    ensures var t := After(Next(m, Signal(x)), actions);
            t.phase.Resting? && t.s.pending == [] ==> IsReady(t.s, x) && !OnDelayList(t.s, x)
  {
    hide Inv, Possible, After, IsReady, OnDelayList;
    RunKeepsSignalled(Next(m, Signal(x)), actions, x);
    var t := After(Next(m, Signal(x)), actions);
    if t.phase.Resting? && t.s.pending == [] {
      PendingIsListed(t.s, x, t.s.clock + 1);
      ReadyIsOnNoList(t.s, x, t.s.clock + 1);
    }
  }

  lemma PendingIsListed(s: State, x: Id, low: nat)
    requires Inv(s, low) && x in s.routines
    ensures s.routines[x].container == OnPendingList <==> x in s.pending
  {
    hide ListsOk, TopOk;
    assert RoutineOk(s, x);
  }

  // The check of the pending list is such a run, and takes no time.
  lemma {:induction false} CheckIsARun(s: State) returns (actions: seq<Action>)
    requires AtRest(s) && MachineOk(Machine(s, Resting))
    ensures Possible(Machine(s, Resting), actions) && forall a :: a in actions ==> a.Take? || a.MakeReady?
    ensures After(Machine(s, Resting), actions) == Machine(PendAll(s), Resting)
    ensures PendAll(s).pending == [] && PendAll(s).clock == s.clock && AtRest(PendAll(s))
    decreases |s.pending|
  {
    hide Inv, MovePending, Taken, Readied;
    var m := Machine(s, Resting);
    if s.pending == [] {
      actions := [];
    } else {
      PendStep(s);
      PendingExists(s, s.clock + 1);
      var x := s.pending[0];
      StepKeepsInv(m, Take);
      var taken := Next(m, Take);
      StepKeepsInv(taken, MakeReady);
      MovedIsReadied(s);
      var rest := CheckIsARun(MovePending(s));
      Precede(taken, MakeReady, rest);
      Precede(m, Take, [MakeReady] + rest);
      actions := [Take] + ([MakeReady] + rest);
    }
  }

  lemma MovedIsReadied(s: State)
    requires s.pending != [] && s.pending[0] in s.routines && s.routines[s.pending[0]].priority < |s.ready|
    ensures s.pending[0] in Taken(s).routines
    ensures Taken(s).routines[s.pending[0]].priority < |Taken(s).ready|
    ensures MovePending(s) == Readied(Taken(s), s.pending[0])
  {}

  // A co-routine that waits for an event is made ready by a signal and the check that follows it, at
  // once: the tick count is as it was.
  lemma EventReadies(s: State, x: Id)
    requires AtRest(s) && x in s.routines && s.routines[x].container == OnEventList
    ensures AtRest(Signalled(s, x))
    ensures var t := PendAll(Signalled(s, x)); IsReady(t, x) && !OnDelayList(t, x) && t.clock == s.clock
  {
    hide Inv, PendAll, IsReady, OnDelayList, Possible, After;
    var m := Machine(s, Resting);
    StepKeepsInv(m, Signal(x));
    var actions := CheckIsARun(Signalled(s, x));
    SignalledIsReadied(m, x, actions);
  }

  // ---------------------------------------------------------------- the order of signals

  // Where co-routine x is among those of its priority.
  ghost function PlaceOf(s: State, p: nat, x: Id): nat
    requires p < |s.ready| && Turns.Has(s.ready[p], x)
  {
    Turns.Place(s.ready[p], x)
  }

  predicate WaitsTurn(s: State, p: nat, x: Id) { p < |s.ready| && Turns.Waits(s.ready[p], x) }

  lemma MoveKeepsPlace(s: State, p: nat, x: Id)
    requires AtRest(s) && s.pending != [] && WaitsTurn(s, p, x)
    ensures s.pending[0] in s.routines && s.routines[s.pending[0]].priority < |s.ready|
    ensures var t := MovePending(s); WaitsTurn(t, p, x) && PlaceOf(t, p, x) == PlaceOf(s, p, x)
    ensures var t := MovePending(s); var y := s.pending[0];
            s.routines[y].priority == p ==>
              WaitsTurn(t, p, y) && PlaceOf(s, p, x) < PlaceOf(t, p, y)
  {
    hide Inv, Turns.Joined, Turns.Waits;
    PendStep(s);
    PendingExists(s, s.clock + 1);
    var y := s.pending[0];
    ReadyIsOnNoList(s, y, s.clock + 1);
    if s.routines[y].priority == p {
      NotOnReadyList(s, y);
      JoinsBehind(s.ready[p], x, y);
    }
  }

  lemma NotOnReadyList(s: State, y: Id)
    requires AtRest(s) && s.pending != [] && s.pending[0] == y && y in s.routines && s.routines[y].priority < |s.ready|
    ensures !Turns.Has(s.ready[s.routines[y].priority], y)
  {
    hide ListsOk, TopOk;
    assert RoutineOk(s, y);
  }

  // Who joins comes behind those who wait.
  lemma JoinsBehind(t: Turns.ReadyList, x: Id, y: Id)
    requires Turns.Waits(t, x) && !Turns.Has(t, y)
    ensures var r := Turns.Joined(t, y);
            && Turns.Waits(r, x) && Turns.Place(r, x) == Turns.Place(t, x)
            && Turns.Waits(r, y) && Turns.Place(t, x) < Turns.Place(r, y)
  {
    Turns.ComesNearer(t, Turns.Join(y), x);
    Turns.PlaceIs(Turns.Joined(t, y), y, |t| - 1);
  }

  lemma {:induction false} CheckKeepsPlace(s: State, p: nat, x: Id)
    requires AtRest(s) && WaitsTurn(s, p, x)
    ensures WaitsTurn(PendAll(s), p, x) && PlaceOf(PendAll(s), p, x) == PlaceOf(s, p, x)
    decreases |s.pending|
  {
    hide Inv, MovePending, WaitsTurn, PlaceOf;
    if s.pending != [] {
      PendStep(s);
      MoveKeepsPlace(s, p, x);
      CheckKeepsPlace(MovePending(s), p, x);
    }
  }

  lemma PendingMoves(s: State)
    requires AtRest(s) && s.pending != []
    ensures s.pending[0] in s.routines && s.routines[s.pending[0]].priority < |s.ready|
    ensures var t := MovePending(s);
            && AtRest(t) && t.pending == s.pending[1..] && |t.ready| == |s.ready|
            && (forall y :: y in s.routines ==> y in t.routines && t.routines[y].priority == s.routines[y].priority)
  {
    hide Inv;
    PendStep(s);
  }

  // A pending co-routine comes behind those that wait already.
  lemma {:induction false} PendingComesBehind(s: State, p: nat, x: Id, j: nat)
    requires AtRest(s) && WaitsTurn(s, p, x) && j < |s.pending|
    requires s.pending[j] in s.routines && s.routines[s.pending[j]].priority == p
    ensures var t := PendAll(s);
            WaitsTurn(t, p, x) && WaitsTurn(t, p, s.pending[j]) && PlaceOf(t, p, x) < PlaceOf(t, p, s.pending[j])
    decreases |s.pending|
  {
    hide Inv, MovePending, WaitsTurn, PlaceOf;
    PendingMoves(s);
    MoveKeepsPlace(s, p, x);
    var t := MovePending(s);
    if j == 0 {
      CheckKeepsPlace(t, p, x);
      CheckKeepsPlace(t, p, s.pending[0]);
    } else {
      PendingComesBehind(t, p, x, j - 1);
    }
  }

  lemma {:induction false} FirstPendingFirst(s: State, p: nat, i: nat, j: nat)
    requires AtRest(s) && i < j < |s.pending|
    requires s.pending[i] in s.routines && s.routines[s.pending[i]].priority == p
    requires s.pending[j] in s.routines && s.routines[s.pending[j]].priority == p
    ensures var t := PendAll(s);
            && WaitsTurn(t, p, s.pending[i]) && WaitsTurn(t, p, s.pending[j])
            && PlaceOf(t, p, s.pending[i]) < PlaceOf(t, p, s.pending[j])
    decreases |s.pending|
  {
    hide Inv, MovePending, PlaceOf, WaitsTurn;
    PendingMoves(s);
    if i == 0 {
      MovedWaits(s);
      PendingComesBehind(MovePending(s), p, s.pending[0], j - 1);
    } else {
      FirstPendingFirst(MovePending(s), p, i - 1, j - 1);
    }
  }

  lemma MovedWaits(s: State)
    requires AtRest(s) && s.pending != []
    ensures s.pending[0] in s.routines && s.routines[s.pending[0]].priority < |s.ready|
    ensures WaitsTurn(MovePending(s), s.routines[s.pending[0]].priority, s.pending[0])
  {
    hide Inv;
    PendingMoves(s);
    NotOnReadyList(s, s.pending[0]);
  }

  // Of two co-routines of the same priority the one signalled first is first in line when the pending
  // list has been checked.
  lemma SignalledInTurn(s: State, y: Id, x: Id)
    requires AtRest(s) && y in s.pending && y in s.routines
    requires x in s.routines && s.routines[x].container == OnEventList
    requires s.routines[x].priority == s.routines[y].priority
    ensures AtRest(Signalled(s, x))
    ensures var t, p := PendAll(Signalled(s, x)), s.routines[x].priority;
            WaitsTurn(t, p, y) && WaitsTurn(t, p, x) && PlaceOf(t, p, y) < PlaceOf(t, p, x)
  {
    hide Inv, PlaceOf, WaitsTurn;
    SignalKeepsInv(s, x, s.clock + 1);
    var i: nat :| i < |s.pending| && s.pending[i] == y;
    FirstPendingFirst(Signalled(s, x), s.routines[x].priority, i, |s.pending|);
  }
}
