/** The timer daemon of kernel/FreeRTOS/timers.c.  The code sees only the tick counter, which wraps;
  * the model says what the daemon does over unbounded time and shows that the code, working on the
  * wrapped values, does the same.
  */
module Timers {
  import opened Arithmetic
  import opened Lists
  import opened Ticks

  // ---------------------------------------------------------------- where a timer goes

  datatype Place = ProcessNow | CurrentList | OverflowList

  // The decision of prvInsertTimerInActiveList; every argument is a tick count.
  function Decide(nextExpiry: nat, now: nat, command: nat, period: nat): Place {
    if nextExpiry <= now then
      if (now - command) % TICKS >= period then ProcessNow else OverflowList
    else
      if now < command && nextExpiry >= command then ProcessNow else CurrentList
  }

  // The decision taken on the wrapped values is the one the unbounded times call for.
  lemma DecisionIsExact(c: nat, n: nat, p: nat)
    requires c <= n < c + TICKS && 0 < p < TICKS
    ensures var d := Decide(Tick(c + p), Tick(n), Tick(c), p);
            && (d == ProcessNow <==> c + p <= n)
            && (d == CurrentList <==> n < c + p && Epoch(c + p) == Epoch(n))
            && (d == OverflowList <==> n < c + p && Epoch(c + p) == Epoch(n) + 1)
  {
    Advance(c, p);
    Advance(c, n - c);
    assert (Tick(n) - Tick(c)) % TICKS == n - c;
  }

  // For delays of any length: the decision to process at once is right exactly when the delay is
  // below the period or, taken modulo 2^32, still reaches it.  So it is right for every delay below
  // 2^32 ticks, and wrong for a delay of exactly 2^32.
  lemma DecisionIsExactIff(c: nat, n: nat, p: nat)
    requires c <= n && 0 < p < TICKS
    ensures (Decide(Tick(c + p), Tick(n), Tick(c), p) == ProcessNow <==> c + p <= n)
            <==> (n - c < p || (n - c) % TICKS >= p)
  {
    var m := c + (n - c) % TICKS;
    assert Tick(m) == Tick(n);
    DecisionIsExact(c, m, p);
  }

  // ---------------------------------------------------------------- the daemon over unbounded time

  type Id = nat

  // A timer.  The code has all fields but `due`, the unbounded time behind the item value, and
  // `calls`, the number of its callbacks so far; no decision of the code depends on these two.
  datatype Timer = Timer(
    period: nat,
    autoReload: bool,   // tmrSTATUS_IS_AUTORELOAD
    active: bool,       // tmrSTATUS_IS_ACTIVE
    isStatic: bool,     // tmrSTATUS_IS_STATICALLY_ALLOCATED
    itemValue: nat,
    due: nat,
    calls: nat)
  {
    function At(time: nat): Timer { this.(due := time, itemValue := Tick(time)) }
    function Called(n: nat): Timer { this.(calls := calls + n) }
  }

  datatype State = State(timers: map<Id, Timer>, current: seq<Id>, overflow: seq<Id>)

  function Due(timers: map<Id, Timer>): Id -> nat {
    x => if x in timers then timers[x].due else 0
  }

  predicate Listed(s: State, x: Id) { x in s.current || x in s.overflow }

  function Update(s: State, id: Id, t: Timer): State {
    s.(timers := s.timers[id := t])
  }

  // The timer goes to the current list if it is due in this epoch, else to the overflow list.
  function Put(s: State, id: Id, t: Timer, era: nat): State {
    var timers := s.timers[id := t];
    if Epoch(t.due) == era then State(timers, Insert(s.current, id, Due(timers)), s.overflow)
    else State(timers, s.current, Insert(s.overflow, id, Due(timers)))
  }

  // The first expiry after n of a timer of period p that expires at time e.
  function FirstAfter(e: nat, n: nat, p: nat): (due: nat)
    requires e <= n && 0 < p
    ensures n < due <= n + p
  {
    var k := (n - e) / p;
    assert (k + 1) * p == k * p + p;
    e + (k + 1) * p
  }

  // An auto-reload timer whose expiry at time e is being processed at time n: callbacks for the
  // later expiries up to n, and the first expiry after n goes to a list.
  function Reloaded(s: State, id: Id, e: nat, n: nat): State
    requires id in s.timers && 0 < s.timers[id].period && e <= n
  {
    var p := s.timers[id].period;
    var k := (n - e) / p;
    Put(s, id, s.timers[id].Called(k).At(FirstAfter(e, n, p)), Epoch(n))
  }

  // A timer that is on no list expires at time e, which is noticed at time n.
  function Fired(s: State, id: Id, e: nat, n: nat): State
    requires id in s.timers && 0 < s.timers[id].period && e <= n
  {
    if s.timers[id].autoReload then Reloaded(Update(s, id, s.timers[id].Called(1)), id, e, n)
    else Update(s, id, s.timers[id].Called(1).(active := false))
  }

  predicate TimerOk(t: Timer, clock: nat) {
    t.itemValue == Tick(t.due) && t.due <= clock + t.period
  }

  predicate ListOk(timers: map<Id, Timer>, list: seq<Id>, epoch: nat, clock: nat) {
    && Distinct(list) && Sorted(list, Due(timers))
    && forall x :: x in list ==>
         x in timers && timers[x].active && TimerOk(timers[x], clock) && Epoch(timers[x].due) == epoch
  }

  // The current list holds the timers due in this epoch, the overflow list those due in the next, and
  // every timer on a list is marked active.
  predicate Valid(s: State, era: nat, clock: nat) {
    && ListOk(s.timers, s.current, era, clock) && ListOk(s.timers, s.overflow, era + 1, clock)
    && (forall x :: x in s.current ==> x !in s.overflow)
    && (forall x :: x in s.timers ==> 0 < s.timers[x].period < TICKS)
  }

  // A timer is marked active exactly if it is on a list.
  predicate Agrees(s: State, x: Id) {
    x in s.timers ==> (s.timers[x].active <==> Listed(s, x))
  }

  // Between the steps of the daemon, when the tick count was last sampled at time `clock`.
  ghost predicate Settled(s: State, clock: nat) {
    Valid(s, Epoch(clock), clock) && forall x :: Agrees(s, x)
  }

  // What happens to a timer that is given no command: an auto-reload timer moves on by one period a
  // callback; any other has one callback, not before it is due, and is then inactive.
  predicate Progress(t: Timer, t': Timer, clock: nat) {
    && t'.period == t.period && t'.autoReload == t.autoReload && t'.isStatic == t.isStatic
    && t.calls <= t'.calls
    && if t.autoReload then t'.active == t.active && t'.due == t.due + (t'.calls - t.calls) * t.period
       else t'.due == t.due &&
            if t'.calls == t.calls then t'.active == t.active
            else t.active && !t'.active && t'.calls == t.calls + 1 && t.due <= clock
  }

  lemma ProgressTransitive(a: Timer, b: Timer, c: Timer, clock: nat, clock': nat)
    requires Progress(a, b, clock) && Progress(b, c, clock') && clock <= clock'
    ensures Progress(a, c, clock')
  {
    var p := a.period;
    assert (b.calls - a.calls) * p + (c.calls - b.calls) * p == (c.calls - a.calls) * p;
  }

  // Changes to other timers, and time passing, leave a list in order.
  lemma ListFrame(timers: map<Id, Timer>, timers': map<Id, Timer>, list: seq<Id>, epoch: nat, clock: nat, clock': nat)
    requires ListOk(timers, list, epoch, clock) && clock <= clock'
    requires forall x :: x in list && x in timers ==>
      && x in timers' && timers'[x].due == timers[x].due
      && timers'[x].itemValue == timers[x].itemValue && timers'[x].period == timers[x].period
      && timers'[x].active == timers[x].active
    ensures ListOk(timers', list, epoch, clock')
  {}

  lemma ListInserted(timers: map<Id, Timer>, list: seq<Id>, epoch: nat, clock: nat, id: Id)
    requires ListOk(timers, list, epoch, clock) && id !in list
    requires id in timers && timers[id].active && TimerOk(timers[id], clock) && Epoch(timers[id].due) == epoch
    ensures ListOk(timers, Insert(list, id, Due(timers)), epoch, clock)
    ensures forall x :: x in Insert(list, id, Due(timers)) <==> x in list || x == id
  {
    InsertOne(list, id, Due(timers));
    InsertKeepsSorted(list, id, Due(timers));
  }

  lemma ListRemoved(timers: map<Id, Timer>, list: seq<Id>, epoch: nat, clock: nat, id: Id)
    requires ListOk(timers, list, epoch, clock)
    ensures ListOk(timers, Remove(list, id), epoch, clock)
    ensures forall x :: x in Remove(list, id) <==> x in list && x != id
  {
    RemoveOne(list, id);
    RemoveKeepsSorted(list, id, Due(timers));
  }

  // Within one epoch the item values order the timers as their due times do.
  lemma InsertByItemValue(timers: map<Id, Timer>, list: seq<Id>, epoch: nat, clock: nat, id: Id)
    requires ListOk(timers, list, epoch, clock)
    requires id in timers && timers[id].itemValue == Tick(timers[id].due) && Epoch(timers[id].due) == epoch
    ensures Insert(list, id, ItemValue(timers)) == Insert(list, id, Due(timers))
  {
    InsertSameOrder(list, id, ItemValue(timers), Due(timers));
  }

  function ItemValue(timers: map<Id, Timer>): Id -> nat {
    x => if x in timers then timers[x].itemValue else 0
  }

  lemma UpdateKeepsValid(s: State, id: Id, t: Timer, era: nat, clock: nat)
    requires Valid(s, era, clock) && 0 < t.period < TICKS
    requires Listed(s, id) && id in s.timers ==>
      && t.due == s.timers[id].due && t.itemValue == s.timers[id].itemValue && t.period == s.timers[id].period
      && t.active == s.timers[id].active
    ensures Valid(Update(s, id, t), era, clock)
  {
    hide ListOk;
    ListFrame(s.timers, s.timers[id := t], s.current, era, clock, clock);
    ListFrame(s.timers, s.timers[id := t], s.overflow, era + 1, clock, clock);
  }

  lemma TimePasses(s: State, era: nat, clock: nat, clock': nat)
    requires Valid(s, era, clock) && clock <= clock'
    ensures Valid(s, era, clock')
  {
    hide ListOk;
    ListFrame(s.timers, s.timers, s.current, era, clock, clock');
    ListFrame(s.timers, s.timers, s.overflow, era + 1, clock, clock');
  }

  lemma PutKeepsValid(s: State, id: Id, t: Timer, era: nat, clock: nat)
    requires Valid(s, era, clock) && !Listed(s, id)
    requires 0 < t.period < TICKS && t.active && TimerOk(t, clock) && (Epoch(t.due) == era || Epoch(t.due) == era + 1)
    ensures var s' := Put(s, id, t, era);
            && Valid(s', era, clock) && s'.timers == s.timers[id := t]
            && (forall x :: Listed(s', x) <==> Listed(s, x) || x == id)
            && (Epoch(t.due) != era ==> s'.current == s.current)
  {
    hide ListOk, Insert, TimerOk;
    UpdateKeepsValid(s, id, t, era, clock);
    var timers := s.timers[id := t];
    if Epoch(t.due) == era {
      ListInserted(timers, s.current, era, clock, id);
    } else {
      ListInserted(timers, s.overflow, era + 1, clock, id);
    }
  }

  lemma ReloadIsProgress(t: Timer, n: nat)
    requires t.due <= n && 0 < t.period && t.autoReload
    ensures Progress(t, t.Called(1).Called((n - t.due) / t.period).At(FirstAfter(t.due, n, t.period)), n)
  {}

  lemma ReloadedKeepsValid(s: State, id: Id, n: nat, era: nat, clock: nat)
    requires Valid(s, era, clock) && id in s.timers && !Listed(s, id) && s.timers[id].autoReload
    requires s.timers[id].active && s.timers[id].due <= n <= clock && Epoch(n) == era
    ensures FiredOk(s, id, n, Fired(s, id, s.timers[id].due, n)) && Valid(Fired(s, id, s.timers[id].due, n), era, clock)
  {
    hide ListOk, Insert, Progress, Epoch, Tick, FirstAfter, Put;
    var t := s.timers[id];
    var k, due := (n - t.due) / t.period, FirstAfter(t.due, n, t.period);
    NextEpoch(n, due);
    ReloadIsProgress(t, n);
    UpdateKeepsValid(s, id, t.Called(1), era, clock);
    PutKeepsValid(Update(s, id, t.Called(1)), id, t.Called(1).Called(k).At(due), era, clock);
  }

  // What the expiry of timer id does to the daemon's state.
  ghost predicate FiredOk(s: State, id: Id, n: nat, s': State)
    requires id in s.timers
  {
    && id in s'.timers && s'.timers == s.timers[id := s'.timers[id]]
    && Progress(s.timers[id], s'.timers[id], n) && Agrees(s', id)
    && s.timers[id].calls < s'.timers[id].calls
    && (forall x :: x != id ==> (Listed(s', x) <==> Listed(s, x)))
    && (n == LastOf(Epoch(n)) ==> s'.current == s.current)
    && (Listed(s', id) ==> n < s'.timers[id].due)
  }

  lemma FiredKeepsValid(s: State, id: Id, n: nat, era: nat, clock: nat)
    requires Valid(s, era, clock) && id in s.timers && !Listed(s, id)
    requires s.timers[id].active && s.timers[id].due <= n <= clock && Epoch(n) == era
    ensures FiredOk(s, id, n, Fired(s, id, s.timers[id].due, n)) && Valid(Fired(s, id, s.timers[id].due, n), era, clock)
  {
    hide ListOk, Insert;
    if s.timers[id].autoReload {
      ReloadedKeepsValid(s, id, n, era, clock);
    } else {
      UpdateKeepsValid(s, id, s.timers[id].Called(1).(active := false), era, clock);
    }
  }

  // ---------------------------------------------------------------- expiries and rollover

  // The head of the current list expires, which is noticed at time n.
  function Expired(s: State, n: nat): State
    requires s.current != [] && s.current[0] in s.timers
    requires 0 < s.timers[s.current[0]].period && s.timers[s.current[0]].due <= n
  {
    var id := s.current[0];
    Fired(s.(current := Remove(s.current, id)), id, s.timers[id].due, n)
  }

  // What a step that handles no command of timer x does to it.
  predicate Moved(s: State, s': State, x: Id, clock: nat) {
    && (x in s.timers <==> x in s'.timers) && (Listed(s', x) ==> Listed(s, x))
    && (x in s.timers ==>
         && Progress(s.timers[x], s'.timers[x], clock)
         && (!Listed(s, x) ==> s'.timers[x] == s.timers[x])
         && (Agrees(s, x) ==> Agrees(s', x)))
  }

  lemma MovedTransitive(a: State, b: State, c: State, x: Id, clock: nat, clock': nat)
    requires Moved(a, b, x, clock) && Moved(b, c, x, clock') && clock <= clock'
    ensures Moved(a, c, x, clock')
  {
    hide Progress;
    if x in a.timers {
      ProgressTransitive(a.timers[x], b.timers[x], c.timers[x], clock, clock');
    }
  }

  // Every timer on a list is due no earlier than the head of that list.
  lemma HeadIsNext(s: State, list: seq<Id>, epoch: nat, clock: nat)
    requires ListOk(s.timers, list, epoch, clock) && list != []
    ensures list[0] in s.timers && TimerOk(s.timers[list[0]], clock) && s.timers[list[0]].active
    ensures Epoch(s.timers[list[0]].due) == epoch
    ensures forall x :: x in list ==> s.timers[list[0]].due <= s.timers[x].due
  {
    HeadIsLeast(list, Due(s.timers));
    forall x | x in list ensures s.timers[list[0]].due <= s.timers[x].due {
      assert Due(s.timers)(list[0]) <= Due(s.timers)(x);
    }
  }

  lemma UnlistKeepsValid(s: State, id: Id, era: nat, clock: nat)
    requires Valid(s, era, clock)
    ensures var s' := s.(current := Remove(s.current, id), overflow := Remove(s.overflow, id));
            Valid(s', era, clock) && (forall x :: Listed(s', x) <==> Listed(s, x) && x != id)
  {
    hide ListOk;
    ListRemoved(s.timers, s.current, era, clock, id);
    ListRemoved(s.timers, s.overflow, era + 1, clock, id);
  }

  lemma ExpiredKeepsValid(s: State, n: nat, era: nat, clock: nat)
    requires Valid(s, era, clock) && s.current != [] && s.current[0] in s.timers
    requires s.timers[s.current[0]].due <= n <= clock && Epoch(n) == era
    ensures Valid(Expired(s, n), era, clock)
    ensures forall x :: Moved(s, Expired(s, n), x, n)
    ensures n == LastOf(era) ==> Expired(s, n).current == s.current[1..]
    ensures s.current[0] in Expired(s, n).timers
    ensures s.timers[s.current[0]].calls < Expired(s, n).timers[s.current[0]].calls
    ensures forall x :: x != s.current[0] ==> (Listed(Expired(s, n), x) <==> Listed(s, x))
    ensures Listed(Expired(s, n), s.current[0]) <==> s.timers[s.current[0]].autoReload
  {
    hide ListOk, Fired, Progress;
    var id := s.current[0];
    HeadIsNext(s, s.current, era, clock);
    var u := s.(current := Remove(s.current, id));
    UnlistKeepsValid(s, id, era, clock);
    RemoveAbsent(s.overflow, id);
    assert u == s.(current := Remove(s.current, id), overflow := Remove(s.overflow, id));
    FiredKeepsValid(u, id, n, era, clock);
    CalledStaysActive(s.timers[id], Expired(s, n).timers[id], n);
    forall x ensures Moved(s, Expired(s, n), x, n) {
      if x != id && x in s.timers {
        ProgressReflexive(s.timers[x], n);
      }
    }
  }

  lemma CalledStaysActive(t: Timer, t': Timer, clock: nat)
    requires Progress(t, t', clock) && t.active && t.calls < t'.calls
    ensures t'.active <==> t.autoReload
  {}

  lemma ProgressReflexive(t: Timer, clock: nat)
    ensures Progress(t, t, clock)
  {}

  // The tick counter has wrapped: what is left on the current list has expired, and is processed as
  // of the last tick of the epoch; then the lists are swapped.
  function Switched(s: State, era: nat): State
    requires Valid(s, era, LastOf(era))
    decreases |s.current|
  {
    if s.current == [] then State(s.timers, s.overflow, []) else
      HeadIsNext(s, s.current, era, LastOf(era));
      ExpiredKeepsValid(s, LastOf(era), era, LastOf(era));
      Switched(Expired(s, LastOf(era)), era)
  }

  lemma {:induction false} SwitchedKeepsValid(s: State, era: nat, clock: nat)
    requires Valid(s, era, LastOf(era)) && LastOf(era) <= clock
    ensures Valid(Switched(s, era), era + 1, LastOf(era))
    ensures forall x :: Moved(s, Switched(s, era), x, clock)
    decreases |s.current|
  {
    hide Progress, Expired;
    if s.current == [] {
      forall x ensures Moved(s, Switched(s, era), x, clock) {
        if x in s.timers {
          ProgressReflexive(s.timers[x], clock);
        }
      }
    } else {
      HeadIsNext(s, s.current, era, LastOf(era));
      ExpiredKeepsValid(s, LastOf(era), era, LastOf(era));
      var s1 := Expired(s, LastOf(era));
      SwitchedKeepsValid(s1, era, clock);
      forall x ensures Moved(s, Switched(s, era), x, clock) {
        MovedTransitive(s, s1, Switched(s1, era), x, LastOf(era), clock);
      }
    }
  }

  // A timer that is still on a list after the switch: one that reloads itself, or is due later.
  predicate Stays(s: State, x: Id) {
    x in s.overflow || (x in s.current && x in s.timers && s.timers[x].autoReload)
  }

  lemma {:induction false} SwitchedStays(s: State, era: nat)
    requires Valid(s, era, LastOf(era))
    ensures forall x :: Listed(Switched(s, era), x) <==> Stays(s, x)
    decreases |s.current|
  {
    hide Progress, Expired;
    if s.current != [] {
      HeadIsNext(s, s.current, era, LastOf(era));
      ExpiredKeepsValid(s, LastOf(era), era, LastOf(era));
      var s1 := Expired(s, LastOf(era));
      SwitchedStays(s1, era);
      forall x ensures Stays(s1, x) <==> Stays(s, x) {
        ExpiredStays(s, s1, era, x);
      }
    }
  }

  lemma ExpiredStays(s: State, s1: State, era: nat, x: Id)
    requires Valid(s, era, LastOf(era)) && Valid(s1, era, LastOf(era))
    requires s.current != [] && s.current[0] in s.timers && s1.current == s.current[1..]
    requires forall y :: y != s.current[0] ==> (Listed(s1, y) <==> Listed(s, y))
    requires Listed(s1, s.current[0]) <==> s.timers[s.current[0]].autoReload
    requires Moved(s, s1, x, LastOf(era))
    ensures Stays(s1, x) <==> Stays(s, x)
  {
    hide Sorted, TimerOk;
    SplitDistinct(s.current, 1);
    assert s.current[..1] == [s.current[0]];
  }

  // prvSampleTimeNow, at time t: a tick count below the last one means that the counter has wrapped.
  function Sampled(s: State, clock: nat, t: nat): State
    requires Valid(s, Epoch(clock), clock)
  {
    if Tick(t) < Tick(clock) then
      EpochEnd(clock);
      TimePasses(s, Epoch(clock), clock, LastOf(Epoch(clock)));
      Switched(s, Epoch(clock))
    else s
  }

  lemma EpochEnd(clock: nat)
    ensures clock <= LastOf(Epoch(clock))
  {}

  // The sample comes less than 2^32 ticks after the last one, or it leaves no timer on a list.
  predicate Timely(s: State, clock: nat, t: nat) {
    && clock <= t
    && (t < clock + TICKS || (s.overflow == [] && (s.current == [] || (Tick(t) < Tick(clock) && AllOnce(s)))))
  }

  predicate AllOnce(s: State) { forall x :: x in s.current && x in s.timers ==> !s.timers[x].autoReload }

  lemma NextSample(clock: nat, t: nat)
    requires clock <= t < clock + TICKS
    ensures clock <= LastOf(Epoch(clock))
    ensures if Epoch(t) == Epoch(clock) then Tick(clock) <= Tick(t)
            else Epoch(t) == Epoch(clock) + 1 && Tick(t) < Tick(clock) && LastOf(Epoch(clock)) < t
  {}

  // A sample after more ticks than the counter can tell.
  lemma LateSample(clock: nat, t: nat)
    requires clock + TICKS <= t
    ensures clock <= LastOf(Epoch(clock)) && LastOf(Epoch(clock)) < t
    ensures if Tick(t) < Tick(clock) then Epoch(clock) + 2 <= Epoch(t) else Epoch(clock) + 1 <= Epoch(t)
  {}

  // With no timer on a list it makes no difference what time it is.
  lemma NothingListed(s: State, era: nat, clock: nat, era': nat, clock': nat)
    requires Valid(s, era, clock) && forall x :: !Listed(s, x)
    ensures Valid(s, era', clock')
  {
    HeadIsOnList(s);
    assert s.current == [] && s.overflow == [];
  }

  lemma HeadIsOnList(s: State)
    ensures s.current != [] ==> exists x :: Listed(s, x)
    ensures s.overflow != [] ==> exists x :: Listed(s, x)
  {
    if s.current != [] {
      assert Listed(s, s.current[0]);
    } else if s.overflow != [] {
      assert Listed(s, s.overflow[0]);
    }
  }

  lemma AllOnceStays(s: State)
    requires s.overflow == [] && AllOnce(s)
    ensures forall x :: !Stays(s, x)
  {}

  lemma StillMoved(s: State, t: nat)
    ensures forall x :: Moved(s, s, x, t)
  {
    hide Progress;
    forall x ensures Moved(s, s, x, t) {
      if x in s.timers {
        ProgressReflexive(s.timers[x], t);
      }
    }
  }

  lemma SampledKeepsValid(s: State, clock: nat, t: nat)
    requires Valid(s, Epoch(clock), clock) && Timely(s, clock, t)
    ensures Valid(Sampled(s, clock, t), Epoch(t), t)
    ensures forall x :: Moved(s, Sampled(s, clock, t), x, t)
  {
    hide Moved, ListOk, Switched, Valid, Epoch, Tick, LastOf, AllOnce, Stays;
    EpochEnd(clock);
    TimePasses(s, Epoch(clock), clock, LastOf(Epoch(clock)));
    var late := clock + TICKS <= t;
    if late {
      LateSample(clock, t);
    } else {
      NextSample(clock, t);
    }
    if Tick(t) < Tick(clock) {
      SwitchedKeepsValid(s, Epoch(clock), t);
      SwitchedStays(s, Epoch(clock));
      if late {
        NoneOnce(s);
        AllOnceStays(s);
        NothingListed(Sampled(s, clock, t), Epoch(clock) + 1, LastOf(Epoch(clock)), Epoch(t), t);
      } else {
        TimePasses(Sampled(s, clock, t), Epoch(t), LastOf(Epoch(clock)), t);
      }
    } else {
      StillMoved(s, t);
      if late {
        NothingListed(s, Epoch(clock), clock, Epoch(t), t);
      } else {
        TimePasses(s, Epoch(clock), clock, t);
      }
    }
  }

  lemma NoneOnce(s: State)
    ensures s.current == [] ==> AllOnce(s)
  {}

  // What a late sample leaves on a list is on the wrong one.
  lemma LateIsWrong(s: State, era: nat, clock: nat, late: nat, t: nat, x: Id)
    requires Valid(s, era, clock) && Listed(s, x) && era < late
    ensures !Valid(s, late, t)
  {}

  // Taking a sample keeps the lists right exactly if it comes in time: with a timer left on a list the
  // code cannot tell that the counter has gone round once more, without one it need not.
  lemma SampleIsRightIff(s: State, clock: nat, t: nat)
    requires Settled(s, clock) && clock <= t
    ensures Settled(Sampled(s, clock, t), t) <==> Timely(s, clock, t)
  {
    hide ListOk, Switched, Valid, Epoch, Tick, LastOf, Stays, Progress;
    if Timely(s, clock, t) {
      SampledKeepsValid(s, clock, t);
      forall x ensures Agrees(Sampled(s, clock, t), x) {
        assert Moved(s, Sampled(s, clock, t), x, t) && Agrees(s, x);
      }
    } else {
      LateSample(clock, t);
      TimePasses(s, Epoch(clock), clock, LastOf(Epoch(clock)));
      if Tick(t) < Tick(clock) {
        SwitchedKeepsValid(s, Epoch(clock), t);
        SwitchedStays(s, Epoch(clock));
        var x := SomethingStays(s, Epoch(clock), clock);
        LateIsWrong(Sampled(s, clock, t), Epoch(clock) + 1, LastOf(Epoch(clock)), Epoch(t), t, x);
      } else {
        var x := if s.current != [] then s.current[0] else s.overflow[0];
        LateIsWrong(s, Epoch(clock), clock, Epoch(t), t, x);
      }
    }
  }

  lemma SomethingStays(s: State, era: nat, clock: nat) returns (x: Id)
    requires Valid(s, era, clock)
    requires s.overflow != [] || (s.current != [] && !AllOnce(s))
    ensures Stays(s, x)
  {
    hide Valid;
    if s.overflow != [] {
      x := s.overflow[0];
    } else {
      x :| x in s.current && x in s.timers && s.timers[x].autoReload;
    }
  }

  // ---------------------------------------------------------------- commands and passes

  // The FROM_ISR variants of the commands are handled like the others.
  datatype Command = Start | Stop | ChangePeriod | Delete

  // A command on the timer queue; `at` is the unbounded time behind a start command's value, and
  // `seen` the time the daemon samples when it takes the command off the queue.
  datatype Message = Message(command: Command, id: Id, value: nat, at: nat, seen: nat)

  // The timer exists, the sample comes in time once it is off its list, a start command has not waited
  // for 2^32 ticks, and the value is what the API sends.
  predicate Sendable(s: State, clock: nat, m: Message) {
    && m.id in s.timers && Timely(Unlisted(s, m.id), clock, m.seen)
    && (m.command == Start ==> m.at <= m.seen < m.at + TICKS && m.value == Tick(m.at))
    && (m.command == ChangePeriod ==> 0 < m.value < TICKS)
  }

  // The timer is taken off its list.
  function Unlisted(s: State, id: Id): State {
    s.(current := Remove(s.current, id), overflow := Remove(s.overflow, id))
  }

  // The command itself, once the timer is off its list and the time has been sampled.
  function Obeyed(s: State, m: Message): State
    requires m.id in s.timers && 0 < s.timers[m.id].period && (m.command == Start ==> m.at <= m.seen)
  {
    var t := s.timers[m.id];
    match m.command
    case Start =>
      var started := t.(active := true).At(m.at + t.period);
      if m.at + t.period <= m.seen then Fired(Update(s, m.id, started), m.id, m.at + t.period, m.seen)
      else Put(s, m.id, started, Epoch(m.seen))
    case Stop => Update(s, m.id, t.(active := false))
    case ChangePeriod =>
      Put(s, m.id, t.(active := true, period := m.value).At(m.seen + m.value), Epoch(m.seen))
    case Delete =>
      if t.isStatic then Update(s, m.id, t.(active := false)) else s.(timers := s.timers - {m.id})
  }

  function Handled(s: State, clock: nat, m: Message): State
    requires Valid(s, Epoch(clock), clock) && Sendable(s, clock, m)
  {
    UnlistKeepsValid(s, m.id, Epoch(clock), clock);
    SampledKeepsValid(Unlisted(s, m.id), clock, m.seen);
    assert Moved(Unlisted(s, m.id), Sampled(Unlisted(s, m.id), clock, m.seen), m.id, m.seen);
    Obeyed(Sampled(Unlisted(s, m.id), clock, m.seen), m)
  }

  // What a command of timer id does to the other timers.
  predicate Elsewhere(s: State, s': State, x: Id) {
    && (Listed(s', x) <==> Listed(s, x))
    && (x in s'.timers <==> x in s.timers) && (x in s.timers ==> s'.timers[x] == s.timers[x])
  }

  lemma StartObeyed(s: State, m: Message)
    requires Valid(s, Epoch(m.seen), m.seen) && m.id in s.timers && !Listed(s, m.id)
    requires m.command == Start && m.at <= m.seen
    ensures Valid(Obeyed(s, m), Epoch(m.seen), m.seen) && Agrees(Obeyed(s, m), m.id)
    ensures forall x :: x != m.id ==> Elsewhere(s, Obeyed(s, m), x)
    ensures m.id in Obeyed(s, m).timers
    ensures Progress(s.timers[m.id].(active := true).At(m.at + s.timers[m.id].period),
                     Obeyed(s, m).timers[m.id], m.seen)
  {
    hide ListOk, Fired, Progress, Tick, Epoch;
    var t := s.timers[m.id];
    var started := t.(active := true).At(m.at + t.period);
    if m.at + t.period <= m.seen {
      UpdateKeepsValid(s, m.id, started, Epoch(m.seen), m.seen);
      FiredKeepsValid(Update(s, m.id, started), m.id, m.seen, Epoch(m.seen), m.seen);
    } else {
      NextEpoch(m.seen, m.at + t.period);
      ProgressReflexive(started, m.seen);
      PutKeepsValid(s, m.id, started, Epoch(m.seen), m.seen);
    }
  }

  lemma FreeKeepsValid(s: State, id: Id, era: nat, clock: nat)
    requires Valid(s, era, clock) && !Listed(s, id)
    ensures Valid(s.(timers := s.timers - {id}), era, clock)
  {
    hide ListOk;
    var timers := s.timers - {id};
    ListFrame(s.timers, timers, s.current, era, clock, clock);
    ListFrame(s.timers, timers, s.overflow, era + 1, clock, clock);
  }

  lemma ObeyedKeepsValid(s: State, m: Message)
    requires Valid(s, Epoch(m.seen), m.seen) && m.id in s.timers && !Listed(s, m.id)
    requires m.command == Start ==> m.at <= m.seen
    requires m.command == ChangePeriod ==> 0 < m.value < TICKS
    ensures Valid(Obeyed(s, m), Epoch(m.seen), m.seen) && Agrees(Obeyed(s, m), m.id)
    ensures forall x :: x != m.id ==> Elsewhere(s, Obeyed(s, m), x)
  {
    hide ListOk, Progress, Tick, Epoch, Fired, Insert;
    var t := s.timers[m.id];
    match m.command {
      case Start => StartObeyed(s, m);
      case Stop => UpdateKeepsValid(s, m.id, t.(active := false), Epoch(m.seen), m.seen);
      case ChangePeriod => ChangeObeyed(s, m);
      case Delete =>
        if t.isStatic {
          UpdateKeepsValid(s, m.id, t.(active := false), Epoch(m.seen), m.seen);
        } else {
          FreeKeepsValid(s, m.id, Epoch(m.seen), m.seen);
        }
    }
  }

  lemma ChangeObeyed(s: State, m: Message)
    requires Valid(s, Epoch(m.seen), m.seen) && m.id in s.timers && !Listed(s, m.id)
    requires m.command == ChangePeriod && 0 < m.value < TICKS
    ensures Valid(Obeyed(s, m), Epoch(m.seen), m.seen) && Agrees(Obeyed(s, m), m.id)
    ensures forall x :: x != m.id ==> Elsewhere(s, Obeyed(s, m), x)
    ensures m.id in Obeyed(s, m).timers
    ensures Progress(s.timers[m.id].(active := true, period := m.value).At(m.seen + m.value),
                     Obeyed(s, m).timers[m.id], m.seen)
  {
    hide ListOk, Tick, Epoch, Fired, Insert;
    var t := s.timers[m.id].(active := true, period := m.value).At(m.seen + m.value);
    NextEpoch(m.seen, m.seen + m.value);
    PutKeepsValid(s, m.id, t, Epoch(m.seen), m.seen);
  }

  lemma HandledKeepsSettled(s: State, clock: nat, m: Message)
    requires Settled(s, clock) && Sendable(s, clock, m)
    ensures Settled(Handled(s, clock, m), m.seen)
    ensures forall x :: x != m.id ==> Moved(s, Handled(s, clock, m), x, m.seen)
  {
    hide ListOk, Progress, Obeyed, Sampled;
    var u := Unlisted(s, m.id);
    UnlistKeepsValid(s, m.id, Epoch(clock), clock);
    SampledKeepsValid(u, clock, m.seen);
    var v := Sampled(u, clock, m.seen);
    assert Moved(u, v, m.id, m.seen);
    ObeyedKeepsValid(v, m);
    forall x ensures x != m.id ==> Moved(s, Obeyed(v, m), x, m.seen) && Agrees(Obeyed(v, m), x) {
      if x != m.id {
        assert Moved(u, v, x, m.seen) && Agrees(s, x) && Elsewhere(v, Obeyed(v, m), x);
      }
    }
  }

  // One pass of the daemon that takes no command: prvProcessTimerOrBlockTask at time t.
  function Passed(s: State, clock: nat, t: nat): State
    requires Valid(s, Epoch(clock), clock) && Timely(s, clock, t)
  {
    if Tick(t) < Tick(clock) then Sampled(s, clock, t)
    else if s.current == [] then s
    else
      HeadIsNext(s, s.current, Epoch(clock), clock);
      if s.timers[s.current[0]].due <= t then Expired(s, t) else s
  }

  lemma PassedKeepsSettled(s: State, clock: nat, t: nat)
    requires Settled(s, clock) && Timely(s, clock, t)
    ensures Settled(Passed(s, clock, t), t)
    ensures forall x :: Moved(s, Passed(s, clock, t), x, t)
  {
    hide ListOk, Progress, Expired, Epoch, Tick;
    SampledKeepsValid(s, clock, t);
    var s' := Passed(s, clock, t);
    if Tick(t) >= Tick(clock) && s.current != [] {
      NextSample(clock, t);
      HeadIsNext(s, s.current, Epoch(clock), clock);
      if s.timers[s.current[0]].due <= t {
        TimePasses(s, Epoch(clock), clock, t);
        ExpiredKeepsValid(s, t, Epoch(t), t);
      }
    }
    assert Valid(s', Epoch(t), t);
    forall x ensures Agrees(s', x) {
      assert Moved(s, s', x, t) && Agrees(s, x);
    }
  }

  // ---------------------------------------------------------------- whole runs

  datatype Event =
    | Create(id: Id, period: nat, reloads: bool, isStatic: bool)
    | SetReloadMode(id: Id, reloads: bool)
    | Receive(message: Message)
    | Pass(time: nat)

  ghost predicate Enabled(s: State, clock: nat, e: Event) {
    match e
    case Create(id, period, _, _) => id !in s.timers && 0 < period < TICKS
    case SetReloadMode(id, _) => id in s.timers
    case Receive(m) => Sendable(s, clock, m)
    case Pass(t) => Timely(s, clock, t)
  }

  ghost function Step(s: State, clock: nat, e: Event): State
    requires Settled(s, clock) && Enabled(s, clock, e)
  {
    match e
    case Create(id, period, reloads, isStatic) => Update(s, id, Timer(period, reloads, false, isStatic, 0, 0, 0))
    case SetReloadMode(id, reloads) => Update(s, id, s.timers[id].(autoReload := reloads))
    case Receive(m) => Handled(s, clock, m)
    case Pass(t) => Passed(s, clock, t)
  }

  function Time(clock: nat, e: Event): nat {
    match e case Receive(m) => m.seen case Pass(t) => t case _ => clock
  }

  predicate Concerns(e: Event, id: Id) {
    match e
    case Create(x, _, _, _) => x == id
    case SetReloadMode(x, _) => x == id
    case Receive(m) => m.id == id
    case Pass(_) => false
  }

  lemma StepKeepsSettled(s: State, clock: nat, e: Event)
    requires Settled(s, clock) && Enabled(s, clock, e)
    ensures Settled(Step(s, clock, e), Time(clock, e)) && clock <= Time(clock, e)
    ensures forall x :: !Concerns(e, x) ==> Moved(s, Step(s, clock, e), x, Time(clock, e))
  {
    hide ListOk, Progress, Handled, Passed;
    match e {
      case Create(id, period, reloads, isStatic) =>
        if Listed(s, id) {
          ListedExists(s, clock, id);
        }
        UpdateSettled(s, id, Timer(period, reloads, false, isStatic, 0, 0, 0), clock);
      case SetReloadMode(id, reloads) =>
        assert Agrees(s, id);
        UpdateSettled(s, id, s.timers[id].(autoReload := reloads), clock);
      case Receive(m) => HandledKeepsSettled(s, clock, m);
      case Pass(t) => PassedKeepsSettled(s, clock, t);
    }
  }

  lemma ListedExists(s: State, clock: nat, x: Id)
    requires Settled(s, clock) && Listed(s, x)
    ensures x in s.timers
  {}

  lemma UpdateSettled(s: State, id: Id, t: Timer, clock: nat)
    requires Settled(s, clock) && 0 < t.period < TICKS && (t.active <==> Listed(s, id))
    requires Listed(s, id) && id in s.timers ==>
      t.due == s.timers[id].due && t.itemValue == s.timers[id].itemValue && t.period == s.timers[id].period
    ensures Settled(Update(s, id, t), clock)
    ensures forall x :: x != id ==> Moved(s, Update(s, id, t), x, clock)
  {
    hide ListOk, Progress;
    assert Agrees(s, id);
    UpdateKeepsValid(s, id, t, Epoch(clock), clock);
    var s' := Update(s, id, t);
    forall x ensures Agrees(s', x) && (x != id ==> Moved(s, s', x, clock)) {
      assert Agrees(s, x);
      if x != id && x in s.timers {
        ProgressReflexive(s.timers[x], clock);
      }
    }
  }

  ghost predicate Possible(s: State, clock: nat, events: seq<Event>)
    requires Settled(s, clock)
    decreases |events|
  {
    events != [] ==>
      && Enabled(s, clock, events[0])
      && (StepKeepsSettled(s, clock, events[0]);
          Possible(Step(s, clock, events[0]), Time(clock, events[0]), events[1..]))
  }

  ghost function After(s: State, clock: nat, events: seq<Event>): (State, nat)
    requires Settled(s, clock) && Possible(s, clock, events)
    decreases |events|
  {
    if events == [] then (s, clock) else
      StepKeepsSettled(s, clock, events[0]);
      After(Step(s, clock, events[0]), Time(clock, events[0]), events[1..])
  }

  // In every run both lists hold what they should, and a timer that is given no command only moves
  // from expiry to expiry.
  lemma {:induction false} RunKeepsSettled(s: State, clock: nat, events: seq<Event>)
    requires Settled(s, clock) && Possible(s, clock, events)
    ensures var (s', n) := After(s, clock, events);
            && Settled(s', n) && clock <= n
            && forall x :: (forall e :: e in events ==> !Concerns(e, x)) ==> Moved(s, s', x, n)
    decreases |events|
  {
    hide ListOk, Progress, Step, Enabled, Concerns;
    if events == [] {
      forall x ensures Moved(s, s, x, clock) {
        if x in s.timers {
          ProgressReflexive(s.timers[x], clock);
        }
      }
    } else {
      StepKeepsSettled(s, clock, events[0]);
      var s1, t1 := Step(s, clock, events[0]), Time(clock, events[0]);
      RunKeepsSettled(s1, t1, events[1..]);
      var (s', n) := After(s, clock, events);
      forall x | forall e :: e in events ==> !Concerns(e, x) ensures Moved(s, s', x, n) {
        assert !Concerns(events[0], x);
        assert forall e :: e in events[1..] ==> e in events;
        MovedTransitive(s, s1, s', x, t1, n);
      }
    }
  }

  // When the daemon finds nothing expired at the time of its last sample.
  predicate Idle(s: State, clock: nat) {
    s.current != [] && s.current[0] in s.timers ==> clock < s.timers[s.current[0]].due
  }

  lemma NothingDueWhenIdle(s: State, clock: nat, x: Id)
    requires Settled(s, clock) && Idle(s, clock) && Listed(s, x)
    ensures x in s.timers && clock < s.timers[x].due <= clock + s.timers[x].period
  {
    if x in s.current {
      HeadIsNext(s, s.current, Epoch(clock), clock);
    }
  }

  // The callbacks of a timer that was pending with due time d and has had no command since: if it
  // reloads itself, one for each of d, d + p, d + 2p, ... up to n; if not, one if d is not after n.
  lemma CallbacksAreExact(s: State, clock: nat, events: seq<Event>, id: Id)
    requires Settled(s, clock) && Possible(s, clock, events)
    requires id in s.timers && s.timers[id].active
    requires forall e :: e in events ==> !Concerns(e, id)
    requires Idle(After(s, clock, events).0, After(s, clock, events).1)
    ensures var t := s.timers[id]; var (s', n) := After(s, clock, events);
            && id in s'.timers
            && var t' := s'.timers[id];
               if t.autoReload then
                 && t'.calls == t.calls + (if n < t.due then 0 else (n - t.due) / t.period + 1)
                 && t'.active && t'.due == t.due + (t'.calls - t.calls) * t.period && n < t'.due <= n + t.period
               else t'.calls == t.calls + (if n < t.due then 0 else 1) && (t'.active <==> n < t.due)
  {
    hide ListOk, After, Possible, Concerns, Epoch;
    RunKeepsSettled(s, clock, events);
    var (s', n) := After(s, clock, events);
    assert Moved(s, s', id, n) && Agrees(s, id) && Agrees(s', id);
    var t, t' := s.timers[id], s'.timers[id];
    if t'.active {
      NothingDueWhenIdle(s', n, id);
    }
    if t.autoReload {
      CountFromDue(t.due, t.period, t'.calls - t.calls, n);
    }
  }

  lemma CountFromDue(d: nat, p: nat, k: nat, n: nat)
    requires 0 < p && n < d + k * p <= n + p
    ensures k == if n < d then 0 else (n - d) / p + 1
  {
    if n < d {
      if k > 0 {
        MulAtLeast(k, p);
      }
    } else {
      assert k > 0;
      assert (k - 1) * p == k * p - p;
      DivisionIsUnique(n - d, p, k - 1, n - d - (k - 1) * p);
    }
  }

  // ---------------------------------------------------------------- the code

  lemma PeriodOk(s: State, id: Id, era: nat, clock: nat)
    requires Valid(s, era, clock) && id in s.timers
    ensures 0 < s.timers[id].period < TICKS
  {}

  lemma UpdateKeepsUnlisted(s: State, id: Id, t: Timer, n: nat)
    requires Valid(s, Epoch(n), n) && !Listed(s, id) && 0 < t.period < TICKS
    ensures Valid(Update(s, id, t), Epoch(n), n) && !Listed(Update(s, id, t), id)
  {
    UpdateKeepsValid(s, id, t, Epoch(n), n);
  }

  // The k-th expiry after the one at time e.
  function Expiry(e: nat, k: nat, p: nat): nat { e + k * p }

  lemma ExpiryNext(e: nat, k: nat, p: nat)
    ensures Expiry(e, 0, p) == e && Expiry(e, k + 1, p) == Expiry(e, k, p) + p
  {
    assert (k + 1) * p == k * p + p;
  }

  lemma LastExpiry(e: nat, k: nat, p: nat, n: nat)
    requires 0 < p && Expiry(e, k, p) <= n < Expiry(e, k, p) + p
    ensures e <= n && k == (n - e) / p && Expiry(e, k, p) + p == FirstAfter(e, n, p)
  {
    DivisionIsUnique(n - e, p, k, n - Expiry(e, k, p));
  }

  lemma Overwrite(s: State, id: Id, t: Timer, t': Timer, era: nat)
    ensures Update(Update(s, id, t), id, t') == Update(s, id, t')
    ensures Put(Update(s, id, t), id, t', era) == Put(s, id, t', era)
  {
    assert s.timers[id := t][id := t'] == s.timers[id := t'];
  }

  // Inserting by item value, as the code does, is what Put says.
  lemma PutByItemValue(s: State, id: Id, t: Timer, n: nat)
    requires Valid(s, Epoch(n), n) && !Listed(s, id) && t.itemValue == Tick(t.due)
    ensures var timers := s.timers[id := t];
            && (Epoch(t.due) == Epoch(n) ==>
                 Put(s, id, t, Epoch(n)) == State(timers, Insert(s.current, id, ItemValue(timers)), s.overflow))
            && (Epoch(t.due) == Epoch(n) + 1 ==>
                 Put(s, id, t, Epoch(n)) == State(timers, s.current, Insert(s.overflow, id, ItemValue(timers))))
  {
    hide ListOk, Insert, Epoch, Tick;
    var timers := s.timers[id := t];
    ListFrame(s.timers, timers, s.current, Epoch(n), n, n);
    ListFrame(s.timers, timers, s.overflow, Epoch(n) + 1, n, n);
    if Epoch(t.due) == Epoch(n) {
      InsertByItemValue(timers, s.current, Epoch(n), n, id);
    } else if Epoch(t.due) == Epoch(n) + 1 {
      InsertByItemValue(timers, s.overflow, Epoch(n) + 1, n, id);
    }
  }

  // One iteration of prvReloadTimer's loop.
  lemma ReloadAgain(s: State, id: Id, e: nat, k: nat, n: nat)
    requires Valid(s, Epoch(n), n) && id in s.timers && !Listed(s, id) && s.timers[id].active
    requires Expiry(e, k, s.timers[id].period) + s.timers[id].period <= n
    ensures var t := s.timers[id];
            var at := Expiry(e, k, t.period) + t.period;
            var called, next := t.Called(k + 1).At(at), t.Called(k + 1).At(at + t.period);
            && at == Expiry(e, k + 1, t.period)
            && (Tick(Expiry(e, k, t.period)) + t.period) % TICKS == Tick(at)
            && (Tick(at) + t.period) % TICKS == Tick(at + t.period)
            && Update(Update(s, id, t.Called(k).At(at)), id, called) == Update(s, id, called)
            && Valid(Update(s, id, called), Epoch(n), n) && !Listed(Update(s, id, called), id)
            && Update(Update(s, id, called), id, next) == Update(s, id, next)
            && Put(Update(s, id, called), id, next, Epoch(n)) == Put(s, id, next, Epoch(n))
  {
    hide Valid, Put, Tick, Epoch, Expiry;
    var t := s.timers[id];
    var at := Expiry(e, k, t.period) + t.period;
    PeriodOk(s, id, Epoch(n), n);
    ExpiryNext(e, k, t.period);
    WrappedSum(Expiry(e, k, t.period), t.period);
    WrappedSum(at, t.period);
    UpdateKeepsUnlisted(s, id, t.Called(k + 1).At(at), n);
    Overwrite(s, id, t.Called(k).At(at), t.Called(k + 1).At(at), Epoch(n));
    Overwrite(s, id, t.Called(k + 1).At(at), t.Called(k + 1).At(at + t.period), Epoch(n));
  }

  // The callback for the expiry itself comes after the timer is back on a list; a list does not
  // depend on the number of callbacks.
  lemma CallAfterPut(s: State, id: Id, t: Timer, era: nat)
    ensures Update(Put(s, id, t, era), id, t.Called(1)) == Put(s, id, t.Called(1), era)
  {
    var timers, timers' := s.timers[id := t], s.timers[id := t.Called(1)];
    InsertSameOrder(s.current, id, Due(timers), Due(timers'));
    InsertSameOrder(s.overflow, id, Due(timers), Due(timers'));
    assert timers[id := t.Called(1)] == timers';
  }

  lemma CallAfterReload(s: State, id: Id, e: nat, n: nat)
    requires id in s.timers && 0 < s.timers[id].period && e <= n && s.timers[id].autoReload
    ensures id in Reloaded(s, id, e, n).timers
    ensures var r := Reloaded(s, id, e, n);
            Update(r, id, r.timers[id].Called(1)) == Fired(s, id, e, n)
  {
    hide Put, FirstAfter;
    var t, k := s.timers[id], (n - e) / s.timers[id].period;
    var due := FirstAfter(e, n, t.period);
    PutTimers(s, id, t.Called(k).At(due), Epoch(n));
    CallAfterPut(s, id, t.Called(k).At(due), Epoch(n));
    Overwrite(s, id, t.Called(1), t.Called(1).Called(k).At(due), Epoch(n));
  }

  lemma PutTimers(s: State, id: Id, t: Timer, era: nat)
    ensures Put(s, id, t, era).timers == s.timers[id := t]
  {}

  lemma FiredOnce(s: State, id: Id, e: nat, n: nat)
    requires id in s.timers && 0 < s.timers[id].period && e <= n && !s.timers[id].autoReload
    ensures Fired(s, id, e, n) == Update(s, id, s.timers[id].Called(1).(active := false))
  {}

  lemma ReceiveSetsUp(s: State, clock: nat, m: Message)
    requires Settled(s, clock) && Sendable(s, clock, m)
    ensures var u := Unlisted(s, m.id);
            && Valid(u, Epoch(clock), clock)
            && Valid(Sampled(u, clock, m.seen), Epoch(m.seen), m.seen)
            && m.id in Sampled(u, clock, m.seen).timers && !Listed(Sampled(u, clock, m.seen), m.id)
            && Handled(s, clock, m) == Obeyed(Sampled(u, clock, m.seen), m)
  {
    hide ListOk, Progress, Sampled, Obeyed;
    var u := Unlisted(s, m.id);
    UnlistKeepsValid(s, m.id, Epoch(clock), clock);
    SampledKeepsValid(u, clock, m.seen);
    assert Moved(u, Sampled(u, clock, m.seen), m.id, m.seen);
  }

  // The wrapped difference between the next expiry and the current time.
  lemma WaitIsSafe(s: State, clock: nat, t: nat)
    requires Settled(s, clock) && Timely(s, clock, t) && Tick(clock) <= Tick(t)
    ensures Valid(s, Epoch(t), t)
    ensures s.current != [] ==>
      && s.current[0] in s.timers && s.timers[s.current[0]].itemValue == Tick(s.timers[s.current[0]].due)
      && var due := s.timers[s.current[0]].due;
         && (Tick(due) <= Tick(t) <==> due <= t)
         && (t < due ==> t + (Tick(due) - Tick(t)) % TICKS == due)
         && forall x :: Listed(s, x) ==> x in s.timers && due <= s.timers[x].due
    ensures s.current == [] ==>
      && Tick(t + (0 - Tick(t)) % TICKS) == 0
      && forall x :: Listed(s, x) ==>
           x in s.timers && t + (0 - Tick(t)) % TICKS <= s.timers[x].due && t < s.timers[x].due
  {
    if t < clock + TICKS {
      NextSample(clock, t);
      TimePasses(s, Epoch(clock), clock, t);
    }
    if s.current != [] {
      HeadIsNext(s, s.current, Epoch(clock), clock);
      var due := s.timers[s.current[0]].due;
      SameEpoch(t, due);
      forall x | x in s.overflow ensures x in s.timers && due <= s.timers[x].due {
        LaterEpoch(due, s.timers[x].due);
      }
    } else {
      forall x | x in s.overflow
        ensures x in s.timers && t + (0 - Tick(t)) % TICKS <= s.timers[x].due && t < s.timers[x].due
      {
        LaterEpoch(t, s.timers[x].due);
      }
      Rollover(t);
    }
  }

  lemma SameEpoch(t: nat, due: nat)
    requires Epoch(t) == Epoch(due)
    ensures Tick(due) <= Tick(t) <==> due <= t
    ensures t < due ==> t + (Tick(due) - Tick(t)) % TICKS == due
  {}

  lemma Rollover(t: nat)
    ensures Tick(t + (0 - Tick(t)) % TICKS) == 0
  {}

  lemma LaterEpoch(t: nat, due: nat)
    requires Epoch(t) + 1 == Epoch(due)
    ensures t < due && t + (0 - Tick(t)) % TICKS <= due
  {}

  lemma HeadIsListed(s: State, era: nat)
    requires Valid(s, era, LastOf(era)) && s.current != []
    ensures s.current[0] in s.timers && s.timers[s.current[0]].due <= LastOf(era)
  {
    HeadIsNext(s, s.current, era, LastOf(era));
  }

  lemma UnlistedHead(s: State, n: nat)
    requires Valid(s, Epoch(n), n) && s.current != [] && s.current[0] in s.timers && s.timers[s.current[0]].due <= n
    ensures var s' := s.(current := Remove(s.current, s.current[0]));
            Valid(s', Epoch(n), n) && !Listed(s', s.current[0])
    ensures n < s.timers[s.current[0]].due + TICKS
  {
    hide ListOk;
    var id := s.current[0];
    RemoveAbsent(s.overflow, id);
    UnlistKeepsValid(s, id, Epoch(n), n);
    HeadIsNext(s, s.current, Epoch(n), n);
    assert s.(current := Remove(s.current, id))
           == s.(current := Remove(s.current, id), overflow := Remove(s.overflow, id));
  }

  function Receipts(queue: seq<Message>): seq<Event> {
    if queue == [] then [] else [Receive(queue[0])] + Receipts(queue[1..])
  }

  lemma FirstMessage(s: State, clock: nat, queue: seq<Message>)
    requires Settled(s, clock) && Possible(s, clock, Receipts(queue)) && queue != []
    ensures var m := queue[0];
            && Sendable(s, clock, m) && Settled(Handled(s, clock, m), m.seen)
            && Possible(Handled(s, clock, m), m.seen, Receipts(queue[1..]))
            && After(s, clock, Receipts(queue)) == After(Handled(s, clock, m), m.seen, Receipts(queue[1..]))
  {
    hide Settled, Handled, Sendable;
    var m := queue[0];
    assert Receipts(queue)[1..] == Receipts(queue[1..]) && Receipts(queue)[0] == Receive(m);
    StepKeepsSettled(s, clock, Receive(m));
  }

  lemma NoMessage(s: State, clock: nat)
    requires Settled(s, clock)
    ensures Possible(s, clock, Receipts([])) && After(s, clock, Receipts([])) == (s, clock)
  {}

  // How long the daemon waits for a command: some ticks, or without limit.
  datatype Outcome = ListsSwitched | Processed | Blocked(ticks: nat, indefinitely: bool)

  // Each method takes, besides the tick counts that the code sees, the unbounded times behind them;
  // these only go into `due` and `clock`.
  class Daemon {
    var timers: map<Id, Timer>
    var current: seq<Id>            // *pxCurrentTimerList
    var overflow: seq<Id>           // *pxOverflowTimerList
    var lastTime: nat               // xLastTime
    var clock: nat                  // history: the unbounded time of the last sample

    function Contents(): State
      reads this
    {
      State(timers, current, overflow)
    }

    ghost predicate Ready()
      reads this
    {
      Settled(Contents(), clock) && lastTime == Tick(clock)
    }

    constructor ()
      ensures Ready() && Contents() == State(map[], [], []) && clock == 0
    {
      timers, current, overflow, lastTime, clock := map[], [], [], 0, 0;
    }

    // prvInitialiseNewTimer
    method InitialiseNewTimer(id: Id, period: nat, autoReload: bool, isStatic: bool)
      requires Ready() && Enabled(Contents(), clock, Create(id, period, autoReload, isStatic))
      modifies this`timers
      ensures Ready() && Contents() == Step(old(Contents()), clock, Create(id, period, autoReload, isStatic))
    {
      StepKeepsSettled(Contents(), clock, Create(id, period, autoReload, isStatic));
      timers := timers[id := Timer(period, autoReload, false, isStatic, 0, 0, 0)];
    }

    // vTimerSetReloadMode
    method SetReload(id: Id, autoReload: bool)
      requires Ready() && Enabled(Contents(), clock, SetReloadMode(id, autoReload))
      modifies this`timers
      ensures Ready() && Contents() == Step(old(Contents()), clock, SetReloadMode(id, autoReload))
    {
      StepKeepsSettled(Contents(), clock, SetReloadMode(id, autoReload));
      timers := timers[id := timers[id].(autoReload := autoReload)];
    }

    // prvInsertTimerInActiveList, for a command given at time c and processed at time n.
    method InsertTimerInActiveList(id: Id, nextExpiry: nat, now: nat, command: nat, c: nat, n: nat)
      returns (processNow: bool)
      requires Valid(Contents(), Epoch(n), n) && id in timers && !Listed(Contents(), id) && timers[id].active
      requires c <= n < c + TICKS && command == Tick(c) && now == Tick(n)
      requires nextExpiry == Tick(c + timers[id].period)
      modifies this`timers, this`current, this`overflow
      ensures processNow <==> c + old(timers[id].period) <= n
      ensures Contents() == var s := old(Contents()); var t := s.timers[id].At(c + s.timers[id].period);
                            if processNow then Update(s, id, t) else Put(s, id, t, Epoch(n))
    {
      hide Valid, Insert, Epoch, Tick, Put, Decide;
      PeriodOk(Contents(), id, Epoch(n), n);
      var place := Decide(nextExpiry, now, command, timers[id].period);
      DecisionIsExact(c, n, timers[id].period);
      PutByItemValue(Contents(), id, timers[id].At(c + timers[id].period), n);
      timers := timers[id := timers[id].(itemValue := nextExpiry, due := c + timers[id].period)];
      match place {
        case ProcessNow =>
        case CurrentList => current := Insert(current, id, ItemValue(timers));
        case OverflowList => overflow := Insert(overflow, id, ItemValue(timers));
      }
      processNow := place == ProcessNow;
    }

    // The timer's callback function; what it does to the daemon is only to send commands.
    method Callback(id: Id)
      requires id in timers
      modifies this`timers
      ensures timers == old(timers)[id := old(timers)[id].Called(1)]
    {
      timers := timers[id := timers[id].(calls := timers[id].calls + 1)];
    }

    // prvReloadTimer, for an expiry at time e.
    method ReloadTimer(id: Id, expiredTime: nat, now: nat, e: nat, n: nat)
      requires Valid(Contents(), Epoch(n), n) && id in timers && !Listed(Contents(), id) && timers[id].active
      requires e <= n < e + TICKS && expiredTime == Tick(e) && now == Tick(n)
      modifies this`timers, this`current, this`overflow
      ensures id in old(timers) && 0 < old(timers[id].period)
      ensures Contents() == Reloaded(old(Contents()), id, e, n)
    {
      hide Valid, Insert, Epoch, Put, Tick, Expiry, FirstAfter, Listed;
      ghost var s, t := Contents(), timers[id];
      ghost var k := 0;
      var expired, at, period := expiredTime, e, timers[id].period;
      PeriodOk(s, id, Epoch(n), n);
      WrappedSum(e, period);
      ExpiryNext(e, 0, period);
      var processNow := InsertTimerInActiveList(id, (expired + period) % TICKS, now, expired, at, n);
      while processNow
        invariant e <= at <= n && expired == Tick(at) && at == Expiry(e, k, period)
        invariant processNow <==> at + period <= n
        invariant var t' := t.Called(k).At(at + period);
                  Contents() == if processNow then Update(s, id, t') else Put(s, id, t', Epoch(n))
        decreases n - at
      {
        ReloadAgain(s, id, e, k, n);
        expired := (expired + period) % TICKS;
        at := at + period;
        k := k + 1;
        Callback(id);
        processNow := InsertTimerInActiveList(id, (expired + period) % TICKS, now, expired, at, n);
      }
      LastExpiry(e, k, period, n);
    }

    // prvProcessExpiredTimer
    method ProcessExpiredTimer(nextExpireTime: nat, now: nat, n: nat)
      requires Valid(Contents(), Epoch(n), n) && current != [] && current[0] in timers
      requires timers[current[0]].due <= n && nextExpireTime == timers[current[0]].itemValue && now == Tick(n)
      modifies this`timers, this`current, this`overflow
      ensures old(current) != [] && old(current[0]) in old(timers)
      ensures 0 < old(timers[current[0]].period) && old(timers[current[0]].due) <= n
      ensures Contents() == Expired(old(Contents()), n)
    {
      hide ListOk, Insert, Put, Epoch, Tick, Reloaded, Fired;
      var id := current[0];
      ghost var s := Contents();
      HeadIsNext(s, current, Epoch(n), n);
      UnlistedHead(s, n);
      current := Remove(current, id);
      var e := timers[id].due;
      ghost var u := Contents();
      if timers[id].autoReload {
        CallAfterReload(u, id, e, n);
        ReloadTimer(id, nextExpireTime, now, e, n);
        Callback(id);
      } else {
        timers := timers[id := timers[id].(active := false)];
        Callback(id);
        Overwrite(u, id, u.timers[id].(active := false), u.timers[id].Called(1).(active := false), 0);
        FiredOnce(u, id, e, n);
      }
    }

    // prvSwitchTimerLists
    method SwitchTimerLists(era: nat)
      requires Valid(Contents(), era, LastOf(era))
      modifies this`timers, this`current, this`overflow
      ensures Contents() == Switched(old(Contents()), era)
    {
      hide ListOk, Expired, Valid, Epoch, Tick;
      EndOfEpoch(era);
      while current != []
        invariant Valid(Contents(), era, LastOf(era))
        invariant Switched(Contents(), era) == Switched(old(Contents()), era)
        decreases |current|
      {
        HeadIsListed(Contents(), era);
        var nextExpireTime := timers[current[0]].itemValue;
        ExpiredKeepsValid(Contents(), LastOf(era), era, LastOf(era));
        ProcessExpiredTimer(nextExpireTime, MAX_TIME_BEFORE_OVERFLOW, LastOf(era));
      }
      current, overflow := overflow, current;
    }

    // prvSampleTimeNow, at time t.
    method SampleTimeNow(t: nat) returns (now: nat, switched: bool)
      requires Valid(Contents(), Epoch(clock), clock) && lastTime == Tick(clock) && clock <= t
      modifies this
      ensures Contents() == Sampled(old(Contents()), old(clock), t) && clock == t
      ensures lastTime == now == Tick(t) && (switched <==> now < old(lastTime))
      ensures t < old(clock) + TICKS ==> (switched <==> Epoch(t) != Epoch(old(clock)))
    {
      hide Valid, Epoch, Tick, LastOf;
      if t < clock + TICKS {
        NextSample(clock, t);
      }
      EpochEnd(clock);
      now := Tick(t);
      switched := now < lastTime;
      if switched {
        TimePasses(Contents(), Epoch(clock), clock, LastOf(Epoch(clock)));
        SwitchTimerLists(Epoch(clock));
      }
      lastTime := now;
      clock := t;
    }

    // The start and reset commands of prvProcessReceivedCommands.
    method StartTimer(m: Message, now: nat)
      requires Valid(Contents(), Epoch(m.seen), m.seen) && m.id in timers && !Listed(Contents(), m.id)
      requires m.command == Start && m.at <= m.seen < m.at + TICKS && m.value == Tick(m.at) && now == Tick(m.seen)
      modifies this`timers, this`current, this`overflow
      ensures m.id in old(timers) && 0 < old(timers[m.id].period)
      ensures Contents() == Obeyed(old(Contents()), m)
    {
      hide Valid, Epoch, Tick, Fired, Reloaded, Put;
      ghost var s, t := Contents(), timers[m.id];
      PeriodOk(s, m.id, Epoch(m.seen), m.seen);
      ghost var started := t.(active := true).At(m.at + t.period);
      timers := timers[m.id := timers[m.id].(active := true)];
      UpdateKeepsUnlisted(s, m.id, timers[m.id], m.seen);
      Overwrite(s, m.id, timers[m.id], started, Epoch(m.seen));
      WrappedSum(m.at, t.period);
      var nextExpiry := (m.value + timers[m.id].period) % TICKS;
      var processNow := InsertTimerInActiveList(m.id, nextExpiry, now, m.value, m.at, m.seen);
      if processNow {
        UpdateKeepsUnlisted(s, m.id, started, m.seen);
        if timers[m.id].autoReload {
          CallAfterReload(Contents(), m.id, m.at + t.period, m.seen);
          ReloadTimer(m.id, (m.value + timers[m.id].period) % TICKS, now, timers[m.id].due, m.seen);
        } else {
          FiredOnce(Contents(), m.id, m.at + t.period, m.seen);
          Overwrite(s, m.id, started, started.(active := false), 0);
          timers := timers[m.id := timers[m.id].(active := false)];
        }
        Callback(m.id);
      }
    }

    // uxListRemove on whichever list the timer is on.
    method Unlist(id: Id)
      requires Valid(Contents(), Epoch(clock), clock)
      modifies this`current, this`overflow
      ensures Contents() == Unlisted(old(Contents()), id)
    {
      hide ListOk, Remove;
      if id in current {
        RemoveAbsent(overflow, id);
        current := Remove(current, id);
      } else {
        RemoveAbsent(current, id);
        if id in overflow {
          overflow := Remove(overflow, id);
        } else {
          RemoveAbsent(overflow, id);
        }
      }
    }

    // The commands of prvProcessReceivedCommands.
    method Obey(m: Message, now: nat)
      requires Valid(Contents(), Epoch(m.seen), m.seen) && m.id in timers && !Listed(Contents(), m.id)
      requires m.command == Start ==> m.at <= m.seen < m.at + TICKS && m.value == Tick(m.at)
      requires m.command == ChangePeriod ==> 0 < m.value < TICKS
      requires now == Tick(m.seen)
      modifies this`timers, this`current, this`overflow
      ensures m.id in old(timers) && 0 < old(timers[m.id].period)
      ensures Contents() == Obeyed(old(Contents()), m)
    {
      hide Valid, Epoch, Tick, Fired, Put;
      ghost var s := Contents();
      PeriodOk(s, m.id, Epoch(m.seen), m.seen);
      match m.command {
        case Start => StartTimer(m, now);
        case Stop => timers := timers[m.id := timers[m.id].(active := false)];
        case ChangePeriod =>
          ghost var t1 := timers[m.id].(active := true, period := m.value);
          timers := timers[m.id := timers[m.id].(active := true)];
          timers := timers[m.id := timers[m.id].(period := m.value)];
          assert Contents() == Update(s, m.id, t1) by { Overwrite(s, m.id, s.timers[m.id].(active := true), t1, 0); }
          UpdateKeepsUnlisted(s, m.id, t1, m.seen);
          Overwrite(s, m.id, t1, t1.At(m.seen + m.value), Epoch(m.seen));
          WrappedSum(m.seen, m.value);
          var _ := InsertTimerInActiveList(m.id, (now + timers[m.id].period) % TICKS, now, now, m.seen, m.seen);
        case Delete =>
          if timers[m.id].isStatic {
            timers := timers[m.id := timers[m.id].(active := false)];
          } else {
            timers := timers - {m.id};
          }
      }
    }

    // What prvProcessReceivedCommands does with one message.
    method HandleCommand(m: Message)
      requires Ready() && Sendable(Contents(), clock, m)
      modifies this
      ensures Valid(old(Contents()), Epoch(old(clock)), old(clock)) && Sendable(old(Contents()), old(clock), m)
      ensures Ready() && Contents() == Handled(old(Contents()), old(clock), m) && clock == m.seen
    {
      hide ListOk, Handled, Sampled, Obeyed, Tick, Epoch, Valid;
      ReceiveSetsUp(Contents(), clock, m);
      HandledKeepsSettled(Contents(), clock, m);
      Unlist(m.id);
      var now, _ := SampleTimeNow(m.seen);
      Obey(m, now);
    }

    // prvProcessReceivedCommands; `seen` in each message is the time sampled after receiving it.
    method ProcessReceivedCommands(queue: seq<Message>)
      requires Ready() && Possible(Contents(), clock, Receipts(queue))
      modifies this
      ensures old(Ready() && Possible(Contents(), clock, Receipts(queue)))
      ensures Ready()
      ensures (Contents(), clock) == After(old(Contents()), old(clock), Receipts(queue))
    {
      hide Settled, Handled, Sendable, Possible, After, Receipts, Tick;
      var i := 0;
      assert queue[0..] == queue;
      while i < |queue|
        invariant i <= |queue| && Ready() && Possible(Contents(), clock, Receipts(queue[i..]))
        invariant After(Contents(), clock, Receipts(queue[i..])) == After(old(Contents()), old(clock), Receipts(queue))
      {
        assert queue[i..][1..] == queue[i + 1..];
        FirstMessage(Contents(), clock, queue[i..]);
        HandleCommand(queue[i]);
        i := i + 1;
      }
      assert queue[i..] == [];
      NoMessage(Contents(), clock);
    }

    // prvGetNextExpireTime
    method GetNextExpireTime() returns (nextExpireTime: nat, listWasEmpty: bool)
      requires Ready()
      ensures listWasEmpty <==> current == []
      ensures nextExpireTime == if current == [] then 0 else Tick(Due(timers)(current[0]))
    {
      listWasEmpty := current == [];
      nextExpireTime := 0;
      if !listWasEmpty {
        HeadIsNext(Contents(), current, Epoch(clock), clock);
        nextExpireTime := timers[current[0]].itemValue;
      }
    }

    // prvProcessTimerOrBlockTask, at time t.  When the daemon waits, nothing on a list has expired; it
    // waits without limit only if both lists are empty, and otherwise no longer than until the first
    // timer is due or, when only the overflow list is occupied, until the tick counter wraps, which no
    // due time precedes.
    method ProcessTimerOrBlockTask(nextExpireTime: nat, listWasEmpty: bool, t: nat) returns (outcome: Outcome)
      requires Ready() && Timely(Contents(), clock, t)
      requires listWasEmpty <==> current == []
      requires nextExpireTime == if current == [] then 0 else Tick(Due(timers)(current[0]))
      modifies this
      ensures Ready() && clock == t && Contents() == Passed(old(Contents()), old(clock), t)
      ensures outcome.Blocked? ==>
        && Contents() == old(Contents())
        && (forall x :: Listed(Contents(), x) ==>
              x in timers && t < timers[x].due && t + outcome.ticks <= timers[x].due)
        && (outcome.indefinitely <==> current == [] && overflow == [])
        && (current != [] ==> current[0] in timers && t + outcome.ticks == timers[current[0]].due)
        && (current == [] ==> Tick(t + outcome.ticks) == 0)
    {
      hide Epoch, Expired, Tick, Switched, ListOk;
      PassedKeepsSettled(Contents(), clock, t);
      if Tick(t) >= Tick(clock) {
        WaitIsSafe(Contents(), clock, t);
      }
      var now, switched := SampleTimeNow(t);
      if switched {
        outcome := ListsSwitched;
      } else if !listWasEmpty && nextExpireTime <= now {
        ProcessExpiredTimer(nextExpireTime, now, t);
        outcome := Processed;
      } else {
        var indefinitely := listWasEmpty && overflow == [];
        outcome := Blocked((nextExpireTime - now) % TICKS, indefinitely);
      }
    }
  }
}
