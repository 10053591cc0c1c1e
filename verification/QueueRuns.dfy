/** Whole runs of the blocking protocol: no wake-up is lost on systems of at most 127 tasks, and only on
  * those.
  */
module QueueRuns {
  import opened QueueProtocol

  // A run is a sequence of actions, each enabled where it happens.
  predicate Possible(s: State, run: seq<Action>)
    decreases |run|
  {
    run == [] || (Enabled(s, run[0]) && Possible(Next(s, run[0]), run[1..]))
  }

  function After(s: State, run: seq<Action>): State
    requires Possible(s, run)
    decreases |run|
  {
    if run == [] then s else After(Next(s, run[0]), run[1..])
  }

  lemma {:induction false} RunKeepsInv(s: State, run: seq<Action>)
    requires Inv(s) && Possible(s, run)
    ensures Inv(After(s, run))
    decreases |run|
  {
    if run != [] {
      StepKeepsInv(s, run[0]);
      RunKeepsInv(Next(s, run[0]), run[1..]);
    }
  }

  // While a reader waits, every item in the queue has already unblocked a reader that is still to
  // look, or is counted in cTxLock, or the count has reached the number of tasks; and the same for
  // writers and free slots.
  predicate NothingLost(e: State) {
    && (e.readers.waiters != [] ==>
          e.count <= |e.readers.woken| + (if e.readers.lock < 0 then 0 else e.readers.lock)
          || e.readers.lock == e.Tasks())
    && (e.writers.waiters != [] ==>
          e.length - e.count <= |e.writers.woken| + (if e.writers.lock < 0 then 0 else e.writers.lock)
          || e.writers.lock == e.Tasks())
  }

  // If the scheduler runs and every unblocked task has looked at the queue again, readers wait only
  // on an empty queue and writers only on a full one, and every blocked task is on a list.
  predicate NobodyStranded(e: State) {
    e.holder == -1 && e.readers.woken == {} && e.writers.woken == {} ==>
      && (e.readers.waiters != [] ==> e.count == 0)
      && (e.writers.waiters != [] ==> e.count >= e.length)
      && (forall t: TaskId :: t < e.Tasks() && e.pc[t].Blocked? ==>
            t in (if e.pc[t].op.Reads() then e.readers.waiters else e.writers.waiters))
  }

  lemma InvIsSafe(e: State)
    requires Inv(e)
    ensures NothingLost(e) && NobodyStranded(e)
  {
    if e.holder == -1 && e.readers.woken == {} && e.writers.woken == {} {
      forall t: TaskId | t < e.Tasks() && e.pc[t].Blocked?
        ensures t in (if e.pc[t].op.Reads() then e.readers.waiters else e.writers.waiters)
      {
        assert TaskOk(e, t);
      }
    }
  }

  // Main theorem: from any empty queue, no interleaving of tasks and interrupts loses a wake-up,
  // exactly on systems of at most 127 tasks.
  lemma NoLostWakeUp(s: State)
    requires Init(s)
    ensures (forall run :: Possible(s, run) ==> NothingLost(After(s, run))) <==> s.Tasks() <= INT8_MAX
  {
    hide Possible, After, NothingLost, Init, Inv;
    if s.Tasks() <= INT8_MAX {
      forall run | Possible(s, run) ensures NothingLost(After(s, run)) {
        InitIsOk(s);
        RunKeepsInv(s, run);
        InvIsSafe(After(s, run));
      }
    } else {
      LosingRun(s);
    }
  }

  // Nor does any leave a task blocked that could go on, on just those systems.
  lemma QuietQueueStrandsNobody(s: State)
    requires Init(s)
    ensures (forall run :: Possible(s, run) ==> NobodyStranded(After(s, run))) <==> s.Tasks() <= INT8_MAX
  {
    hide Possible, After, NobodyStranded, Init, Inv;
    if s.Tasks() <= INT8_MAX {
      forall run | Possible(s, run) ensures NobodyStranded(After(s, run)) {
        InitIsOk(s);
        RunKeepsInv(s, run);
        InvIsSafe(After(s, run));
      }
    } else {
      LosingRun(s);
    }
  }

  lemma InitIsOk(s: State)
    requires Init(s) && s.Tasks() <= INT8_MAX
    ensures Inv(s)
  {}

  // ---------------------------------------------------------------- too many tasks

  lemma {:induction false} RunsJoin(s: State, a: seq<Action>, b: seq<Action>)
    requires Possible(s, a) && Possible(After(s, a), b)
    ensures Possible(s, a + b) && After(s, a + b) == After(After(s, a), b)
    decreases |a|
  {
    hide Enabled, Next;
    if a == [] {
      assert a + b == b;
    } else {
      assert (a + b)[0] == a[0] && (a + b)[1..] == a[1..] + b;
      RunsJoin(Next(s, a[0]), a[1..], b);
    }
  }

  // Task 0 has found the queue empty and joined the readers' list, and holds the queue locked.
  function Waiter(s: State): State
    requires s.Tasks() > 0
  {
    s.(readers := Side([0], {}, 0, 0), writers := Side([], {}, 0, 0), holder := 0,
       pc := s.pc[0 := UnlockTx(Receive, Waiting)])
  }

  const WAIT: seq<Action> := [Call(0, Receive, true), Test(0), Suspend(0), LockQueue(0), Check(0, false), Join(0, 0)]

  lemma WaiterJoins(s: State)
    requires Init(s) && s.Tasks() > 0
    ensures Possible(s, WAIT) && After(s, WAIT) == Waiter(s)
  {
    var s1 := Next(s, WAIT[0]);
    var s2 := Next(s1, WAIT[1]);
    assert s2.pc == s.pc[0 := Missed(Receive)] && s2.readers == s.readers && s2.writers == s.writers;
    var s3 := Next(s2, WAIT[2]);
    var s4 := Next(s3, WAIT[3]);
    var s5 := Next(s4, WAIT[4]);
    var s6 := Next(s5, WAIT[5]);
    assert s6 == Waiter(s);
    OneStep(s5, WAIT[5], []);
    OneStep(s4, WAIT[4], [WAIT[5]]);
    OneStep(s3, WAIT[3], WAIT[4..]);
    OneStep(s2, WAIT[2], WAIT[3..]);
    OneStep(s1, WAIT[1], WAIT[2..]);
    OneStep(s, WAIT[0], WAIT[1..]);
  }

  lemma OneStep(s: State, a: Action, rest: seq<Action>)
    requires Enabled(s, a) && Possible(Next(s, a), rest)
    ensures Possible(s, [a] + rest) && After(s, [a] + rest) == After(Next(s, a), rest)
  {
    hide Enabled, Next;
    assert ([a] + rest)[1..] == rest;
  }

  // Interrupts put items in and take them out again, n times, while the queue is locked.
  function InAndOut(n: nat): seq<Action> { if n == 0 then [] else InAndOut(n - 1) + [IsrSend, IsrReceive] }

  function Busy(s: State, n: nat): State
    requires s.Tasks() > 0
  {
    var lock := LockAfter(n, s.Tasks());
    Waiter(s).(readers := Side([0], {}, lock, n), writers := Side([], {}, lock, n))
  }

  lemma {:induction false} InterruptsAct(s: State, n: nat)
    requires Init(s) && n <= INT8_MAX < s.Tasks()
    ensures Possible(Waiter(s), InAndOut(n)) && After(Waiter(s), InAndOut(n)) == Busy(s, n)
  {
    hide Init;
    if n > 0 {
      InterruptsAct(s, n - 1);
      var b := Busy(s, n - 1);
      OnePair(s, n);
      RunsJoin(Waiter(s), InAndOut(n - 1), [IsrSend, IsrReceive]);
    }
  }

  lemma OnePair(s: State, n: nat)
    requires Init(s) && 0 < n <= INT8_MAX < s.Tasks()
    ensures Possible(Busy(s, n - 1), [IsrSend, IsrReceive])
    ensures After(Busy(s, n - 1), [IsrSend, IsrReceive]) == Busy(s, n)
  {
    var b := Busy(s, n - 1);
    LockCountsUpToInt8(n - 1, s.Tasks());
    LockCountsUpToInt8(n, s.Tasks());
    var b1 := Next(b, IsrSend);
    var b2 := Next(b1, IsrReceive);
    assert b2 == Busy(s, n);
    OneStep(b1, IsrReceive, []);
    OneStep(b, IsrSend, [IsrReceive]);
  }

  // With 128 tasks or more the 128th item that an interrupt adds to a locked queue makes cTxLock
  // negative; unlocking wakes nobody, and the reader stays blocked although there is an item.
  lemma LosingRun(s: State)
    requires Init(s) && INT8_MAX < s.Tasks()
    ensures exists run :: Possible(s, run) && !NothingLost(After(s, run)) && !NobodyStranded(After(s, run))
  {
    hide Enabled, Next;
    var last := [IsrSend, DrainTx(0), DrainRx(0), ResumeAll(0)];
    WaiterJoins(s);
    InterruptsAct(s, INT8_MAX);
    RunsJoin(s, WAIT, InAndOut(INT8_MAX));
    LastInterrupt(s, last);
    StrandedIsUnsafe(s);
    RunsJoin(s, WAIT + InAndOut(INT8_MAX), last);
    var run := WAIT + InAndOut(INT8_MAX) + last;
    assert Possible(s, run) && !NothingLost(After(s, run)) && !NobodyStranded(After(s, run));
  }

  // Task 0 is blocked on a queue that holds an item.
  function Stranded(s: State): State
    requires s.Tasks() > 0
  {
    s.(count := 1, readers := Side([0], {}, UNLOCKED, 0), writers := Side([], {}, UNLOCKED, 0),
       pc := s.pc[0 := Blocked(Receive)])
  }

  lemma LastInterrupt(s: State, last: seq<Action>)
    requires Init(s) && INT8_MAX < s.Tasks() && last == [IsrSend, DrainTx(0), DrainRx(0), ResumeAll(0)]
    ensures Possible(Busy(s, INT8_MAX), last) && After(Busy(s, INT8_MAX), last) == Stranded(s)
  {
    var b := Busy(s, INT8_MAX);
    LockCountsUpToInt8(INT8_MAX, s.Tasks());
    var b1 := Next(b, last[0]);
    assert b1.readers.lock == -128;
    var b2 := Next(b1, last[1]);
    assert b2.readers == Side([0], {}, UNLOCKED, 0);
    var b3 := Next(b2, last[2]);
    assert b3.writers == Side([], {}, UNLOCKED, 0);
    var b4 := Next(b3, last[3]);
    hide LockAfter, Increment, Unlocked, Interrupt, Drain;
    assert b4 == Stranded(s);
    OneStep(b3, last[3], []);
    OneStep(b2, last[2], last[3..]);
    OneStep(b1, last[1], last[2..]);
    OneStep(b, last[0], last[1..]);
  }

  lemma StrandedIsUnsafe(s: State)
    requires s.Tasks() > 0 && s.holder == -1
    ensures !NothingLost(Stranded(s)) && !NobodyStranded(Stranded(s))
  {}
}
