/** The blocking protocol of kernel/FreeRTOS/queue.c: N tasks and any number of interrupts use one
  * queue.  A call is cut at every place where it leaves a critical section, so an action below is
  * what happens between two such places, and any other task or interrupt may act in between.
  * Only the number of items matters here; what the items are is the business of QueueRing.
  */
module QueueProtocol {
  import opened Lists

  // ---------------------------------------------------------------- lock counts

  const UNLOCKED: int := -1
  const INT8_MAX: int := 127

  // Conversion of an integer to int8_t.
  function Int8(x: int): int {
    (x + 128) % 256 - 128
  }

  // prvIncrementQueueTxLock and prvIncrementQueueRxLock: the count stops at the number of tasks.
  function Increment(lock: int, tasks: nat): int {
    if lock % 0x1_0000_0000 < tasks then Int8(lock + 1) else lock
  }

  // The lock count after a number of interrupts have acted on a queue that was just locked.
  function LockAfter(posts: nat, tasks: nat): int {
    if posts == 0 then 0 else Increment(LockAfter(posts - 1, tasks), tasks)
  }

  function Min(a: int, b: int): int {
    if a < b then a else b
  }

  lemma {:induction false} LockCounts(posts: nat, tasks: nat)
    requires tasks <= INT8_MAX
    ensures LockAfter(posts, tasks) == Min(posts, tasks)
  {
    if posts != 0 {
      LockCounts(posts - 1, tasks);
    }
  }

  lemma {:induction false} LockCountsUpToInt8(posts: nat, tasks: nat)
    requires posts <= INT8_MAX < tasks
    ensures LockAfter(posts, tasks) == posts
  {
    if posts != 0 {
      LockCountsUpToInt8(posts - 1, tasks);
    }
  }

  // The lock count is the number of interrupts that acted, up to the number of tasks, exactly on
  // systems of at most 127 tasks.  With more, the int8_t count wraps to -128 at the 128th one.
  lemma LockCountExactIff(tasks: nat)
    ensures (forall posts: nat :: LockAfter(posts, tasks) == Min(posts, tasks)) <==> tasks <= INT8_MAX
  {
    if tasks <= INT8_MAX {
      forall posts: nat ensures LockAfter(posts, tasks) == Min(posts, tasks) {
        LockCounts(posts, tasks);
      }
    } else {
      LockCountsUpToInt8(127, tasks);
      assert LockAfter(128, tasks) == -128;
    }
  }

  // ---------------------------------------------------------------- one event list and its lock

  type TaskId = nat

  // The readers' side is xTasksWaitingToReceive with cTxLock, the writers' side
  // xTasksWaitingToSend with cRxLock.
  datatype Side = Side(
    waiters: seq<TaskId>,   // the event list, in the order in which it will be served
    woken: set<TaskId>,     // tasks an event has unblocked and that have not re-tested the queue yet
    lock: int,
    posts: nat)             // history: interrupts that acted since the lock was taken

  // xTaskRemoveFromEventList, if the list is not empty.
  function Wake(s: Side): Side {
    if s.waiters == [] then s else s.(waiters := s.waiters[1..], woken := s.woken + {s.waiters[0]})
  }

  // What an interrupt does to the side it has provided for.
  function Interrupt(s: Side, tasks: nat): Side {
    if s.lock == UNLOCKED then Wake(s) else s.(lock := Increment(s.lock, tasks), posts := s.posts + 1)
  }

  function Lock(s: Side): Side {
    if s.lock == UNLOCKED then s.(lock := 0, posts := 0) else s
  }

  function Drain(s: Side, lock: int): Side
    decreases lock
  {
    if lock <= 0 || s.waiters == [] then s else Drain(Wake(s), lock - 1)
  }

  // One of the two critical sections of prvUnlockQueue, as written.
  method Unlock(s: Side) returns (r: Side)
    ensures r == Drain(s, s.lock).(lock := UNLOCKED, posts := 0)
  {
    r := s;
    var lock := r.lock;
    while lock > 0
      invariant Drain(r, lock) == Drain(s, s.lock)
    {
      if r.waiters == [] {
        break;
      }
      r := Wake(r);
      lock := lock - 1;
    }
    r := r.(lock := UNLOCKED, posts := 0);
  }

  function Unlocked(s: Side): Side {
    Drain(s, s.lock).(lock := UNLOCKED, posts := 0)
  }

  lemma {:induction false} DrainIsPrefix(s: Side, lock: int)
    ensures var k := Min(if lock < 0 then 0 else lock, |s.waiters|);
            Drain(s, lock) == s.(waiters := s.waiters[k..], woken := s.woken + Elements(s.waiters[..k]))
    decreases lock
  {
    if 0 < lock && s.waiters != [] {
      var w := Wake(s);
      DrainIsPrefix(w, lock - 1);
      var k := Min(lock, |s.waiters|);
      assert w.waiters[k - 1..] == s.waiters[k..];
      assert s.waiters[..k] == [s.waiters[0]] + w.waiters[..k - 1];
      assert s.woken + Elements(s.waiters[..k]) == w.woken + Elements(w.waiters[..k - 1]);
    } else {
      assert s.woken + Elements(s.waiters[..0]) == s.woken;
    }
  }

  lemma {:induction false} SetBelow(xs: set<TaskId>, n: nat)
    requires forall x :: x in xs ==> x < n
    ensures |xs| <= n
  {
    if n != 0 {
      SetBelow(xs - {n - 1}, n - 1);
    }
  }

  // How many goods (items for readers, free slots for writers) may be present before somebody on
  // the list, or about to join it (joining), must have been accounted for.
  predicate Accounted(s: Side, tasks: nat, goods: int, joining: bool) {
    s.waiters != [] || joining ==>
      goods <= |s.woken| + (if s.lock < 0 then 0 else s.lock) || s.lock == tasks
  }

  predicate SideOk(s: Side, tasks: nat) {
    && tasks <= INT8_MAX
    && Distinct(s.waiters)
    && (forall x :: x in s.waiters ==> x < tasks)
    && (forall x :: x in s.woken ==> x < tasks && x !in s.waiters)
    && s.lock == (if s.lock == UNLOCKED then UNLOCKED else Min(s.posts, tasks))
  }

  // Tasks only move from the list to the woken ones, and none gets lost.
  predicate Moved(s: Side, r: Side) {
    && (forall x :: x in r.waiters ==> x in s.waiters)
    && (forall x :: x in r.woken ==> x in s.waiters || x in s.woken)
    && (forall x :: x in s.waiters ==> x in r.waiters || x in r.woken)
    && s.woken <= r.woken
  }

  lemma MovedSelf(s: Side)
    ensures Moved(s, s)
  {}

  lemma WakeAccounts(s: Side, tasks: nat, goods: int)
    requires SideOk(s, tasks) && Accounted(s, tasks, goods, false) && s.lock == UNLOCKED
    ensures SideOk(Wake(s), tasks) && Accounted(Wake(s), tasks, goods + 1, false)
    ensures Moved(s, Wake(s))
  {
    hide Elements;
    if s.waiters != [] {
      var head, rest := s.waiters[0], s.waiters[1..];
      SplitDistinct(s.waiters, 1);
      assert s.waiters[..1] == [head];
      assert head in s.waiters;
      assert |s.woken + {head}| == |s.woken| + 1;
    }
  }

  lemma InterruptAccounts(s: Side, tasks: nat, goods: int, joining: bool)
    requires SideOk(s, tasks) && Accounted(s, tasks, goods, joining) && (joining ==> s.lock != UNLOCKED)
    ensures SideOk(Interrupt(s, tasks), tasks) && Accounted(Interrupt(s, tasks), tasks, goods + 1, joining)
    ensures Moved(s, Interrupt(s, tasks))
  {
    if s.lock == UNLOCKED {
      WakeAccounts(s, tasks, goods);
    }
  }

  lemma InterruptKeepsLock(s: Side, tasks: nat)
    requires SideOk(s, tasks)
    ensures Interrupt(s, tasks).lock == UNLOCKED <==> s.lock == UNLOCKED
  {}

  lemma WaitersFit(s: Side, tasks: nat)
    requires SideOk(s, tasks)
    ensures |s.waiters| <= tasks
  {
    DistinctSize(s.waiters);
    SetBelow(Elements(s.waiters), tasks);
  }

  // Unlocking wakes exactly as many waiters as interrupts acted while the lock was held, from the
  // head of the list, or all of them if there are fewer: the cap on the count never loses one.
  lemma UnlockWakesExactly(s: Side, tasks: nat)
    requires SideOk(s, tasks) && s.lock != UNLOCKED
    ensures var k := Min(s.posts, |s.waiters|);
            && Unlocked(s).waiters == s.waiters[k..]
            && Unlocked(s).woken == s.woken + Elements(s.waiters[..k])
            && |Unlocked(s).woken| == |s.woken| + k
  {
    hide Drain, Distinct;
    WaitersFit(s, tasks);
    DrainIsPrefix(s, s.lock);
    var k := Min(s.posts, |s.waiters|);
    assert Distinct(s.waiters[..k]) by { SplitDistinct(s.waiters, k); }
    assert forall x :: x in s.waiters[..k] ==> x in s.waiters;
    UnionSize(s.woken, s.waiters[..k]);
  }

  lemma UnionSize(xs: set<TaskId>, more: seq<TaskId>)
    requires Distinct(more) && forall x :: x in more ==> x !in xs
    ensures |xs + Elements(more)| == |xs| + |more|
  {
    DistinctSize(more);
    assert xs !! Elements(more);
  }

  lemma UnlockAccounts(s: Side, tasks: nat, goods: int)
    requires SideOk(s, tasks) && Accounted(s, tasks, goods, false) && s.lock != UNLOCKED
    ensures SideOk(Unlocked(s), tasks) && Accounted(Unlocked(s), tasks, goods, false)
    ensures Moved(s, Unlocked(s))
  {
    UnlockWakesExactly(s, tasks);
    SplitDistinct(s.waiters, Min(s.posts, |s.waiters|));
    WaitersFit(s, tasks);
  }

  // ---------------------------------------------------------------- tasks and calls

  // Receive stands for xQueueReceive and xQueueSemaphoreTake.
  datatype Op = Receive | Peek | Send | Overwrite {
    predicate Reads() { Receive? || Peek? }
  }

  // Why a task that holds the queue lock is about to release it.
  datatype Why = Retry | Expired | Waiting

  // What a task's last call returned: pdPASS, or errQUEUE_FULL or errQUEUE_EMPTY.
  datatype Reply = NoCall | Passed | Failed

  datatype Pc =
    | Out(reply: Reply)                // not inside a call on this queue
    | Top(op: Op, patient: bool)       // at the head of the for( ; ; ) loop; patient: block time is left
    | Missed(op: Op)                   // found the queue empty (full) and left the critical section
    | Suspended(op: Op)                // has suspended the scheduler
    | Locked(op: Op)                   // has locked the queue
    | Checked(op: Op)                  // found it still empty (full), not yet on the event list
    | UnlockTx(op: Op, why: Why)       // about to drain cTxLock
    | UnlockRx(op: Op, why: Why)       // about to drain cRxLock
    | Resume(op: Op, why: Why)         // about to resume the scheduler
    | Blocked(op: Op)                  // has given up the processor
    | Recheck(op: Op)                  // timed out; a reader looks at the queue once more
  {
    predicate HoldsScheduler() {
      Suspended? || Locked? || Checked? || UnlockTx? || UnlockRx? || Resume?
    }
    predicate MayBeListed() {
      Blocked? || ((UnlockTx? || UnlockRx? || Resume?) && why.Waiting?)
    }
  }

  datatype State = State(
    length: nat,
    itemSize: nat,
    count: nat,          // uxMessagesWaiting
    readers: Side,
    writers: Side,
    holder: int,         // the task that has suspended the scheduler, or -1
    pc: seq<Pc>)         // one entry per task of the system
  {
    function Tasks(): nat { |pc| }
    predicate Joining(reading: bool) {
      0 <= holder < |pc| && pc[holder].Checked? && pc[holder].op.Reads() == reading
    }
  }

  datatype Action =
    | Call(t: TaskId, op: Op, patient: bool)
    | Test(t: TaskId)
    | Suspend(t: TaskId)
    | LockQueue(t: TaskId)
    | Check(t: TaskId, expired: bool)
    | Join(t: TaskId, at: nat)
    | DrainTx(t: TaskId)
    | DrainRx(t: TaskId)
    | ResumeAll(t: TaskId)
    | Run(t: TaskId)
    | LookAgain(t: TaskId)
    | TimeOut(t: TaskId)
    | IsrSend
    | IsrOverwrite
    | IsrReceive

  predicate Listed(s: State, t: TaskId) {
    t in s.readers.waiters || t in s.writers.waiters
  }

  predicate TaskEnabled(s: State, a: Action, p: Pc) {
    match a
    case Call(_, op, _) => p.Out? && (op.Overwrite? ==> s.length == 1)
    case Test(_) => p.Top?
    case Suspend(_) => p.Missed?
    case LockQueue(_) => p.Suspended?
    case Check(_, _) => p.Locked?
    case Join(_, at) =>
      p.Checked? && at <= (if p.op.Reads() then |s.readers.waiters| else |s.writers.waiters|)
    case DrainTx(_) => p.UnlockTx?
    case DrainRx(_) => p.UnlockRx?
    case ResumeAll(_) => p.Resume?
    case Run(t) => p.Blocked? && !Listed(s, t)
    case LookAgain(_) => p.Recheck?
    case TimeOut(t) => p.Blocked? && Listed(s, t)
    case _ => false
  }

  // While a task holds the scheduler suspended, only it and interrupts act.
  predicate Enabled(s: State, a: Action) {
    match a
    case IsrSend => s.count < s.length
    case IsrOverwrite => s.length == 1
    case IsrReceive => 0 < s.count
    case _ => a.t < s.Tasks() && (s.holder == -1 || s.holder == a.t) && TaskEnabled(s, a, s.pc[a.t])
  }

  // An overwrite replaces the only item, or adds one to an empty queue.  Items of size 0 are only
  // counted, so there it adds one in any case.
  function Overwritten(s: State): nat {
    (if 0 < s.itemSize && 0 < s.count then s.count - 1 else s.count) + 1
  }

  // One pass of the first critical section of a call.
  function TestQueue(s0: State, t: TaskId): State
    requires t < s0.Tasks() && s0.pc[t].Top?
  {
    var p := s0.pc[t];
    var s := s0.(readers := s0.readers.(woken := s0.readers.woken - {t}),
                 writers := s0.writers.(woken := s0.writers.woken - {t}));
    var failed := s.(pc := s.pc[t := if p.patient then Missed(p.op) else Out(Failed)]);
    var done := s.(pc := s.pc[t := Out(Passed)]);
    match p.op
    case Receive => if 0 < s.count then done.(count := s.count - 1, writers := Wake(s.writers)) else failed
    case Peek => if 0 < s.count then done.(readers := Wake(s.readers)) else failed
    case Send => if s.count < s.length then done.(count := s.count + 1, readers := Wake(s.readers)) else failed
    case Overwrite => done.(count := Overwritten(s), readers := Wake(s.readers))
  }

  function JoinList(s: State, t: TaskId, at: nat): State
    requires t < s.Tasks() && TaskEnabled(s, Join(t, at), s.pc[t])
  {
    var p := s.pc[t];
    var next := s.(pc := s.pc[t := UnlockTx(p.op, Waiting)]);
    if p.op.Reads() then
      next.(readers := s.readers.(waiters := s.readers.waiters[..at] + [t] + s.readers.waiters[at..]))
    else
      next.(writers := s.writers.(waiters := s.writers.waiters[..at] + [t] + s.writers.waiters[at..]))
  }

  function Next(s: State, a: Action): State
    requires Enabled(s, a)
  {
    match a
    case Call(t, op, patient) => s.(pc := s.pc[t := Top(op, patient)])
    case Test(t) => TestQueue(s, t)
    case Suspend(t) => s.(holder := t, pc := s.pc[t := Suspended(s.pc[t].op)])
    case LockQueue(t) =>
      s.(readers := Lock(s.readers), writers := Lock(s.writers), pc := s.pc[t := Locked(s.pc[t].op)])
    case Check(t, expired) =>
      var op := s.pc[t].op;
      var still := if op.Reads() then s.count == 0 else s.count == s.length;
      s.(pc := s.pc[t := if expired then UnlockTx(op, Expired) else if still then Checked(op) else UnlockTx(op, Retry)])
    case Join(t, at) => JoinList(s, t, at)
    case DrainTx(t) => s.(readers := Unlocked(s.readers), pc := s.pc[t := UnlockRx(s.pc[t].op, s.pc[t].why)])
    case DrainRx(t) => s.(writers := Unlocked(s.writers), pc := s.pc[t := Resume(s.pc[t].op, s.pc[t].why)])
    case ResumeAll(t) =>
      var op := s.pc[t].op;
      var after := match s.pc[t].why
        case Retry => Top(op, true)
        case Waiting => Blocked(op)
        case Expired => if op.Reads() then Recheck(op) else Out(Failed);
      s.(holder := -1, pc := s.pc[t := after])
    case Run(t) => s.(pc := s.pc[t := Top(s.pc[t].op, true)])
    case LookAgain(t) => s.(pc := s.pc[t := if s.count == 0 then Out(Failed) else Top(s.pc[t].op, false)])
    case TimeOut(t) =>
      s.(readers := s.readers.(waiters := Remove(s.readers.waiters, t)),
         writers := s.writers.(waiters := Remove(s.writers.waiters, t)),
         pc := s.pc[t := Top(s.pc[t].op, true)])
    case IsrSend => s.(count := s.count + 1, readers := Interrupt(s.readers, s.Tasks()))
    case IsrOverwrite => s.(count := Overwritten(s), readers := Interrupt(s.readers, s.Tasks()))
    case IsrReceive => s.(count := s.count - 1, writers := Interrupt(s.writers, s.Tasks()))
  }

  // ---------------------------------------------------------------- what every step keeps

  predicate TaskOk(s: State, t: TaskId)
    requires t < s.Tasks()
  {
    var p := s.pc[t];
    && (p.HoldsScheduler() <==> s.holder == t)
    && (!p.Out? && p.op.Overwrite? ==> p.Top? && s.length == 1)
    && (t in s.readers.waiters ==> p.MayBeListed() && p.op.Reads())
    && (t in s.writers.waiters ==> p.MayBeListed() && p.op.Send?)
    && (t in s.readers.woken ==> (p.MayBeListed() || p.Top?) && p.op.Reads())
    && (t in s.writers.woken ==> (p.MayBeListed() || p.Top?) && p.op.Send?)
    && (p.MayBeListed() ==> Listed(s, t) || t in s.readers.woken || t in s.writers.woken)
  }

  predicate LocksOk(s: State) {
    if 0 <= s.holder < s.Tasks() then
      var p := s.pc[s.holder];
      && (s.readers.lock == UNLOCKED <==> !(p.Locked? || p.Checked? || p.UnlockTx?))
      && (s.writers.lock == UNLOCKED <==> !(p.Locked? || p.Checked? || p.UnlockTx? || p.UnlockRx?))
    else
      s.holder == -1 && s.readers.lock == UNLOCKED && s.writers.lock == UNLOCKED
  }

  predicate Inv(s: State) {
    && (0 < s.itemSize ==> s.count <= s.length)
    && SideOk(s.readers, s.Tasks())
    && SideOk(s.writers, s.Tasks())
    && LocksOk(s)
    && (forall t: TaskId :: t < s.Tasks() ==> TaskOk(s, t))
    && Accounted(s.readers, s.Tasks(), s.count, s.Joining(true))
    && Accounted(s.writers, s.Tasks(), s.length - s.count, s.Joining(false))
  }

  predicate Init(s: State) {
    && 1 <= s.length && s.count == 0 && s.holder == -1
    && s.readers == Side([], {}, UNLOCKED, 0) && s.writers == Side([], {}, UNLOCKED, 0)
    && forall t: TaskId :: t < s.Tasks() ==> s.pc[t].Out?
  }

  lemma Inserted(xs: seq<TaskId>, t: TaskId, at: nat)
    requires Distinct(xs) && t !in xs && at <= |xs|
    ensures Distinct(xs[..at] + [t] + xs[at..])
    ensures forall x :: x in xs[..at] + [t] + xs[at..] <==> x in xs || x == t
  {
    var ys := xs[..at] + [t] + xs[at..];
    forall x | x in xs ensures x in ys {
      var i :| 0 <= i < |xs| && xs[i] == x;
      assert ys[if i < at then i else i + 1] == x;
    }
    assert ys[at] == t;
  }

  // A task about to look at the queue no longer counts as woken but not yet looking.
  function Looking(s: State, t: TaskId): State {
    s.(readers := s.readers.(woken := s.readers.woken - {t}), writers := s.writers.(woken := s.writers.woken - {t}))
  }

  // Used up one of the goods, or found none left.
  lemma LookAccounts(s: Side, tasks: nat, goods: int, t: TaskId)
    requires SideOk(s, tasks) && Accounted(s, tasks, goods, false)
    ensures var r := s.(woken := s.woken - {t});
            && SideOk(r, tasks) && Accounted(r, tasks, goods - 1, false)
            && (t !in s.woken || goods <= 0 ==> Accounted(r, tasks, goods, false))
  {
    assert |s.woken| <= |s.woken - {t}| + 1 by {
      if t in s.woken {
        assert s.woken == (s.woken - {t}) + {t};
      } else {
        assert s.woken == s.woken - {t};
      }
    }
  }

  lemma TestTasksOk(s: State, t: TaskId)
    requires Inv(s) && Enabled(s, Test(t))
    requires SideOk(Looking(s, t).readers, s.Tasks()) && SideOk(Looking(s, t).writers, s.Tasks())
    requires Moved(Looking(s, t).readers, Next(s, Test(t)).readers)
    requires Moved(Looking(s, t).writers, Next(s, Test(t)).writers)
    ensures forall x: TaskId :: x < s.Tasks() ==> TaskOk(Next(s, Test(t)), x)
  {
    hide SideOk, Accounted, Wake, LocksOk;
    var r := Next(s, Test(t));
    forall x: TaskId | x < s.Tasks() ensures TaskOk(r, x) {
      assert TaskOk(s, x);
    }
  }

  lemma TestSidesOk(s: State, t: TaskId)
    requires Inv(s) && Enabled(s, Test(t))
    ensures var r, m := Next(s, Test(t)), Looking(s, t);
            && (0 < r.itemSize ==> r.count <= r.length)
            && SideOk(m.readers, s.Tasks()) && SideOk(r.readers, s.Tasks()) && Moved(m.readers, r.readers)
            && SideOk(m.writers, s.Tasks()) && SideOk(r.writers, s.Tasks()) && Moved(m.writers, r.writers)
            && Accounted(r.readers, s.Tasks(), r.count, false)
            && Accounted(r.writers, s.Tasks(), r.length - r.count, false)
  {
    hide SideOk, Moved;
    var m := Looking(s, t);
    assert TaskOk(s, t);
    MovedSelf(m.readers);
    MovedSelf(m.writers);
    LookAccounts(s.readers, s.Tasks(), s.count, t);
    LookAccounts(s.writers, s.Tasks(), s.length - s.count, t);
    match s.pc[t].op {
      case Receive => WakeAccounts(m.writers, s.Tasks(), s.length - s.count);
      case Send => WakeAccounts(m.readers, s.Tasks(), s.count);
      case _ => WakeAccounts(m.readers, s.Tasks(), s.count - 1);
    }
  }

  lemma TestKeepsInv(s: State, t: TaskId)
    requires Inv(s) && Enabled(s, Test(t))
    ensures Inv(Next(s, Test(t)))
  {
    hide SideOk, Accounted, Moved, TaskOk;
    TestSidesOk(s, t);
    TestTasksOk(s, t);
    assert TaskOk(s, t);
  }

  lemma IsrKeepsInv(s: State, a: Action)
    requires Inv(s) && Enabled(s, a) && (a.IsrSend? || a.IsrOverwrite? || a.IsrReceive?)
    ensures Inv(Next(s, a))
  {
    hide SideOk, Interrupt, TaskOk;
    var r := Next(s, a);
    if a.IsrReceive? {
      InterruptAccounts(s.writers, s.Tasks(), s.length - s.count, s.Joining(false));
      InterruptKeepsLock(s.writers, s.Tasks());
    } else {
      InterruptAccounts(s.readers, s.Tasks(), s.count, s.Joining(true));
      InterruptKeepsLock(s.readers, s.Tasks());
    }
    IsrTasksOk(s, a);
  }

  lemma IsrTasksOk(s: State, a: Action)
    requires Inv(s) && Enabled(s, a) && (a.IsrSend? || a.IsrOverwrite? || a.IsrReceive?)
    requires Moved(s.readers, Next(s, a).readers) && Moved(s.writers, Next(s, a).writers)
    ensures forall t: TaskId :: t < s.Tasks() ==> TaskOk(Next(s, a), t)
  {
    hide SideOk, Accounted, Interrupt, LocksOk;
    var r := Next(s, a);
    forall t: TaskId | t < s.Tasks() ensures TaskOk(r, t) {
      assert TaskOk(s, t);
    }
  }

  lemma DrainKeepsInv(s: State, a: Action)
    requires Inv(s) && Enabled(s, a) && (a.DrainTx? || a.DrainRx?)
    ensures Inv(Next(s, a))
  {
    var r := Next(s, a);
    assert TaskOk(s, a.t);
    if a.DrainTx? {
      UnlockAccounts(s.readers, s.Tasks(), s.count);
    } else {
      UnlockAccounts(s.writers, s.Tasks(), s.length - s.count);
    }
    forall t: TaskId | t < s.Tasks() ensures TaskOk(r, t) {
      assert TaskOk(s, t);
    }
  }

  lemma ListKeepsInv(s: State, a: Action)
    requires Inv(s) && Enabled(s, a) && (a.Join? || a.TimeOut?)
    ensures Inv(Next(s, a))
  {
    var r := Next(s, a);
    assert TaskOk(s, a.t);
    if a.TimeOut? {
      RemoveOne(s.readers.waiters, a.t);
      RemoveOne(s.writers.waiters, a.t);
    } else if s.pc[a.t].op.Reads() {
      Inserted(s.readers.waiters, a.t, a.at);
    } else {
      Inserted(s.writers.waiters, a.t, a.at);
    }
    forall t: TaskId | t < s.Tasks() ensures TaskOk(r, t) {
      assert TaskOk(s, t);
    }
  }

  lemma OtherKeepsInv(s: State, a: Action)
    requires Inv(s) && Enabled(s, a)
    requires a.Call? || a.Suspend? || a.LockQueue? || a.Check? || a.ResumeAll? || a.Run? || a.LookAgain?
    ensures Inv(Next(s, a))
  {
    var r := Next(s, a);
    assert TaskOk(s, a.t);
    forall t: TaskId | t < s.Tasks() ensures TaskOk(r, t) {
      assert TaskOk(s, t);
    }
  }

  lemma StepKeepsInv(s: State, a: Action)
    requires Inv(s) && Enabled(s, a)
    ensures Inv(Next(s, a))
  {
    match a
    case Test(t) => TestKeepsInv(s, t);
    case IsrSend => IsrKeepsInv(s, a);
    case IsrOverwrite => IsrKeepsInv(s, a);
    case IsrReceive => IsrKeepsInv(s, a);
    case DrainTx(_) => DrainKeepsInv(s, a);
    case DrainRx(_) => DrainKeepsInv(s, a);
    case Join(_, _) => ListKeepsInv(s, a);
    case TimeOut(_) => ListKeepsInv(s, a);
    case _ => OtherKeepsInv(s, a);
  }
}
