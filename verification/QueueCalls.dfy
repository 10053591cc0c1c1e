/** How a call on a queue ends, whatever other tasks and interrupts do meanwhile. */
module QueueCalls {
  import opened QueueProtocol
  import opened QueueRuns

  // The queue has what the call wants: an item, or room for one.
  predicate Goods(s: State, op: Op) {
    match op
    case Receive => 0 < s.count
    case Peek => 0 < s.count
    case Send => s.count < s.length
    case Overwrite => true
  }

  // The step from s to r is the one that does what the call is for.
  predicate Serves(s: State, r: State, op: Op) {
    match op
    case Receive => 0 < s.count && r.count == s.count - 1
    case Peek => 0 < s.count && r.count == s.count
    case Send => s.count < s.length && r.count == s.count + 1
    case Overwrite => if s.count == 0 || s.itemSize == 0 then r.count == s.count + 1 else r.count == s.count
  }

  predicate By(a: Action, t: TaskId) { !a.IsrSend? && !a.IsrOverwrite? && !a.IsrReceive? && a.t == t }

  // A call ends only by a step of its own task.  It returns pdPASS exactly if that step serves it, and an
  // error if it has looked without block time at a queue that has nothing for it, if its block time was
  // found to be over, or if the queue is still empty after that.
  lemma CallEnds(s: State, a: Action, t: TaskId)
    requires Enabled(s, a) && t < s.Tasks() && !s.pc[t].Out? && Next(s, a).pc[t].Out?
    ensures By(a, t) && var p, r := s.pc[t], Next(s, a);
            if r.pc[t].reply == Passed then a == Test(t) && p.Top? && Serves(s, r, p.op)
            else
              && r.pc[t].reply == Failed && r.count == s.count
              && ((a == Test(t) && p == Top(p.op, false) && !Goods(s, p.op) && !Serves(s, r, p.op))
                  || (a == ResumeAll(t) && p == Resume(p.op, Expired) && !p.op.Reads())
                  || (a == LookAgain(t) && p == Recheck(p.op) && s.count == 0))
  {}

  // A look at the queue serves the call whenever it can; otherwise it ends the call exactly if there is no
  // block time.
  lemma LookDecides(s: State, t: TaskId)
    requires Enabled(s, Test(t))
    ensures var p, r := s.pc[t].op, Next(s, Test(t)).pc[t];
            (r == Out(Passed) <==> Goods(s, p)) && (r == Out(Failed) <==> !Goods(s, p) && !s.pc[t].patient)
  {}

  // ---------------------------------------------------------------- whole calls

  // How often the steps of a run serve a call of task t.
  function TimesServed(s: State, run: seq<Action>, t: TaskId): nat
    requires t < s.Tasks() && Possible(s, run)
    decreases |run|
  {
    if run == [] then 0 else
      var r := Next(s, run[0]);
      (if !s.pc[t].Out? && run[0] == Test(t) && Serves(s, r, s.pc[t].op) && r.pc[t].Out? then 1 else 0)
      + TimesServed(r, run[1..], t)
  }

  // Task t looks at a queue that has nothing for its call, at some point of the run.
  predicate LooksInVain(s: State, run: seq<Action>, t: TaskId)
    requires t < s.Tasks() && Possible(s, run)
    decreases |run|
  {
    run != [] &&
    ((run[0] == Test(t) && !Goods(s, s.pc[t].op)) || LooksInVain(Next(s, run[0]), run[1..], t))
  }

  predicate OneCall(run: seq<Action>, t: TaskId) {
    forall i :: 0 <= i < |run| ==> !(run[i].Call? && run[i].t == t)
  }

  // Inside a call: only one that had no block time, or whose time was found to be over, looks for the
  // last time, and only one whose time was found to be over gives up waiting.
  predicate InCall(p: Pc, op: Op, patient: bool, expired: bool) {
    && !p.Out? && p.op == op && (p == Top(op, false) ==> !patient || expired)
    && (p.Recheck? || ((p.UnlockTx? || p.UnlockRx? || p.Resume?) && p.why.Expired?) ==> expired)
  }

  lemma StepInCall(s: State, a: Action, t: TaskId, op: Op, patient: bool, expired: bool)
    requires Enabled(s, a) && t < s.Tasks() && InCall(s.pc[t], op, patient, expired) && !(a.Call? && a.t == t)
    ensures var r := Next(s, a);
            r.Tasks() == s.Tasks()
            && (r.pc[t].Out? || InCall(r.pc[t], op, patient, expired || a == Check(t, true)))
  {}

  lemma {:induction false} NothingServed(s: State, run: seq<Action>, t: TaskId)
    requires Possible(s, run) && t < s.Tasks() && s.pc[t].Out? && OneCall(run, t)
    ensures TimesServed(s, run, t) == 0 && After(s, run).Tasks() == s.Tasks() && After(s, run).pc[t] == s.pc[t]
    decreases |run|
  {
    hide Serves;
    if run != [] {
      StaysOut(s, run[0], t);
      RestIsOneCall(run, t);
      NothingServed(Next(s, run[0]), run[1..], t);
    }
  }

  lemma StaysOut(s: State, a: Action, t: TaskId)
    requires Enabled(s, a) && t < s.Tasks() && s.pc[t].Out? && !(a.Call? && a.t == t)
    ensures Next(s, a).Tasks() == s.Tasks() && Next(s, a).pc[t] == s.pc[t]
  {}

  lemma RestIsOneCall(run: seq<Action>, t: TaskId)
    requires run != [] && OneCall(run, t)
    ensures !(run[0].Call? && run[0].t == t) && OneCall(run[1..], t)
  {
    forall i | 0 <= i < |run[1..]| ensures !(run[1..][i].Call? && run[1..][i].t == t) {
      assert run[1..][i] == run[i + 1];
    }
  }

  lemma {:induction false} CallGoesOn(s: State, run: seq<Action>, t: TaskId, op: Op, patient: bool, expired: bool)
    requires Possible(s, run) && t < s.Tasks() && InCall(s.pc[t], op, patient, expired) && OneCall(run, t)
    ensures var e := After(s, run);
            && e.Tasks() == s.Tasks()
            && TimesServed(s, run, t) == (if e.pc[t] == Out(Passed) then 1 else 0)
            && (e.pc[t].Out? ==> e.pc[t].reply == Passed || e.pc[t].reply == Failed)
            && (e.pc[t] == Out(Failed) ==> expired || Check(t, true) in run || (!patient && LooksInVain(s, run, t)))
            && (!e.pc[t].Out? ==> e.pc[t].op == op)
    decreases |run|
  {
    hide Serves, Next, Enabled;
    if run != [] {
      var a, r := run[0], Next(s, run[0]);
      assert run == [a] + run[1..];
      StepInCall(s, a, t, op, patient, expired);
      RestIsOneCall(run, t);
      if r.pc[t].Out? {
        CallEnds(s, a, t);
        NothingServed(r, run[1..], t);
      } else {
        CallGoesOn(r, run[1..], t, op, patient, expired || a == Check(t, true));
      }
    }
  }

  // Main theorem: a call that returns pdPASS has been served exactly once, one that returns an error or
  // has not returned, never.  It returns an error only if it had no block time and looked at a queue that
  // had nothing for it, or if its time was found to be over; so a call whose time is never over ends only
  // served.
  lemma CallIsServedOrOver(s: State, t: TaskId, op: Op, patient: bool, run: seq<Action>)
    requires Enabled(s, Call(t, op, patient)) && Possible(Next(s, Call(t, op, patient)), run) && OneCall(run, t)
    ensures var s' := Next(s, Call(t, op, patient)); var e := After(s', run);
            && t < s'.Tasks() == e.Tasks()
            && TimesServed(s', run, t) == (if e.pc[t] == Out(Passed) then 1 else 0)
            && (e.pc[t].Out? ==> e.pc[t].reply == Passed || e.pc[t].reply == Failed)
            && (e.pc[t] == Out(Failed) ==> Check(t, true) in run || (!patient && LooksInVain(s', run, t)))
            && (e.pc[t].Out? && patient && Check(t, true) !in run ==> e.pc[t].reply == Passed)
            && (!e.pc[t].Out? ==> e.pc[t].op == op)
            && (!patient && Test(t) in run ==> e.pc[t].Out?)
  {
    CallStarts(s, t, op, patient);
    hide Enabled, Next, Serves;
    CallGoesOn(Next(s, Call(t, op, patient)), run, t, op, patient, false);
    if !patient && Test(t) in run {
      OneLookIsEnough(Next(s, Call(t, op, patient)), run, t);
    }
  }

  lemma CallStarts(s: State, t: TaskId, op: Op, patient: bool)
    requires Enabled(s, Call(t, op, patient))
    ensures var s' := Next(s, Call(t, op, patient));
            && t < s.Tasks() == s'.Tasks() && InCall(s'.pc[t], op, patient, false) && s'.count == s.count
            && (!patient ==> s'.pc[t].Top? && !s'.pc[t].patient)
  {}

  lemma OthersWait(s: State, a: Action, t: TaskId)
    requires Enabled(s, a) && t < s.Tasks() && !By(a, t)
    ensures Next(s, a).Tasks() == s.Tasks() && Next(s, a).pc[t] == s.pc[t]
  {}

  lemma OneLookIsEnough(s: State, run: seq<Action>, t: TaskId)
    requires Possible(s, run) && t < s.Tasks() && s.pc[t].Top? && !s.pc[t].patient && OneCall(run, t) && Test(t) in run
    ensures var e := After(s, run); e.Tasks() == s.Tasks() && e.pc[t].Out?
    decreases |run|
  {
    var a, r := run[0], Next(s, run[0]);
    assert run == [a] + run[1..];
    RestIsOneCall(run, t);
    if By(a, t) {
      assert a == Test(t);
      LookDecides(s, t);
      hide Enabled, Next;
      NothingServed(r, run[1..], t);
    } else {
      OthersWait(s, a, t);
      hide Enabled, Next;
      OneLookIsEnough(r, run[1..], t);
    }
  }

  // ---------------------------------------------------------------- calls whose time is over

  function OwnSteps(run: seq<Action>, t: TaskId): nat {
    if run == [] then 0 else (if By(run[0], t) then 1 else 0) + OwnSteps(run[1..], t)
  }

  // On the way out of a call whose time is over: what the task has still to do, at most.
  predicate Overdue(p: Pc) {
    p.Out? || (p.Top? && !p.patient) || p.Recheck? || ((p.UnlockTx? || p.UnlockRx? || p.Resume?) && p.why.Expired?)
  }

  function StepsLeft(p: Pc): nat {
    match p
    case Out(_) => 0
    case Top(_, _) => 1
    case Recheck(_) => 2
    case Resume(_, _) => 3
    case UnlockRx(_, _) => 4
    case _ => 5
  }

  lemma OverdueStep(s: State, a: Action, t: TaskId)
    requires Enabled(s, a) && t < s.Tasks() && Overdue(s.pc[t]) && !(a.Call? && a.t == t)
    ensures var r := Next(s, a);
            && r.Tasks() == s.Tasks() && Overdue(r.pc[t])
            && StepsLeft(r.pc[t]) + (if By(a, t) then 1 else 0) <= StepsLeft(s.pc[t])
  {}

  lemma {:induction false} OverdueGoesOn(s: State, run: seq<Action>, t: TaskId)
    requires Possible(s, run) && t < s.Tasks() && Overdue(s.pc[t]) && OneCall(run, t)
    ensures var e := After(s, run);
            e.Tasks() == s.Tasks() && Overdue(e.pc[t]) && OwnSteps(run, t) + StepsLeft(e.pc[t]) <= StepsLeft(s.pc[t])
    decreases |run|
  {
    hide Enabled, Next, Overdue, StepsLeft, By;
    if run != [] {
      OverdueStep(s, run[0], t);
      RestIsOneCall(run, t);
      OverdueGoesOn(Next(s, run[0]), run[1..], t);
    }
  }

  // A call whose time has been found to be over never waits again, and ends with its fifth step from
  // there at the latest.
  lemma OverdueCallEnds(s: State, t: TaskId, run: seq<Action>)
    requires Enabled(s, Check(t, true)) && Possible(Next(s, Check(t, true)), run) && OneCall(run, t)
    ensures var e := After(Next(s, Check(t, true)), run);
            && t < e.Tasks() && !e.pc[t].Checked? && !e.pc[t].MayBeListed()
            && OwnSteps(run, t) <= 5 && (OwnSteps(run, t) == 5 ==> e.pc[t].Out?)
  {
    CheckMakesOverdue(s, t);
    hide Enabled, Next;
    OverdueGoesOn(Next(s, Check(t, true)), run, t);
  }

  // On the way out of a send call whose time is over.
  predicate Failing(p: Pc) {
    p == Out(Failed) || ((p.UnlockTx? || p.UnlockRx? || p.Resume?) && p.why.Expired? && p.op.Send?)
  }

  function StepsToFail(p: Pc): nat { if p.Out? || StepsLeft(p) < 3 then 0 else StepsLeft(p) - 2 }

  lemma FailingStep(s: State, a: Action, t: TaskId)
    requires Enabled(s, a) && t < s.Tasks() && Failing(s.pc[t]) && !(a.Call? && a.t == t)
    ensures var r := Next(s, a);
            && r.Tasks() == s.Tasks() && Failing(r.pc[t]) && a != Test(t)
            && StepsToFail(r.pc[t]) + (if By(a, t) then 1 else 0) <= StepsToFail(s.pc[t])
  {}

  lemma {:induction false} FailingGoesOn(s: State, run: seq<Action>, t: TaskId)
    requires Possible(s, run) && t < s.Tasks() && Failing(s.pc[t]) && OneCall(run, t)
    ensures var e := After(s, run);
            && e.Tasks() == s.Tasks() && Failing(e.pc[t]) && TimesServed(s, run, t) == 0
            && OwnSteps(run, t) + StepsToFail(e.pc[t]) <= StepsToFail(s.pc[t])
    decreases |run|
  {
    hide Enabled, Next, Failing, StepsToFail, By, Serves;
    if run != [] {
      FailingStep(s, run[0], t);
      RestIsOneCall(run, t);
      FailingGoesOn(Next(s, run[0]), run[1..], t);
    }
  }

  // A send whose time has been found to be over fails with its third step from there, even if there is
  // room by then.
  lemma OverdueSendFails(s: State, t: TaskId, run: seq<Action>)
    requires Enabled(s, Check(t, true)) && s.pc[t].op.Send?
    requires Possible(Next(s, Check(t, true)), run) && OneCall(run, t)
    ensures var e := After(Next(s, Check(t, true)), run);
            && t < e.Tasks() && TimesServed(Next(s, Check(t, true)), run, t) == 0
            && OwnSteps(run, t) <= 3 && (OwnSteps(run, t) == 3 ==> e.pc[t].Out?)
            && (e.pc[t].Out? ==> e.pc[t] == Out(Failed))
  {
    CheckMakesFailing(s, t);
    hide Enabled, Next;
    FailingGoesOn(Next(s, Check(t, true)), run, t);
  }

  lemma CheckMakesFailing(s: State, t: TaskId)
    requires Enabled(s, Check(t, true)) && s.pc[t].op.Send?
    ensures var r := Next(s, Check(t, true)); t < r.Tasks() && Failing(r.pc[t]) && StepsToFail(r.pc[t]) == 3
  {}

  // A receive or a peek whose time is over looks at the queue once more; if there is an item then, and
  // nobody takes it first, the call is served.
  lemma LastLook(s: State, t: TaskId)
    requires Enabled(s, LookAgain(t)) && s.pc[t].op.Reads() && s.holder == -1
    ensures var r := Next(s, LookAgain(t));
            if s.count == 0 then r.pc[t] == Out(Failed)
            else Enabled(r, Test(t)) && Next(r, Test(t)).pc[t] == Out(Passed) && Serves(r, Next(r, Test(t)), s.pc[t].op)
  {}

  lemma CheckMakesOverdue(s: State, t: TaskId)
    requires Enabled(s, Check(t, true))
    ensures var r := Next(s, Check(t, true)); t < r.Tasks() && Overdue(r.pc[t])
  {}

  // ---------------------------------------------------------------- the number of items

  // What a step adds to the queue, from what the call that it ends returns.
  function Added(s: State, a: Action): int
    requires Enabled(s, a)
  {
    match a
    case IsrSend => 1
    case IsrReceive => -1
    case IsrOverwrite => if s.count == 0 || s.itemSize == 0 then 1 else 0
    case Test(t) =>
      if Next(s, a).pc[t] != Out(Passed) then 0 else
        (match s.pc[t].op
         case Receive => -1
         case Peek => 0
         case Send => 1
         case Overwrite => if s.count == 0 || s.itemSize == 0 then 1 else 0)
    case _ => 0
  }

  function AddedInAll(s: State, run: seq<Action>): int
    requires Possible(s, run)
    decreases |run|
  {
    if run == [] then 0 else Added(s, run[0]) + AddedInAll(Next(s, run[0]), run[1..])
  }

  // No item comes or goes but by a call that returns pdPASS, or by an interrupt.
  lemma {:induction false} ItemsAreAccountedFor(s: State, run: seq<Action>)
    requires Possible(s, run)
    ensures After(s, run).count == s.count + AddedInAll(s, run)
    decreases |run|
  {
    if run != [] {
      AddedByStep(s, run[0]);
      ItemsAreAccountedFor(Next(s, run[0]), run[1..]);
    }
  }

  lemma AddedByStep(s: State, a: Action)
    requires Enabled(s, a)
    ensures Next(s, a).count == s.count + Added(s, a)
  {}

  // ---------------------------------------------------------------- calls that nobody disturbs

  // On the way back to the head of the loop, or there.
  predicate Underway(p: Pc) {
    p.Top? || p.Missed? || p.Suspended? || p.Locked? || p.Blocked?
    || ((p.UnlockTx? || p.UnlockRx? || p.Resume?) && p.why.Retry?)
  }

  function StepsToGo(p: Pc): nat
    requires Underway(p)
  {
    match p
    case Top(_, _) => 0
    case Blocked(_) => 1
    case Resume(_, _) => 1
    case UnlockRx(_, _) => 2
    case UnlockTx(_, _) => 3
    case Locked(_) => 4
    case Suspended(_) => 5
    case Missed(_) => 6
  }

  function OwnStep(p: Pc, t: TaskId): Action
    requires Underway(p)
  {
    match p
    case Top(_, _) => Test(t)
    case Blocked(_) => Run(t)
    case Resume(_, _) => ResumeAll(t)
    case UnlockRx(_, _) => DrainRx(t)
    case UnlockTx(_, _) => DrainTx(t)
    case Locked(_) => Check(t, false)
    case Suspended(_) => LockQueue(t)
    case Missed(_) => Suspend(t)
  }

  lemma OneOwnStep(s: State, t: TaskId)
    requires t < s.Tasks() && (s.holder == -1 || s.holder == t) && Underway(s.pc[t]) && Goods(s, s.pc[t].op)
    requires (s.pc[t].Blocked? ==> !Listed(s, t)) && (s.pc[t].op.Overwrite? ==> s.pc[t].Top?)
    ensures var a := OwnStep(s.pc[t], t);
            && Enabled(s, a) && By(a, t) && !a.Call? && a != Check(t, true)
            && var r := Next(s, a);
               && t < r.Tasks() && (r.holder == -1 || r.holder == t)
               && if s.pc[t].Top? then r.pc[t] == Out(Passed)
                  else Underway(r.pc[t]) && !r.pc[t].Blocked? && r.pc[t].op == s.pc[t].op && Goods(r, r.pc[t].op)
                       && StepsToGo(r.pc[t]) < StepsToGo(s.pc[t])
  {
    hide Drain;
  }

  // If the queue has what the call wants, and the task is not on the event list, its own steps lead to
  // the call being served.
  lemma {:induction false} OwnStepsServe(s: State, t: TaskId) returns (run: seq<Action>)
    requires t < s.Tasks() && (s.holder == -1 || s.holder == t) && Underway(s.pc[t]) && Goods(s, s.pc[t].op)
    requires (s.pc[t].Blocked? ==> !Listed(s, t)) && (s.pc[t].op.Overwrite? ==> s.pc[t].Top?)
    ensures Possible(s, run) && Check(t, true) !in run && forall a :: a in run ==> By(a, t) && !a.Call?
    ensures t < After(s, run).Tasks() && After(s, run).pc[t] == Out(Passed)
    decreases StepsToGo(s.pc[t])
  {
    var a := OwnStep(s.pc[t], t);
    OneOwnStep(s, t);
    if s.pc[t].Top? {
      run := [a];
      OneStep(s, a, []);
    } else {
      hide Enabled, Next, Goods, Listed, By, OwnStep;
      var rest := OwnStepsServe(Next(s, a), t);
      OneStep(s, a, rest);
      run := [a] + rest;
    }
  }

  // On the way to the event list and to blocking on it.
  predicate GoesToWait(p: Pc) {
    && ((p.Top? && p.patient) || p.Missed? || p.Suspended? || p.Locked? || p.Checked?
        || ((p.UnlockTx? || p.UnlockRx? || p.Resume?) && p.why.Waiting?))
    && !p.op.Overwrite?
  }

  function StepsToWait(p: Pc): nat {
    match p
    case Resume(_, _) => 1
    case UnlockRx(_, _) => 2
    case UnlockTx(_, _) => 3
    case Checked(_) => 4
    case Locked(_) => 5
    case Suspended(_) => 6
    case Missed(_) => 7
    case _ => 8
  }

  function WaitStep(p: Pc, t: TaskId): Action {
    match p
    case Resume(_, _) => ResumeAll(t)
    case UnlockRx(_, _) => DrainRx(t)
    case UnlockTx(_, _) => DrainTx(t)
    case Checked(_) => Join(t, 0)
    case Locked(_) => Check(t, false)
    case Suspended(_) => LockQueue(t)
    case Missed(_) => Suspend(t)
    case _ => Test(t)
  }

  // On the list that its call waits on.
  predicate OnItsList(s: State, t: TaskId, op: Op) {
    t in (if op.Reads() then s.readers.waiters else s.writers.waiters)
  }

  predicate Quiet(s: State, t: TaskId) {
    && t < s.Tasks() && (s.holder == -1 || s.holder == t) && s.readers.lock <= 0 && s.writers.lock <= 0
    && (s.pc[t].UnlockTx? || s.pc[t].UnlockRx? || s.pc[t].Resume? ==> OnItsList(s, t, s.pc[t].op))
  }

  lemma OneWaitStep(s: State, t: TaskId)
    requires Quiet(s, t) && GoesToWait(s.pc[t]) && !Goods(s, s.pc[t].op) && s.count <= s.length
    ensures var a := WaitStep(s.pc[t], t);
            && Enabled(s, a) && By(a, t) && !a.Call?
            && var r := Next(s, a);
               && Quiet(r, t) && r.count == s.count && r.length == s.length
               && if s.pc[t].Resume? then
                    r.pc[t] == Blocked(s.pc[t].op) && OnItsList(r, t, s.pc[t].op) && r.holder == -1
                  else
                    GoesToWait(r.pc[t]) && r.pc[t].op == s.pc[t].op && StepsToWait(r.pc[t]) < StepsToWait(s.pc[t])
  {
    NothingToDrain(s.readers);
    NothingToDrain(s.writers);
    hide Drain, Wake;
  }

  lemma NothingToDrain(s: Side)
    requires s.lock <= 0
    ensures Unlocked(s).waiters == s.waiters
  {}

  // If the queue has nothing for the call, and there is block time left, the task's own steps lead to its
  // being blocked on the event list: it does not go round and round.
  lemma {:induction false} OwnStepsBlock(s: State, t: TaskId) returns (run: seq<Action>)
    requires Quiet(s, t) && GoesToWait(s.pc[t]) && !Goods(s, s.pc[t].op) && s.count <= s.length
    ensures Possible(s, run) && forall a :: a in run ==> By(a, t) && !a.Call?
    ensures var e := After(s, run);
            t < e.Tasks() && e.pc[t] == Blocked(s.pc[t].op) && OnItsList(e, t, s.pc[t].op) && e.holder == -1
    decreases StepsToWait(s.pc[t])
  {
    var a := WaitStep(s.pc[t], t);
    OneWaitStep(s, t);
    if s.pc[t].Resume? {
      run := [a];
      OneStep(s, a, []);
    } else {
      SameGoods(s, Next(s, a), s.pc[t].op);
      hide Enabled, Next, Goods, Quiet, By, WaitStep;
      var rest := OwnStepsBlock(Next(s, a), t);
      OneStep(s, a, rest);
      run := [a] + rest;
    }
  }

  lemma SameGoods(s: State, r: State, op: Op)
    requires r.count == s.count && r.length == s.length
    ensures Goods(r, op) <==> Goods(s, op)
  {}
}
