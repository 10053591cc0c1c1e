/** What a command does to the timer it is for, over whole runs of the daemon.  The results are stated
  * by what a user of the timer sees: its period, whether it is active, and how often its callback has
  * been called by when.
  */
module TimerCommands {
  import opened Arithmetic
  import opened Lists
  import opened Ticks
  import opened Timers

  // ---------------------------------------------------------------- timers that run

  // A timer that was set going as of time c with period p, as it is found at time n.  An auto-reload
  // timer has its callbacks at c + p, c + 2p and so on, another timer one at c + p.  None ever comes
  // early; once all expiries up to n have been processed, none is missing either.
  predicate Runs(before: Timer, t: Timer, c: nat, p: nat, n: nat, processed: bool)
    requires 0 < p && c <= n
  {
    && t.period == p && t.autoReload == before.autoReload && t.isStatic == before.isStatic
    && before.calls <= t.calls
    && var calls := t.calls - before.calls;
       if t.autoReload then
         && t.active && calls <= (n - c) / p && t.due == c + (calls + 1) * p
         && (processed ==> calls == (n - c) / p && n < t.due)
       else
         && calls <= (if c + p <= n then 1 else 0) && (t.active <==> calls == 0) && t.due == c + p
         && (processed ==> (t.active <==> n < c + p))
  }

  lemma NotEarly(c: nat, p: nat, k: nat, n: nat)
    requires 0 < p && c <= n && c + (k + 1) * p <= n + p
    ensures k <= (n - c) / p
  {
    assert (k + 1) * p == k * p + p;
    var q, r := (n - c) / p, (n - c) % p;
    assert n - c == q * p + r;
    if q < k {
      assert (k - q) * p == k * p - q * p;
      MulAtLeast(k - q, p);
    }
  }

  lemma NotLate(c: nat, p: nat, k: nat, n: nat)
    requires 0 < p && c <= n && n < c + (k + 1) * p && k <= (n - c) / p
    ensures k == (n - c) / p
  {
    assert (k + 1) * p == k * p + p;
    var q, r := (n - c) / p, (n - c) % p;
    assert n - c == q * p + r;
    if k < q {
      assert (q - k) * p == q * p - k * p;
      MulAtLeast(q - k, p);
      assert false;
    }
  }

  // A timer whose due time is right and that has only moved from expiry to expiry.
  lemma ProgressRuns(s: State, n: nat, id: Id, before: Timer, started: Timer, c: nat)
    requires Settled(s, n) && id in s.timers && 0 < started.period && c <= n
    requires started == before.(active := true, period := started.period).At(c + started.period)
    requires Progress(started, s.timers[id], n)
    ensures Runs(before, s.timers[id], c, started.period, n, Idle(s, n))
  {
    hide ListOk, Idle, Epoch;
    var t, p := s.timers[id], started.period;
    var k := t.calls - before.calls;
    assert Agrees(s, id);
    if t.autoReload {
      assert (k + 1) * p == k * p + p;
      ListedIsOk(s, n, id);
      NotEarly(c, p, k, n);
    }
    if t.active && Idle(s, n) {
      NothingDueWhenIdle(s, n, id);
      if t.autoReload {
        NotLate(c, p, k, n);
      }
    }
  }

  lemma ListedIsOk(s: State, n: nat, id: Id)
    requires Settled(s, n) && Listed(s, id)
    ensures id in s.timers && s.timers[id].due <= n + s.timers[id].period
  {}

  // A run that begins with some step goes on from what that step has left.
  lemma FirstStep(s: State, clock: nat, e: Event, events: seq<Event>)
    requires Settled(s, clock) && Possible(s, clock, [e] + events)
    ensures Enabled(s, clock, e) && Settled(Step(s, clock, e), Time(clock, e))
    ensures Possible(Step(s, clock, e), Time(clock, e), events)
    ensures After(s, clock, [e] + events) == After(Step(s, clock, e), Time(clock, e), events)
  {
    hide Settled, Step, Enabled;
    var run := [e] + events;
    assert run[0] == e && run[1..] == events;
    StepKeepsSettled(s, clock, e);
  }

  // The timer a command is for is off its list, and otherwise as it was, when the command is obeyed.
  lemma ReceivedTimer(s: State, clock: nat, m: Message) returns (v: State)
    requires Settled(s, clock) && Sendable(s, clock, m)
    ensures Valid(v, Epoch(m.seen), m.seen) && !Listed(v, m.id)
    ensures m.id in s.timers && m.id in v.timers && v.timers[m.id] == s.timers[m.id]
    ensures Valid(s, Epoch(clock), clock) && Handled(s, clock, m) == Obeyed(v, m)
  {
    hide ListOk, Progress, Sampled, Obeyed, Epoch, Tick;
    ReceiveSetsUp(s, clock, m);
    var u := Unlisted(s, m.id);
    UnlistKeepsValid(s, m.id, Epoch(clock), clock);
    SampledKeepsValid(u, clock, m.seen);
    v := Sampled(u, clock, m.seen);
    assert Moved(u, v, m.id, m.seen);
  }

  lemma PeriodIsPositive(s: State, clock: nat, id: Id)
    requires Settled(s, clock) && id in s.timers
    ensures 0 < s.timers[id].period < TICKS
  {}

  // A start or reset command given at time c sets the timer going as of c, however long (below 2^32
  // ticks) the command has waited and however often the tick counter wraps.
  lemma StartedTimerIsExact(s: State, clock: nat, m: Message, events: seq<Event>)
    requires Settled(s, clock) && Possible(s, clock, [Receive(m)] + events)
    requires m.command == Start && m.id in s.timers
    requires forall e :: e in events ==> !Concerns(e, m.id)
    ensures var (s', n) := After(s, clock, [Receive(m)] + events);
            && m.id in s'.timers && m.at <= n && 0 < s.timers[m.id].period
            && Runs(s.timers[m.id], s'.timers[m.id], m.at, s.timers[m.id].period, n, Idle(s', n))
  {
    hide ListOk, After, Possible, Concerns, Epoch, Progress, Obeyed, Settled, Idle, Valid, Runs, Handled;
    FirstStep(s, clock, Receive(m), events);
    PeriodIsPositive(s, clock, m.id);
    var v := ReceivedTimer(s, clock, m);
    StartObeyed(v, m);
    var started := s.timers[m.id].(active := true).At(m.at + s.timers[m.id].period);
    MovesOn(Handled(s, clock, m), m.seen, events, m.id, started);
    var (s', n) := After(Handled(s, clock, m), m.seen, events);
    ProgressRuns(s', n, m.id, s.timers[m.id], started, m.at);
  }

  lemma MovesOn(s: State, clock: nat, events: seq<Event>, id: Id, t: Timer)
    requires Settled(s, clock) && Possible(s, clock, events) && id in s.timers
    requires forall e :: e in events ==> !Concerns(e, id)
    requires Progress(t, s.timers[id], clock)
    ensures var (s', n) := After(s, clock, events);
            Settled(s', n) && clock <= n && id in s'.timers && Progress(t, s'.timers[id], n)
  {
    hide ListOk, After, Possible, Concerns, Epoch, Progress, Settled;
    RunKeepsSettled(s, clock, events);
    var (s', n) := After(s, clock, events);
    assert Moved(s, s', id, n);
    ProgressTransitive(t, s.timers[id], s'.timers[id], clock, n);
  }

  // A timer whose period is changed is set going with the new period as of the time at which the
  // daemon sees the command, also if it was inactive.
  lemma ChangedTimerIsExact(s: State, clock: nat, m: Message, events: seq<Event>)
    requires Settled(s, clock) && Possible(s, clock, [Receive(m)] + events)
    requires m.command == ChangePeriod && m.id in s.timers
    requires forall e :: e in events ==> !Concerns(e, m.id)
    ensures var (s', n) := After(s, clock, [Receive(m)] + events);
            && m.id in s'.timers && m.seen <= n && 0 < m.value
            && Runs(s.timers[m.id], s'.timers[m.id], m.seen, m.value, n, Idle(s', n))
  {
    hide ListOk, After, Possible, Concerns, Epoch, Progress, Obeyed, Settled, Idle, Valid, Runs, Handled;
    FirstStep(s, clock, Receive(m), events);
    var v := ReceivedTimer(s, clock, m);
    ChangeObeyed(v, m);
    var changed := s.timers[m.id].(active := true, period := m.value).At(m.seen + m.value);
    MovesOn(Handled(s, clock, m), m.seen, events, m.id, changed);
    var (s', n) := After(Handled(s, clock, m), m.seen, events);
    ProgressRuns(s', n, m.id, s.timers[m.id], changed, m.seen);
  }

  // ---------------------------------------------------------------- timers that do not run

  // The steps after which timer id may have callbacks again.
  predicate Restarts(e: Event, id: Id) {
    match e
    case Create(x, _, _, _) => x == id
    case Receive(m) => m.id == id && (m.command == Start || m.command == ChangePeriod)
    case _ => false
  }

  predicate Deletes(e: Event, id: Id) { e.Receive? && e.message.id == id && e.message.command == Delete }

  // Timer id is inactive, if it still exists, and has had no callback.
  predicate Silent(s: State, s': State, id: Id) {
    && (id in s'.timers ==>
         && id in s.timers && !s'.timers[id].active && s'.timers[id].calls == s.timers[id].calls
         && s'.timers[id].period == s.timers[id].period && s'.timers[id].isStatic == s.timers[id].isStatic)
  }

  lemma {:induction false} StoppedStaysSilent(s: State, clock: nat, events: seq<Event>, id: Id)
    requires Settled(s, clock) && Possible(s, clock, events)
    requires id in s.timers ==> !s.timers[id].active
    requires forall e :: e in events ==> !Restarts(e, id)
    ensures Silent(s, After(s, clock, events).0, id)
    ensures id in s.timers && (forall e :: e in events && Deletes(e, id) ==> s.timers[id].isStatic) ==>
              id in After(s, clock, events).0.timers
    decreases |events|
  {
    hide ListOk, Step, Enabled, Restarts, Deletes, Settled;
    if events != [] {
      assert events[0] in events;
      SilentStep(s, clock, events[0], id);
      StepKeepsSettled(s, clock, events[0]);
      StoppedStaysSilent(Step(s, clock, events[0]), Time(clock, events[0]), events[1..], id);
    }
  }

  lemma SilentStep(s: State, clock: nat, e: Event, id: Id)
    requires Settled(s, clock) && Enabled(s, clock, e) && !Restarts(e, id)
    requires (id in s.timers ==> !s.timers[id].active) || (e.Receive? && e.message.id == id)
    ensures Silent(s, Step(s, clock, e), id)
    ensures id in s.timers && (Deletes(e, id) ==> s.timers[id].isStatic) ==> id in Step(s, clock, e).timers
    ensures Deletes(e, id) && id in s.timers && !s.timers[id].isStatic ==> id !in Step(s, clock, e).timers
  {
    hide ListOk, Handled, Passed, Sendable, Progress, Epoch, Valid;
    if Concerns(e, id) {
      if e.Receive? {
        var _ := ReceivedTimer(s, clock, e.message);
      }
    } else {
      StepKeepsSettled(s, clock, e);
      assert Moved(s, Step(s, clock, e), id, Time(clock, e)) && Agrees(s, id);
    }
  }

  // After a stop command, and after the deletion of a timer that is not freed, the timer is inactive
  // and has no callback until it is started again or given a period; a deleted timer whose memory is
  // the daemon's own is gone.
  lemma StoppedTimerIsSilent(s: State, clock: nat, m: Message, events: seq<Event>)
    requires Settled(s, clock) && Possible(s, clock, [Receive(m)] + events)
    requires (m.command == Stop || m.command == Delete) && m.id in s.timers
    requires forall e :: e in events ==> !Restarts(e, m.id)
    ensures var s' := After(s, clock, [Receive(m)] + events).0;
            && Silent(s, s', m.id)
            && (m.command == Delete && !s.timers[m.id].isStatic ==> m.id !in s'.timers)
            && ((forall e :: e in [Receive(m)] + events && Deletes(e, m.id) ==> s.timers[m.id].isStatic) ==>
                 m.id in s'.timers)
  {
    hide ListOk, After, Possible, Step, Enabled, Settled;
    var run := [Receive(m)] + events;
    FirstStep(s, clock, Receive(m), events);
    SilentStep(s, clock, Receive(m), m.id);
    var s1 := Step(s, clock, Receive(m));
    StoppedStaysSilent(s1, m.seen, events, m.id);
    assert Receive(m) in run && forall e :: e in events ==> e in run;
  }

  // ---------------------------------------------------------------- configured timers

  // A timer runs with the period and in the mode that it was created with, or in the mode that it was
  // given last.
  lemma ConfiguredTimerIsExact(s: State, clock: nat, e: Event, m: Message, events: seq<Event>)
    requires Settled(s, clock) && Possible(s, clock, [e] + ([Receive(m)] + events))
    requires (e.Create? || e.SetReloadMode?) && e.id == m.id && m.command == Start
    requires forall e' :: e' in events ==> !Concerns(e', m.id)
    ensures e.SetReloadMode? ==> m.id in s.timers
    ensures var (s', n) := After(s, clock, [e] + ([Receive(m)] + events));
            var before := if e.Create? then Timer(e.period, e.reloads, false, e.isStatic, 0, 0, 0)
                          else s.timers[m.id].(autoReload := e.reloads);
            && m.id in s'.timers && m.at <= n && 0 < before.period
            && Runs(before, s'.timers[m.id], m.at, before.period, n, Idle(s', n))
  {
    hide ListOk, After, Possible, Concerns, Settled, Idle, Runs;
    FirstStep(s, clock, e, [Receive(m)] + events);
    StartedTimerIsExact(Step(s, clock, e), Time(clock, e), m, events);
  }

  // ---------------------------------------------------------------- expiries are processed

  function DueNow(s: State, t: nat): set<Id> {
    set x | x in s.current && x in s.timers && s.timers[x].due <= t
  }

  // Some passes at time t, one a timer and one more for the rollover, process all that has expired.
  lemma PassesMakeIdle(s: State, clock: nat, t: nat) returns (passes: seq<Event>)
    requires Settled(s, clock) && Timely(s, clock, t)
    ensures forall e :: e in passes ==> e == Pass(t)
    ensures Possible(s, clock, passes) && After(s, clock, passes).1 == t
    ensures Idle(After(s, clock, passes).0, t)
  {
    hide ListOk, Passed, Valid, Timely, Idle, Epoch, Tick, Agrees;
    PassedKeepsSettled(s, clock, t);
    TimelyAgain(Passed(s, clock, t), t);
    var rest := PassesAgain(Passed(s, clock, t), t);
    passes := [Pass(t)] + rest;
    assert passes[1..] == rest;
  }

  lemma TimelyAgain(s: State, t: nat)
    ensures Timely(s, t, t)
  {}

  lemma PassesAgain(s: State, t: nat) returns (passes: seq<Event>)
    requires Settled(s, t)
    ensures forall e :: e in passes ==> e == Pass(t)
    ensures Possible(s, t, passes) && After(s, t, passes).1 == t
    ensures Idle(After(s, t, passes).0, t)
    decreases |DueNow(s, t)|
  {
    hide ListOk, Passed, Valid, DueNow, Epoch, Tick, Agrees;
    if Idle(s, t) {
      passes := [];
    } else {
      TimelyAgain(s, t);
      PassedKeepsSettled(s, t, t);
      PassProcessesOne(s, t);
      var rest := PassesAgain(Passed(s, t, t), t);
      passes := [Pass(t)] + rest;
      assert passes[1..] == rest;
    }
  }

  // The expiry of the head leaves the other timers alone, and the head is due again only later.
  lemma ExpiredProcesses(s: State, t: nat)
    requires Valid(s, Epoch(t), t) && s.current != [] && s.current[0] in s.timers && s.timers[s.current[0]].due <= t
    ensures var id, s' := s.current[0], Expired(s, t);
            && id in s'.timers && s'.timers == s.timers[id := s'.timers[id]]
            && Valid(s', Epoch(t), t) && (Listed(s', id) ==> t < s'.timers[id].due)
            && (forall x :: Listed(s', x) ==> Listed(s, x))
  {
    hide ListOk, Fired, Progress, Epoch, Tick;
    var id := s.current[0];
    HeadIsNext(s, s.current, Epoch(t), t);
    UnlistedHead(s, t);
    var u := s.(current := Remove(s.current, id));
    ExpiredKeepsValid(s, t, Epoch(t), t);
    FiredKeepsValid(u, id, t, Epoch(t), t);
  }

  lemma NotDueYet(s: State, t: nat, x: Id)
    requires Valid(s, Epoch(t), t) && x in s.overflow
    ensures x in s.timers && t < s.timers[x].due
  {
    LaterEpoch(t, s.timers[x].due);
  }

  lemma Smaller(less: set<Id>, more: set<Id>, x: Id)
    requires less <= more - {x} && x in more
    ensures |less| < |more|
  {
    WithinIsFewer(less, more - {x});
  }

  lemma {:induction false} WithinIsFewer(less: set<Id>, more: set<Id>)
    requires less <= more
    ensures |less| <= |more|
  {
    if less != {} {
      var x :| x in less;
      WithinIsFewer(less - {x}, more - {x});
    }
  }

  lemma PassProcessesOne(s: State, t: nat)
    requires Settled(s, t) && Timely(s, t, t) && !Idle(s, t)
    ensures |DueNow(Passed(s, t, t), t)| < |DueNow(s, t)|
  {
    hide ListOk, Expired, Epoch, Tick;
    var id := s.current[0];
    HeadIsNext(s, s.current, Epoch(t), t);
    ExpiredProcesses(s, t);
    var s' := Expired(s, t);
    forall x | x in DueNow(s', t) ensures x in DueNow(s, t) && x != id {
      assert Listed(s', x) && Listed(s, x) && x != id;
      assert s'.timers[x] == s.timers[x];
      if x in s.overflow {
        NotDueYet(s, t, x);
      }
    }
    Smaller(DueNow(s', t), DueNow(s, t), id);
  }
}
