/** xEventGroupSync as a barrier that a fixed set of tasks passes again and again, each setting its
  * own bits and all waiting, without a time limit, for the same bits that nobody else touches.
  */
module Barrier {
  import opened Wrappers
  import opened Lists
  import opened Words
  import opened EventGroups

  datatype Setup = Setup(own: seq<Bits>, waitFor: Bits)

  function Union(own: seq<Bits>, tasks: seq<Id>): Bits {
    if tasks == [] then 0 else
      var last := tasks[|tasks| - 1];
      Join(Union(own, tasks[..|tasks| - 1]), if last < |own| then own[last] else 0)
  }

  function AllTasks(n: nat): seq<Id> { if n == 0 then [] else AllTasks(n - 1) + [n - 1] }

  // The tasks' bits together are all that is waited for, which is something and no control bit.
  ghost predicate SetupOk(c: Setup) {
    && c.waitFor != 0 && Common(c.waitFor, CONTROL) == 0
    && Common(Union(c.own, AllTasks(|c.own|)), c.waitFor) == c.waitFor
  }

  // Bits waited for that no other task sets.
  function Private(c: Setup, i: Id): Bits {
    Minus(c.waitFor, Union(c.own, Except(AllTasks(|c.own|), i)))
  }

  function Except(tasks: seq<Id>, i: Id): seq<Id> { Remove(tasks, i) }

  ghost predicate EachHasPrivateBit(c: Setup) {
    forall i: Id :: i < |c.own| ==> Private(c, i) != 0
  }

  ghost predicate NoneSets(own: seq<Bits>, tasks: seq<Id>, mask: Bits) {
    forall x :: x in tasks && x < |own| ==> Common(own[x], mask) == 0
  }

  lemma {:induction false} UnionMisses(own: seq<Bits>, tasks: seq<Id>, mask: Bits)
    ensures Common(Union(own, tasks), mask) == 0 <==> NoneSets(own, tasks, mask)
  {
    hide Common, Join;
    if tasks == [] {
      ZeroIsClear(mask);
    } else {
      var n := |tasks| - 1;
      assert tasks == tasks[..n] + [tasks[n]];
      UnionMisses(own, tasks[..n], mask);
      ZeroIsClear(mask);
      OrIsClear(Union(own, tasks[..n]), if tasks[n] < |own| then own[tasks[n]] else 0, mask);
    }
  }

  lemma UnionGrows(own: seq<Bits>, tasks: seq<Id>, more: seq<Id>)
    requires forall x :: x in tasks ==> x in more
    ensures Common(Union(own, tasks), Others(Union(own, more))) == 0
  {
    hide Common, Others, Union;
    var missing := Others(Union(own, more));
    MaskSelf(Union(own, more));
    UnionMisses(own, more, missing);
    UnionMisses(own, tasks, missing);
  }

  lemma {:induction false} AllTasksAre(n: nat)
    ensures |AllTasks(n)| == n && Distinct(AllTasks(n)) && forall x: Id :: x in AllTasks(n) <==> x < n
  {
    if n > 0 {
      AllTasksAre(n - 1);
      var less := AllTasks(n - 1);
      assert n - 1 !in less;
      assert forall x: Id :: x in less + [n - 1] <==> x in less || x == n - 1;
    }
  }

  // These tasks have set all the bits that are waited for.
  predicate Opens(c: Setup, tasks: seq<Id>) {
    Common(Union(c.own, tasks), c.waitFor) == c.waitFor
  }

  // If all tasks have come the barrier opens.
  lemma OpensForAll(c: Setup, tasks: seq<Id>)
    requires SetupOk(c) && forall i: Id :: i < |c.own| ==> i in tasks
    ensures Opens(c, tasks)
  {
    hide Common, Others, Union, AllTasks;
    AllTasksAre(|c.own|);
    var all := AllTasks(|c.own|);
    UnionGrows(c.own, all, tasks);
    AllOrMissing(Union(c.own, all), c.waitFor);
    WithinTransitive(c.waitFor, Union(c.own, all), Union(c.own, tasks));
    AllOrMissing(Union(c.own, tasks), c.waitFor);
  }

  ghost predicate OpensOnlyAfter(c: Setup, i: Id) {
    forall tasks :: Opens(c, tasks) ==> i in tasks
  }

  // It opens only after every task has come, whatever the order, exactly if each task sets a bit that
  // is waited for and that no other task sets.
  lemma OpensOnlyForAllIff(c: Setup)
    requires SetupOk(c)
    ensures (forall i: Id :: i < |c.own| ==> OpensOnlyAfter(c, i)) <==> EachHasPrivateBit(c)
  {
    hide SetupOk, Private, OpensOnlyAfter;
    forall i: Id | i < |c.own| ensures Private(c, i) != 0 <==> OpensOnlyAfter(c, i) {
      OpensOnlyWith(c, i);
    }
  }

  lemma OpensOnlyWith(c: Setup, i: Id)
    requires SetupOk(c) && i < |c.own|
    ensures Private(c, i) != 0 <==> OpensOnlyAfter(c, i)
  {
    hide Common, Others, Union, AllTasks;
    var all := AllTasks(|c.own|);
    AllTasksAre(|c.own|);
    RemoveOne(all, i);
    var others := Except(all, i);
    AllOrMissing(Union(c.own, others), c.waitFor);
    if Private(c, i) == 0 {
      assert Opens(c, others) && i !in others;
    } else {
      forall tasks | Opens(c, tasks) ensures i in tasks {
        if i !in tasks {
          OpensWithOthers(c, tasks, others);
        }
      }
    }
  }

  lemma OpensWithOthers(c: Setup, tasks: seq<Id>, others: seq<Id>)
    requires Opens(c, tasks) && forall x :: x in tasks && x < |c.own| ==> x in others
    ensures Opens(c, others)
  {
    hide Common, Others, Union;
    var missing := Others(Union(c.own, others));
    MaskSelf(Union(c.own, others));
    UnionMisses(c.own, others, missing);
    UnionMisses(c.own, tasks, missing);
    AllOrMissing(Union(c.own, tasks), c.waitFor);
    WithinTransitive(c.waitFor, Union(c.own, tasks), Union(c.own, others));
    AllOrMissing(Union(c.own, others), c.waitFor);
  }

  // ---------------------------------------------------------------- rounds

  // `arrivals` and `departures` count each task's calls begun and ended; `inside` are the tasks that a
  // call has blocked and that have not returned from it; `rounds` is how often the barrier opened.
  datatype Rendezvous = Rendezvous(group: State, inside: set<Id>, arrivals: seq<nat>, departures: seq<nat>, rounds: nat)

  datatype Action = Arrive(i: Id) | Return(i: Id)

  ghost predicate Enabled(c: Setup, b: Rendezvous, a: Action) {
    && a.i < |c.own| && |b.arrivals| == |b.departures| == |c.own|
    && match a
       case Arrive(i) => i !in b.inside
       case Return(i) => i in b.inside && i !in b.group.waiting && i in b.group.items
  }

  // What the call returns, if the action ends it.
  ghost function Result(c: Setup, b: Rendezvous, a: Action): Option<Bits>
    requires Enabled(c, b, a)
  {
    match a
    case Arrive(i) =>
      var o := AfterSync(b.group, i, c.own[i], c.waitFor).1;
      if o.Done? then Some(o.bits) else None
    case Return(i) => Some(Minus(b.group.items[i], CONTROL))
  }

  ghost function Next(c: Setup, b: Rendezvous, a: Action): Rendezvous
    requires Enabled(c, b, a)
  {
    match a
    case Arrive(i) =>
      var (g, o) := AfterSync(b.group, i, c.own[i], c.waitFor);
      var arrivals := b.arrivals[i := b.arrivals[i] + 1];
      if o.Done? then Rendezvous(g, b.inside, arrivals, b.departures[i := b.departures[i] + 1], b.rounds + 1)
      else Rendezvous(g, b.inside + {i}, arrivals, b.departures, b.rounds)
    case Return(i) =>
      Rendezvous(b.group.(items := b.group.items[i := 0]), b.inside - {i}, b.arrivals,
            b.departures[i := b.departures[i] + 1], b.rounds)
  }

  function Item(c: Setup): Bits { ItemValue(c.waitFor, true, true) }

  // A task that has been woken, and not returned yet, holds all the bits waited for.
  predicate WokenOk(c: Setup, item: Bits) {
    Common(item, UNBLOCKED_DUE_TO_BIT_SET) != 0 && Common(Minus(item, CONTROL), c.waitFor) == c.waitFor
  }

  ghost predicate TaskOk(c: Setup, b: Rendezvous, i: Id)
    requires i < |b.arrivals| && |b.departures| == |b.arrivals|
  {
    && b.arrivals[i] == b.rounds + (if i in b.group.waiting then 1 else 0)
    && b.departures[i] + (if i in b.inside then 1 else 0) == b.arrivals[i]
    && (i in b.group.waiting ==> i in b.inside && i in b.group.items && b.group.items[i] == Item(c))
    && (i in b.inside && i !in b.group.waiting ==> i in b.group.items && WokenOk(c, b.group.items[i]))
  }

  ghost predicate Inv(c: Setup, b: Rendezvous) {
    && |b.arrivals| == |b.departures| == |c.own|
    && Distinct(b.group.waiting) && (forall x :: x in b.group.waiting ==> x < |c.own|)
    && Common(b.group.bits, c.waitFor) == Common(Union(c.own, b.group.waiting), c.waitFor)
    && (|c.own| > 0 ==> !Opens(c, b.group.waiting))
    && forall i: Id :: i < |c.own| ==> TaskOk(c, b, i)
  }

  lemma {:induction false} NoneStay(waiting: seq<Id>, items: map<Id, Bits>, bits: Bits, on: bool)
    requires forall x :: x in waiting ==> x in items && Satisfied(items[x], bits) == on
    ensures Staying(waiting, items, bits) == if on then [] else waiting
    ensures !on ==> ClearUnion(waiting, items, bits) == 0
  {
    hide Satisfied, Join;
    if waiting != [] {
      var n := |waiting| - 1;
      assert waiting == waiting[..n] + [waiting[n]] && waiting[n] in waiting;
      NoneStay(waiting[..n], items, bits, on);
      JoinZero(0);
    }
  }

  // As long as the condition of the waiters is not met, setting bits only adds to the bits.
  lemma NoneWoken(s: State, bitsToSet: Bits)
    requires forall x :: x in s.waiting ==> x in s.items && !Satisfied(s.items[x], Join(s.bits, bitsToSet))
    ensures AfterSetBits(s, bitsToSet) == State(Join(s.bits, bitsToSet), s.waiting, s.items)
  {
    hide Satisfied, Join, Minus;
    var bits := Join(s.bits, bitsToSet);
    NoneStay(s.waiting, s.items, bits, false);
    MinusNothing(bits);
    assert Answered(s.waiting, s.items, bits) == s.items;
  }

  lemma WaitersAgree(c: Setup, b: Rendezvous, bits: Bits)
    requires Inv(c, b) && SetupOk(c)
    ensures forall x :: x in b.group.waiting ==>
              x in b.group.items && Satisfied(b.group.items[x], bits) == (Common(bits, c.waitFor) == c.waitFor)
  {
    hide Common, Union, AllTasks, Satisfied, Clears, Opens, ItemValue, CONTROL;
    ItemKeepsCondition(c.waitFor, true, true, bits);
    forall x | x in b.group.waiting
      ensures x in b.group.items && Satisfied(b.group.items[x], bits) == (Common(bits, c.waitFor) == c.waitFor)
    {
      assert TaskOk(c, b, x);
    }
  }

  // Whether the barrier opens when task i comes depends on the tasks that have come.
  lemma ArrivalOpens(c: Setup, b: Rendezvous, i: Id)
    requires Inv(c, b) && i < |c.own|
    ensures Common(Join(b.group.bits, c.own[i]), c.waitFor)
            == Common(Union(c.own, b.group.waiting + [i]), c.waitFor)
    ensures Complete(b.group, c.own[i], c.waitFor) <==> Opens(c, b.group.waiting + [i])
  {
    hide Common, Join;
    var more := b.group.waiting + [i];
    assert more[..|more| - 1] == b.group.waiting;
    JoinInMask(b.group.bits, Union(c.own, b.group.waiting), c.own[i], c.waitFor);
  }

  lemma ArriveAndWait(c: Setup, b: Rendezvous, i: Id)
    requires SetupOk(c) && Inv(c, b) && Enabled(c, b, Arrive(i)) && !Complete(b.group, c.own[i], c.waitFor)
    ensures Inv(c, Next(c, b, Arrive(i))) && Result(c, b, Arrive(i)) == None
  {
    hide Common, Join, Union, Satisfied, ItemValue, SetupOk, Opens, AfterSetBits, Complete;
    ArrivalOpens(c, b, i);
    WaitersAgree(c, b, Join(b.group.bits, c.own[i]));
    NotComplete(c, b, i);
    NoneWoken(b.group, c.own[i]);
    assert TaskOk(c, b, i);
    var b' := Next(c, b, Arrive(i));
    forall x: Id | x < |c.own| ensures TaskOk(c, b', x) {
      assert TaskOk(c, b, x);
    }
    assert Distinct(b'.group.waiting) by { DistinctAppend(b.group.waiting, i); }
  }

  lemma NotComplete(c: Setup, b: Rendezvous, i: Id)
    requires i < |c.own| && !Complete(b.group, c.own[i], c.waitFor)
    ensures Common(Join(b.group.bits, c.own[i]), c.waitFor) != c.waitFor
  {}

  lemma DistinctAppend(xs: seq<Id>, x: Id)
    requires Distinct(xs) && x !in xs
    ensures Distinct(xs + [x])
  {}

  lemma AllHaveCome(c: Setup, b: Rendezvous, i: Id)
    requires SetupOk(c) && EachHasPrivateBit(c) && Inv(c, b) && i < |c.own|
    requires Complete(b.group, c.own[i], c.waitFor)
    ensures forall x: Id :: x < |c.own| && x != i ==> x in b.group.waiting
  {
    hide SetupOk, Opens, EachHasPrivateBit, Complete, TaskOk, Union;
    ArrivalOpens(c, b, i);
    OpensOnlyForAllIff(c);
    forall x: Id | x < |c.own| && x != i ensures x in b.group.waiting {
      assert OpensOnlyAfter(c, x);
    }
  }

  // The last task to come opens the barrier for all: nobody is left waiting and the bits are clear.
  lemma ArriveAndOpen(c: Setup, b: Rendezvous, i: Id)
    requires SetupOk(c) && EachHasPrivateBit(c) && Inv(c, b) && Enabled(c, b, Arrive(i))
    requires Complete(b.group, c.own[i], c.waitFor)
    ensures var b' := Next(c, b, Arrive(i));
            && Inv(c, b') && b'.group.waiting == [] && Common(b'.group.bits, c.waitFor) == 0
            && Result(c, b, Arrive(i)) == Some(Join(b.group.bits, c.own[i]))
  {
    hide Common, Join, Union, Satisfied, ItemValue, SetupOk, EachHasPrivateBit, Opens, Minus, ClearUnion, Staying,
         Answer, CONTROL;
    AllHaveCome(c, b, i);
    var bits := Join(b.group.bits, c.own[i]);
    WaitersAgree(c, b, bits);
    NoneStay(b.group.waiting, b.group.items, bits, true);
    var b' := Next(c, b, Arrive(i));
    MinusInMask(Minus(bits, ClearUnion(b.group.waiting, b.group.items, bits)), c.waitFor);
    NobodyOpens(c);
    AnswerHasAll(c, bits);
    assert TaskOk(c, b, i);
    forall x: Id | x < |c.own| ensures TaskOk(c, b', x) {
      assert TaskOk(c, b, x);
    }
  }

  lemma NobodyOpens(c: Setup)
    requires SetupOk(c)
    ensures Common(Union(c.own, []), c.waitFor) == 0 && !Opens(c, [])
  {
    hide Common;
    ZeroIsClear(c.waitFor);
  }

  lemma AnswerHasAll(c: Setup, bits: Bits)
    requires SetupOk(c) && Common(bits, c.waitFor) == c.waitFor
    ensures WokenOk(c, Answer(bits))
  {
    hide Union, AllTasks, Common, Minus, Answer, CONTROL;
    AnswerKeepsBits(bits, c.waitFor);
  }

  lemma AnswerKeepsBits(bits: Bits, mask: Bits)
    requires Common(mask, CONTROL) == 0
    ensures Common(Answer(bits), UNBLOCKED_DUE_TO_BIT_SET) != 0
    ensures Common(Minus(Answer(bits), CONTROL), mask) == Common(bits, mask)
  {
    AnswerIsMarked(bits);
    MaskedAnswer(bits, mask);
  }

  lemma AnswerIsMarked(bits: Bits)
    ensures Common(Answer(bits), UNBLOCKED_DUE_TO_BIT_SET) != 0
  {}

  lemma MaskedAnswer(bits: Bits, mask: Bits)
    requires Common(mask, CONTROL) == 0
    ensures Common(Minus(Answer(bits), CONTROL), mask) == Common(bits, mask)
  {}

  lemma ReturnKeepsInv(c: Setup, b: Rendezvous, i: Id)
    requires SetupOk(c) && Inv(c, b) && Enabled(c, b, Return(i))
    ensures Inv(c, Next(c, b, Return(i)))
    ensures Common(Result(c, b, Return(i)).value, c.waitFor) == c.waitFor
  {
    hide Common, Minus, Union, ItemValue, SetupOk, Opens, CONTROL;
    var b' := Next(c, b, Return(i));
    assert TaskOk(c, b, i);
    forall x: Id | x < |c.own| ensures TaskOk(c, b', x) {
      assert TaskOk(c, b, x);
    }
  }

  ghost predicate Possible(c: Setup, b: Rendezvous, actions: seq<Action>)
    decreases |actions|
  {
    actions != [] ==> Enabled(c, b, actions[0]) && Possible(c, Next(c, b, actions[0]), actions[1..])
  }

  ghost function After(c: Setup, b: Rendezvous, actions: seq<Action>): Rendezvous
    requires Possible(c, b, actions)
    decreases |actions|
  {
    if actions == [] then b else After(c, Next(c, b, actions[0]), actions[1..])
  }

  // Nobody has come yet and none of the bits waited for is set.
  ghost predicate Initial(c: Setup, b: Rendezvous) {
    && b.group.waiting == [] && Common(b.group.bits, c.waitFor) == 0 && b.inside == {} && b.rounds == 0
    && |b.arrivals| == |b.departures| == |c.own|
    && forall i: Id :: i < |c.own| ==> b.arrivals[i] == b.departures[i] == 0
  }

  lemma StepKeepsInv(c: Setup, b: Rendezvous, a: Action)
    requires SetupOk(c) && EachHasPrivateBit(c) && Inv(c, b) && Enabled(c, b, a)
    ensures Inv(c, Next(c, b, a))
    ensures Result(c, b, a).Some? ==> Common(Result(c, b, a).value, c.waitFor) == c.waitFor
  {
    hide SetupOk, EachHasPrivateBit, Inv, Complete, Common, Join, Next, Result;
    match a
    case Return(i) =>
      ReturnKeepsInv(c, b, i);
    case Arrive(i) =>
      if Complete(b.group, c.own[i], c.waitFor) {
        ArriveAndOpen(c, b, i);
        CompleteMeans(b.group, c.own[i], c.waitFor);
      } else {
        ArriveAndWait(c, b, i);
      }
  }

  lemma CompleteMeans(s: State, bitsToSet: Bits, waitFor: Bits)
    requires Complete(s, bitsToSet, waitFor)
    ensures Common(Join(s.bits, bitsToSet), waitFor) == waitFor
  {}

  lemma InitialIsOk(c: Setup, b: Rendezvous)
    requires SetupOk(c) && Initial(c, b)
    ensures Inv(c, b)
  {
    hide Common, SetupOk, Opens;
    NobodyOpens(c);
  }

  lemma {:induction false} RunKeepsInv(c: Setup, b: Rendezvous, actions: seq<Action>)
    requires SetupOk(c) && EachHasPrivateBit(c) && Inv(c, b) && Possible(c, b, actions)
    ensures Inv(c, After(c, b, actions))
    decreases |actions|
  {
    hide SetupOk, EachHasPrivateBit, Inv, Next, Enabled;
    if actions != [] {
      StepKeepsInv(c, b, actions[0]);
      RunKeepsInv(c, Next(c, b, actions[0]), actions[1..]);
    }
  }

  // No task has returned from its n-th call before every task has begun its n-th call, and no task is
  // more than one round ahead.
  ghost predicate NobodyEarly(c: Setup, b: Rendezvous) {
    && |b.arrivals| == |b.departures| == |c.own|
    && forall i: Id, j: Id :: i < |c.own| && j < |c.own| ==>
         b.departures[i] <= b.arrivals[j] && b.arrivals[i] <= b.arrivals[j] + 1
  }

  lemma NobodyReturnsEarly(c: Setup, b: Rendezvous, actions: seq<Action>)
    requires SetupOk(c) && EachHasPrivateBit(c) && Initial(c, b) && Possible(c, b, actions)
    ensures NobodyEarly(c, After(c, b, actions))
  {
    hide SetupOk, EachHasPrivateBit, Possible, After, Initial;
    InitialIsOk(c, b);
    RunKeepsInv(c, b, actions);
    var b' := After(c, b, actions);
    forall i: Id, j: Id | i < |c.own| && j < |c.own|
      ensures b'.departures[i] <= b'.arrivals[j] && b'.arrivals[i] <= b'.arrivals[j] + 1
    {
      assert TaskOk(c, b', i) && TaskOk(c, b', j);
    }
  }

  // Main theorem: the tasks can use the call as a barrier, over any number of rounds, exactly if each
  // of them sets a bit that is waited for and that no other task sets.
  lemma IsBarrierIff(c: Setup, b: Rendezvous)
    requires SetupOk(c) && Initial(c, b)
    ensures (forall actions :: Possible(c, b, actions) ==> NobodyEarly(c, After(c, b, actions)))
            <==> EachHasPrivateBit(c)
  {
    hide SetupOk, Possible, After, NobodyEarly, Private, Inv;
    if EachHasPrivateBit(c) {
      forall actions | Possible(c, b, actions) ensures NobodyEarly(c, After(c, b, actions)) {
        NobodyReturnsEarly(c, b, actions);
      }
    } else {
      var i: Id :| i < |c.own| && Private(c, i) == 0;
      InitialIsOk(c, b);
      SomebodyReturnsEarly(c, b, i);
    }
  }

  // As long as the barrier has not opened, and without task i, there is another task still to come.
  lemma AnotherComes(c: Setup, b: Rendezvous, i: Id) returns (x: Id)
    requires SetupOk(c) && Inv(c, b) && i < |c.own| && Private(c, i) == 0 && i !in b.group.waiting
    ensures x < |c.own| && x != i && x !in b.group.waiting
  {
    hide Common, Union, AllTasks, SetupOk, TaskOk;
    var all := AllTasks(|c.own|);
    AllTasksAre(|c.own|);
    RemoveOne(all, i);
    var others := Except(all, i);
    AllOrMissing(Union(c.own, others), c.waitFor);
    assert Opens(c, others);
    if forall y: Id :: y < |c.own| && y != i ==> y in b.group.waiting {
      hide Opens, Private;
      OpensWithOthers(c, others, b.group.waiting);
      assert false;
    }
    x :| x < |c.own| && x != i && x !in b.group.waiting;
  }

  function Missing(c: Setup, b: Rendezvous): set<Id> {
    set y: Id | y < |c.own| && y !in b.group.waiting
  }

  // If what task i sets is set by the others too, they may come one after the other until the barrier
  // opens without it.
  lemma {:induction false} SomebodyReturnsEarly(c: Setup, b: Rendezvous, i: Id)
    requires SetupOk(c) && Inv(c, b) && i < |c.own| && Private(c, i) == 0 && i !in b.group.waiting
    requires b.rounds == 0 && forall x :: x in b.inside ==> x in b.group.waiting
    ensures exists actions :: Possible(c, b, actions) && !NobodyEarly(c, After(c, b, actions))
    decreases Missing(c, b)
  {
    hide SetupOk, Private, Common, Union, Opens, Complete, AfterSetBits, Join, ItemValue;
    var x := AnotherComes(c, b, i);
    var a := Arrive(x);
    assert TaskOk(c, b, x) && TaskOk(c, b, i);
    var b' := Next(c, b, a);
    if Complete(b.group, c.own[x], c.waitFor) {
      Continue(c, b, a, []);
      assert b'.departures[x] == 1 && b'.arrivals[i] == 0;
      assert !NobodyEarly(c, After(c, b, [a] + []));
    } else {
      ArriveAndWait(c, b, x);
      SameWaiters(c, b, x);
      assert x in Missing(c, b) && x !in Missing(c, b');
      SomebodyReturnsEarly(c, b', i);
      var actions :| Possible(c, b', actions) && !NobodyEarly(c, After(c, b', actions));
      Continue(c, b, a, actions);
    }
  }

  lemma SameWaiters(c: Setup, b: Rendezvous, i: Id)
    requires SetupOk(c) && Inv(c, b) && Enabled(c, b, Arrive(i)) && !Complete(b.group, c.own[i], c.waitFor)
    ensures var b' := Next(c, b, Arrive(i)); b'.group.waiting == b.group.waiting + [i] && b'.rounds == b.rounds
  {
    hide Common, Join, Union, Satisfied, ItemValue, SetupOk, Opens, AfterSetBits, Complete;
    ArrivalOpens(c, b, i);
    WaitersAgree(c, b, Join(b.group.bits, c.own[i]));
    NotComplete(c, b, i);
    NoneWoken(b.group, c.own[i]);
  }

  lemma Continue(c: Setup, b: Rendezvous, a: Action, rest: seq<Action>)
    requires Enabled(c, b, a) && Possible(c, Next(c, b, a), rest)
    ensures Possible(c, b, [a] + rest) && After(c, b, [a] + rest) == After(c, Next(c, b, a), rest)
  {
    hide Enabled, Next;
    assert ([a] + rest)[1..] == rest;
  }
}
