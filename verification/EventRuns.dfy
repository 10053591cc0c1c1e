/** Waiting for event bits over whole runs, stated bit by bit and without the tests of the code. */
module EventRuns {
  import opened Wrappers
  import opened Lists
  import opened Words
  import opened EventGroups

  function Item(w: Wait): Bits { ItemValue(w.waitFor, w.clearOnExit, w.waitForAll) }

  // Task x is blocked in a call that waits for w.
  ghost predicate Waits(s: State, x: Id, w: Wait) {
    x in s.waiting && x in s.items && s.items[x] == Item(w) && Common(w.waitFor, CONTROL) == 0
  }

  lemma SatisfiedIsMet(s: State, x: Id, w: Wait, bits: Bits)
    requires Waits(s, x, w)
    ensures Satisfied(s.items[x], bits) <==> Met(w, bits)
    ensures Clears(s.items[x], bits) == if Met(w, bits) && w.clearOnExit then w.waitFor else 0
  {
    hide Satisfied, Clears, TestWaitCondition, Met, ItemValue, Common, CONTROL;
    ItemKeepsCondition(w.waitFor, w.clearOnExit, w.waitForAll, bits);
    TestIsMet(bits, w);
  }

  // ---------------------------------------------------------------- setting bits

  ghost predicate AllWait(s: State, waits: map<Id, Wait>) {
    forall x :: x in s.waiting ==> x in waits && Waits(s, x, waits[x])
  }

  // A woken task cleared event bit k.
  ghost predicate Taken(s: State, waits: map<Id, Wait>, bits: Bits, k: Index) {
    exists x :: x in s.waiting && x in waits && Met(waits[x], bits) && waits[x].clearOnExit && Has(waits[x].waitFor, k)
  }

  // Setting bits wakes exactly the tasks whose condition the bits then meet: one that waits for any bit
  // as soon as one of its bits is there, one that waits for all exactly when the last one is.  A bit is
  // left exactly if it was or is being set and no woken task had asked to have it cleared.
  lemma SetBitsWakesTheMet(s: State, bitsToSet: Bits, waits: map<Id, Wait>)
    requires Valid(s) && AllWait(s, waits)
    ensures var s', bits := AfterSetBits(s, bitsToSet), Join(s.bits, bitsToSet);
            && (forall x :: x in s'.waiting <==> x in s.waiting && !Met(waits[x], bits))
            && (forall k :: Has(s'.bits, k) <==> (Has(s.bits, k) || Has(bitsToSet, k)) && !Taken(s, waits, bits, k))
  {
    hide Satisfied, Clears, Met, Common, CONTROL, Join, Has, Minus, Answer, AfterSetBits, Valid, Taken;
    ValidParts(s);
    SetBitsWakesExactly(s, bitsToSet);
    var bits := Join(s.bits, bitsToSet);
    forall x | x in s.waiting ensures Satisfied(s.items[x], bits) <==> Met(waits[x], bits) {
      SatisfiedIsMet(s, x, waits[x], bits);
    }
    forall k ensures Has(AfterSetBits(s, bitsToSet).bits, k)
                     <==> (Has(s.bits, k) || Has(bitsToSet, k)) && !Taken(s, waits, bits, k) {
      HasJoin(s.bits, bitsToSet, k);
      UnionIsTaken(s, waits, bits, k);
      HasMinus(bits, ClearUnion(s.waiting, s.items, bits), k);
      BitsAfter(s, bitsToSet);
    }
  }

  lemma BitsAfter(s: State, bitsToSet: Bits)
    ensures var bits := Join(s.bits, bitsToSet);
            AfterSetBits(s, bitsToSet).bits == Minus(bits, ClearUnion(s.waiting, s.items, bits))
  {
    hide Join, Minus, ClearUnion, Satisfied;
  }

  lemma UnionIsTaken(s: State, waits: map<Id, Wait>, bits: Bits, k: Index)
    requires AllWait(s, waits)
    ensures Has(ClearUnion(s.waiting, s.items, bits), k) <==> Taken(s, waits, bits, k)
  {
    hide Satisfied, Clears, Met, Common, CONTROL, Join, Has, ClearUnion;
    UnionHas(s.waiting, s.items, bits, k);
    forall x | x in s.waiting
      ensures Has(Clears(Value(s.items, x), bits), k)
              <==> Met(waits[x], bits) && waits[x].clearOnExit && Has(waits[x].waitFor, k)
    {
      SatisfiedIsMet(s, x, waits[x], bits);
      ZeroHasNone(k);
    }
  }

  lemma {:induction false} UnionHas(waiting: seq<Id>, items: map<Id, Bits>, bits: Bits, k: Index)
    ensures Has(ClearUnion(waiting, items, bits), k)
            <==> exists x :: x in waiting && Has(Clears(Value(items, x), bits), k)
  {
    hide Clears, Has, Join;
    if waiting == [] {
      ZeroHasNone(k);
    } else {
      var n := |waiting| - 1;
      assert waiting == waiting[..n] + [waiting[n]];
      UnionHas(waiting[..n], items, bits, k);
      HasJoin(ClearUnion(waiting[..n], items, bits), Clears(Value(items, waiting[n]), bits), k);
    }
  }

  // ---------------------------------------------------------------- runs

  // xEventGroupSetBits, xEventGroupClearBits, xEventGroupWaitBits and xEventGroupSync with time to
  // wait, and the end of a task's block time.
  datatype Step =
    | SetBits(bits: Bits)
    | ClearBits(bits: Bits)
    | WaitBits(task: Id, wait: Wait)
    | Sync(task: Id, bits: Bits, waitFor: Bits)
    | Expire(task: Id)

  predicate Enabled(s: State, e: Step) {
    match e
    case WaitBits(x, w) => x !in s.waiting && Common(w.waitFor, CONTROL) == 0
    case Sync(x, _, waitFor) => x !in s.waiting && Common(waitFor, CONTROL) == 0
    case _ => true
  }

  function AfterWait(s: State, x: Id, w: Wait): State {
    if TestWaitCondition(s.bits, w.waitFor, w.waitForAll) then
      if w.clearOnExit then s.(bits := Minus(s.bits, w.waitFor)) else s
    else State(s.bits, s.waiting + [x], s.items[x := Item(w)])
  }

  function Next(s: State, e: Step): State {
    match e
    case SetBits(bits) => AfterSetBits(s, bits)
    case ClearBits(bits) => s.(bits := Minus(s.bits, bits))
    case WaitBits(x, w) => AfterWait(s, x, w)
    case Sync(x, bits, waitFor) => AfterSync(s, x, bits, waitFor).0
    case Expire(x) => s.(waiting := Remove(s.waiting, x))
  }

  predicate Possible(s: State, run: seq<Step>)
    decreases |run|
  {
    run == [] || (Enabled(s, run[0]) && Possible(Next(s, run[0]), run[1..]))
  }

  function After(s: State, run: seq<Step>): State
    decreases |run|
  {
    if run == [] then s else After(Next(s, run[0]), run[1..])
  }

  predicate SetsBits(e: Step) { e.SetBits? || e.Sync? }

  predicate Own(e: Step, x: Id) { !(e.SetBits? || e.ClearBits?) && e.task == x }

  // The event bits at the first step of the run that sets bits so that w is met.
  ghost function FirstMet(s: State, run: seq<Step>, w: Wait): Option<Bits>
    decreases |run|
  {
    if run == [] then None
    else if SetsBits(run[0]) && Met(w, Join(s.bits, run[0].bits)) then Some(Join(s.bits, run[0].bits))
    else FirstMet(Next(s, run[0]), run[1..], w)
  }

  lemma StepKeepsValid(s: State, e: Step)
    requires Valid(s) && Enabled(s, e)
    ensures Valid(Next(s, e))
  {
    hide Valid, Satisfied, Common, CONTROL, Minus, TestWaitCondition, ItemValue, AfterSetBits, AfterSync, Join;
    match e {
      case SetBits(bits) =>
        ValidParts(s);
        SetBitsWakesExactly(s, bits);
      case ClearBits(bits) => ClearKeepsValid(s, bits);
      case WaitBits(x, w) =>
        ItemKeepsCondition(w.waitFor, w.clearOnExit, w.waitForAll, s.bits);
        ClearKeepsValid(s, w.waitFor);
        if !TestWaitCondition(s.bits, w.waitFor, w.waitForAll) {
          BlockKeepsValid(s, x, Item(w));
        }
      case Sync(x, bits, waitFor) => SyncKeepsValid(s, x, bits, waitFor);
      case Expire(x) => RemoveKeepsValid(s, x);
    }
  }

  // A step of others leaves a blocked task blocked, unless it sets bits that meet its condition; then
  // the task is woken and finds those bits in its item.
  lemma StepForWaiter(s: State, e: Step, x: Id, w: Wait)
    requires Valid(s) && Enabled(s, e) && Waits(s, x, w) && !Own(e, x)
    ensures if SetsBits(e) && Met(w, Join(s.bits, e.bits)) then
              Woken(Next(s, e), x, Join(s.bits, e.bits))
            else Waits(Next(s, e), x, w)
  {
    hide Valid, Satisfied, Common, CONTROL, Minus, TestWaitCondition, ItemValue, Join, Met, Answer, Staying, ClearUnion;
    if SetsBits(e) {
      ValidParts(s);
      SetBitsForWaiter(s, e.bits, x, w);
    } else if e.Expire? {
      RemoveKeepsValid(s, e.task);
    }
  }

  lemma SetBitsForWaiter(s: State, bits: Bits, x: Id, w: Wait)
    requires Valid(s) && Waits(s, x, w)
    ensures if Met(w, Join(s.bits, bits)) then Woken(AfterSetBits(s, bits), x, Join(s.bits, bits))
            else Waits(AfterSetBits(s, bits), x, w)
  {
    hide Satisfied, Common, CONTROL, Minus, ItemValue, Join, Met, Answer, AfterSetBits, Clears;
    SetBitsWakesExactly(s, bits);
    SatisfiedIsMet(s, x, w, Join(s.bits, bits));
  }

  // Task x is not blocked any more, and its item holds the bits that it was woken with.
  predicate Woken(s: State, x: Id, bits: Bits) {
    x !in s.waiting && x in s.items && s.items[x] == Answer(bits)
  }

  lemma {:induction false} WokenStays(s: State, run: seq<Step>, x: Id, bits: Bits)
    requires Valid(s) && Possible(s, run) && Woken(s, x, bits) && forall e :: e in run ==> !Own(e, x)
    ensures Woken(After(s, run), x, bits)
    decreases |run|
  {
    hide Valid, Enabled, Next, Own, Answer;
    if run != [] {
      assert run[0] in run;
      StepKeepsValid(s, run[0]);
      StepForWoken(s, run[0], x, bits);
      WokenStays(Next(s, run[0]), run[1..], x, bits);
    }
  }

  lemma StepForWoken(s: State, e: Step, x: Id, bits: Bits)
    requires Valid(s) && Enabled(s, e) && Woken(s, x, bits) && !Own(e, x)
    ensures Woken(Next(s, e), x, bits)
  {
    hide Satisfied, Common, CONTROL, Minus, TestWaitCondition, ItemValue, Join, Answer, AfterSetBits;
    match e {
      case SetBits(more) => SetBitsWakesExactly(s, more);
      case ClearBits(_) =>
      case WaitBits(_, _) =>
      case Sync(_, more, _) => SetBitsWakesExactly(s, more);
      case Expire(y) => RemoveOne(s.waiting, y);
    }
  }

  // In every run a blocked task whose time does not end is woken by the first step that sets bits so
  // that its condition is met, with those bits, and by nothing else: never without its condition met,
  // and never later, even if the bits are cleared again at once.
  lemma {:induction false} WokenWhenMet(s: State, run: seq<Step>, x: Id, w: Wait)
    requires Valid(s) && Possible(s, run) && Waits(s, x, w)
    requires forall e :: e in run ==> !Own(e, x)
    ensures var s' := After(s, run);
            && Valid(s')
            && match FirstMet(s, run, w)
               case None => Waits(s', x, w)
               case Some(bits) => Woken(s', x, bits)
    decreases |run|
  {
    hide Valid, Enabled, Next, Own, Waits, Woken, Met, Join;
    if run != [] {
      assert run[0] in run;
      StepKeepsValid(s, run[0]);
      StepForWaiter(s, run[0], x, w);
      var s1 := Next(s, run[0]);
      if SetsBits(run[0]) && Met(w, Join(s.bits, run[0].bits)) {
        WokenStays(s1, run[1..], x, Join(s.bits, run[0].bits));
        RunKeepsValid(s1, run[1..]);
      } else {
        WokenWhenMet(s1, run[1..], x, w);
      }
    }
  }

  lemma {:induction false} RunKeepsValid(s: State, run: seq<Step>)
    requires Valid(s) && Possible(s, run)
    ensures Valid(After(s, run))
    decreases |run|
  {
    hide Valid, Enabled, Next;
    if run != [] {
      StepKeepsValid(s, run[0]);
      RunKeepsValid(Next(s, run[0]), run[1..]);
    }
  }

  // What the call returns then: the event bits it was woken with, without the control bits.
  lemma AnswerHasBits(bits: Bits, k: Index)
    ensures Common(Answer(bits), UNBLOCKED_DUE_TO_BIT_SET) != 0
    ensures Has(Minus(Answer(bits), CONTROL), k) <==> Has(bits, k) && !Has(CONTROL, k)
  {
    hide Has, Common, Others;
    AnswerIsMarked(bits);
    AnswerParts(bits);
    HasMinus(bits, CONTROL, k);
  }

  lemma AnswerIsMarked(bits: Bits)
    ensures Common(Answer(bits), UNBLOCKED_DUE_TO_BIT_SET) != 0
  {}

  lemma AnswerParts(bits: Bits)
    ensures Minus(Answer(bits), CONTROL) == Minus(bits, CONTROL)
  {}

  // ---------------------------------------------------------------- calls that return at once

  // A call blocks exactly if its condition is not met; if it is, and the caller asked for it, the bits
  // waited for are cleared and no others.
  lemma BlocksUnlessMet(s: State, x: Id, w: Wait)
    requires x !in s.waiting && Common(w.waitFor, CONTROL) == 0
    ensures var s' := AfterWait(s, x, w);
            && (x in s'.waiting <==> !Met(w, s.bits)) && (!Met(w, s.bits) ==> Waits(s', x, w))
            && (forall k :: Has(s'.bits, k)
                            <==> Has(s.bits, k) && !(Met(w, s.bits) && w.clearOnExit && Has(w.waitFor, k)))
  {
    hide Met, Has, Common, CONTROL, TestWaitCondition, ItemValue, Minus;
    TestIsMet(s.bits, w);
    forall k ensures Has(Minus(s.bits, w.waitFor), k) <==> Has(s.bits, k) && !Has(w.waitFor, k) {
      HasMinus(s.bits, w.waitFor, k);
    }
  }

  // A rendezvous returns at once exactly if every bit waited for was set or is being set; it then
  // returns all these bits, and those waited for are clear.
  lemma SyncBlocksUnlessComplete(s: State, x: Id, bits: Bits, waitFor: Bits)
    requires Valid(s) && x !in s.waiting && Common(waitFor, CONTROL) == 0
    ensures var (s', o) := AfterSync(s, x, bits, waitFor);
            && (o.Done? <==> forall k :: Has(waitFor, k) ==> Has(s.bits, k) || Has(bits, k))
            && (o.Done? ==> forall k :: && (Has(o.bits, k) <==> Has(s.bits, k) || Has(bits, k))
                                        && (Has(waitFor, k) ==> !Has(s'.bits, k)))
            && (o.Blocked? ==> Waits(s', x, Wait(waitFor, true, true)))
  {
    hide Valid, Met, Has, Common, CONTROL, ItemValue, Minus, Join, AfterSetBits;
    WithinIsEveryBit(Join(s.bits, bits), waitFor);
    forall k ensures Has(Join(s.bits, bits), k) <==> Has(s.bits, k) || Has(bits, k) {
      HasJoin(s.bits, bits, k);
    }
    var t := AfterSetBits(s, bits);
    forall k ensures Has(waitFor, k) ==> !Has(Minus(t.bits, waitFor), k) {
      HasMinus(t.bits, waitFor, k);
    }
  }
}
