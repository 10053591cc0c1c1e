/** The tick counter, which wraps after 2^32 ticks (configUSE_16_BIT_TICKS is 0), and the unbounded
  * time behind it.
  */
module Ticks {
  import opened Arithmetic

  const TICKS: nat := 0x1_0000_0000
  const MAX_TIME_BEFORE_OVERFLOW: nat := TICKS - 1

  // What the tick counter shows at an unbounded time, and how often it has wrapped by then.
  function Tick(t: nat): nat { t % TICKS }
  function Epoch(t: nat): nat { t / TICKS }
  function LastOf(epoch: nat): nat { epoch * TICKS + MAX_TIME_BEFORE_OVERFLOW }

  lemma Advance(t: nat, d: nat)
    requires d < TICKS
    ensures Tick(t) + d < TICKS ==> Tick(t + d) == Tick(t) + d && Epoch(t + d) == Epoch(t)
    ensures Tick(t) + d >= TICKS ==> Tick(t + d) == Tick(t) + d - TICKS && Epoch(t + d) == Epoch(t) + 1
  {}

  lemma NextEpoch(n: nat, due: nat)
    requires n < due < n + TICKS
    ensures Epoch(due) == Epoch(n) || Epoch(due) == Epoch(n) + 1
    ensures n == LastOf(Epoch(n)) ==> Epoch(due) != Epoch(n)
  {}

  lemma WrappedSum(a: nat, b: nat)
    ensures (Tick(a) + b) % TICKS == Tick(a + b)
  {
    var sum := Tick(a) + b;
    DivisionIsUnique(a + b, TICKS, a / TICKS + sum / TICKS, sum % TICKS);
  }

  lemma EndOfEpoch(era: nat)
    ensures Epoch(LastOf(era)) == era && Tick(LastOf(era)) == MAX_TIME_BEFORE_OVERFLOW
  {
    DivisionIsUnique(LastOf(era), TICKS, era, MAX_TIME_BEFORE_OVERFLOW);
  }
}
