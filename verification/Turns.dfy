/** The ready list of one priority, whose members take turns: vListInsertEnd, uxListRemove and
  * listGET_OWNER_OF_NEXT_ENTRY on the ring that IntrusiveList has on the heap.
  */
module Turns {
  import opened Lists

  type Id = nat

  datatype Slot = EndMarker | Member(id: Id)

  // The slots of the ring in the order of the walk from pxIndex on, so that the slot that pxIndex is at
  // comes last.
  type ReadyList = t: seq<Slot> | EndMarker in t && Distinct(t) witness [EndMarker]

  predicate Has(t: ReadyList, x: Id) { Member(x) in t }

  // uxNumberOfItems is 0
  predicate Empty(t: ReadyList) { |t| == 1 }

  // vListInsertEnd: right before pxIndex
  function Joined(t: ReadyList, x: Id): (r: ReadyList)
    ensures forall y :: Has(r, y) <==> Has(t, y) || y == x
  {
    if Has(t, x) then t else
      JoinedOk(t, x);
      t[..|t| - 1] + [Member(x), t[|t| - 1]]
  }

  lemma JoinedOk(t: ReadyList, x: Id)
    requires !Has(t, x)
    ensures var r := t[..|t| - 1] + [Member(x), t[|t| - 1]];
            Distinct(r) && forall s :: s in r <==> s in t || s == Member(x)
  {
    assert t == t[..|t| - 1] + [t[|t| - 1]];
  }

  // uxListRemove: pxIndex goes back by one slot if it was there
  function Left(t: ReadyList, x: Id): (r: ReadyList)
    ensures forall y :: Has(r, y) <==> Has(t, y) && y != x
  {
    RemoveOne(t, Member(x));
    Remove(t, Member(x))
  }

  function Rotated(t: ReadyList): (r: ReadyList)
    ensures |r| == |t| && forall s :: s in r <==> s in t
  {
    RotatedOk(t);
    t[1..] + [t[0]]
  }

  lemma RotatedOk(t: ReadyList)
    ensures Distinct(t[1..] + [t[0]]) && forall s :: s in t[1..] + [t[0]] <==> s in t
  {
    assert t == [t[0]] + t[1..];
  }

  // listGET_OWNER_OF_NEXT_ENTRY: pxIndex goes on by one slot, and by another one past the end marker
  function Advanced(t: ReadyList): (r: ReadyList)
    ensures forall y :: Has(r, y) <==> Has(t, y)
    ensures |r| == |t| && (!Empty(t) ==> r[|r| - 1].Member?)
  {
    var r := Rotated(t);
    if r[|r| - 1] == EndMarker then Rotated(r) else r
  }

  // Whose turn it is next.
  function Next(t: ReadyList): (x: Id)
    requires !Empty(t)
    ensures Has(t, x)
  {
    var r := Advanced(t);
    assert r[|r| - 1] in r;
    r[|r| - 1].id
  }

  lemma EmptyMeans(t: ReadyList)
    ensures Empty(t) <==> forall x :: !Has(t, x)
  {
    if !Empty(t) {
      assert Has(t, Next(t));
    }
  }

  // ---------------------------------------------------------------- everybody gets a turn

  // How many slots come before x's.
  ghost function Place(t: ReadyList, x: Id): (i: nat)
    requires Has(t, x)
    ensures i < |t| && t[i] == Member(x)
  {
    var i: nat :| i < |t| && t[i] == Member(x);
    i
  }

  lemma PlaceIs(t: ReadyList, x: Id, i: nat)
    requires i < |t| && t[i] == Member(x)
    ensures Has(t, x) && Place(t, x) == i
  {}

  // Turn: the next member runs, and leaves the list or stays; Join: somebody becomes ready.
  datatype Change = Turn(leaves: bool) | Join(x: Id)

  function Changed(t: ReadyList, c: Change): ReadyList {
    match c
    case Turn(leaves) => if leaves && !Empty(t) then Left(Advanced(t), Next(t)) else Advanced(t)
    case Join(x) => Joined(t, x)
  }

  // Only who has its turn leaves, and only who joins comes.
  lemma ChangedHas(t: ReadyList, c: Change, y: Id)
    ensures Has(Changed(t, c), y)
            <==> if c.Join? then Has(t, y) || y == c.x else Has(t, y) && !(c.leaves && !Empty(t) && y == Next(t))
  {}

  // x is on the list, and not where pxIndex is.
  predicate Waits(t: ReadyList, x: Id) { Has(t, x) && t[|t| - 1] != Member(x) }

  // A member that waits gets its turn or comes nearer to it with every turn, and nobody who joins gets
  // ahead of it.
  lemma ComesNearer(t: ReadyList, c: Change, x: Id)
    requires Waits(t, x)
    ensures !Empty(t)
    ensures c.Turn? && Next(t) != x ==> Waits(Changed(t, c), x) && Place(Changed(t, c), x) < Place(t, x)
    ensures c.Join? ==> Waits(Changed(t, c), x) && Place(Changed(t, c), x) == Place(t, x)
  {
    hide Distinct;
    EmptyMeans(t);
    var i := Place(t, x);
    if c.Join? {
      PlaceIs(Joined(t, c.x), x, i);
    } else if Next(t) != x {
      AdvancedBy(t, x);
      var r := Advanced(t);
      if c.leaves {
        LastLeaves(r, Next(t));
        PlaceIs(Left(r, Next(t)), x, Place(r, x));
      }
    }
  }

  lemma AdvancedBy(t: ReadyList, x: Id)
    requires Waits(t, x) && !Empty(t) && Next(t) != x
    ensures var r := Advanced(t); Has(r, x) && Place(r, x) < Place(t, x) && Place(r, x) < |r| - 2
  {
    hide Distinct;
    var i := Place(t, x);
    var r := Rotated(t);
    assert i > 0;
    assert r[i - 1] == Member(x);
    PlaceIs(r, x, i - 1);
    if r[|r| - 1] == EndMarker {
      assert i > 1;
      assert Rotated(r)[i - 2] == Member(x);
      PlaceIs(Rotated(r), x, i - 2);
    }
  }

  lemma LastLeaves(t: ReadyList, y: Id)
    requires t[|t| - 1] == Member(y)
    ensures Left(t, y) == t[..|t| - 1]
  {
    RemoveLast(t);
  }

  lemma {:induction false} RemoveLast<T>(xs: seq<T>)
    requires xs != [] && Distinct(xs)
    ensures Remove(xs, xs[|xs| - 1]) == xs[..|xs| - 1]
  {
    if |xs| > 1 {
      RemoveLast(xs[1..]);
    }
  }

  // Who has run, turn by turn.
  function Served(t: ReadyList, changes: seq<Change>): seq<Id>
    decreases |changes|
  {
    if changes == [] then [] else
      (if changes[0].Turn? && !Empty(t) then [Next(t)] else []) + Served(Changed(t, changes[0]), changes[1..])
  }

  function TurnsIn(changes: seq<Change>): nat {
    if changes == [] then 0 else (if changes[0].Turn? then 1 else 0) + TurnsIn(changes[1..])
  }

  // Main theorem: whoever waits has at most as many turns before its own as there are slots before it,
  // whoever joins and leaves meanwhile.
  lemma {:induction false} EverybodyGetsATurn(t: ReadyList, changes: seq<Change>, x: Id) returns (k: nat)
    requires Waits(t, x) && TurnsIn(changes) > Place(t, x)
    ensures k <= Place(t, x) && k < |Served(t, changes)| && Served(t, changes)[k] == x
    decreases |changes|
  {
    hide Changed, Next, Waits;
    var c := changes[0];
    ComesNearer(t, c, x);
    var rest := Served(Changed(t, c), changes[1..]);
    if c.Join? {
      assert Served(t, changes) == rest;
      k := EverybodyGetsATurn(Changed(t, c), changes[1..], x);
    } else if Next(t) != x {
      assert Served(t, changes) == [Next(t)] + rest;
      var i := EverybodyGetsATurn(Changed(t, c), changes[1..], x);
      k := i + 1;
    } else {
      k := 0;
    }
  }
}
