/** What the kernel's lists (list.c) are to their users: sequences without repetition, some of them
  * kept in ascending order of the item values.  IntrusiveList is about the pointer code itself.
  */
module Lists {

  predicate Distinct<T(==)>(xs: seq<T>) {
    forall i, j :: 0 <= i < j < |xs| ==> xs[i] != xs[j]
  }

  function Elements<T>(xs: seq<T>): set<T> {
    set x | x in xs
  }

  // uxListRemove
  function Remove<T(==)>(xs: seq<T>, x: T): seq<T> {
    if xs == [] then [] else if xs[0] == x then xs[1..] else [xs[0]] + Remove(xs[1..], x)
  }

  predicate Sorted<T>(xs: seq<T>, value: T -> nat)
  {
    forall i, j :: 0 <= i < j < |xs| ==> value(xs[i]) <= value(xs[j])
  }

  // vListInsert: the new element goes after every element whose value is not greater.
  function Insert<T(!new)>(xs: seq<T>, x: T, value: T -> nat): seq<T>
  {
    if xs != [] && value(xs[0]) <= value(x) then [xs[0]] + Insert(xs[1..], x, value) else [x] + xs
  }

  lemma SplitDistinct<T>(xs: seq<T>, k: nat)
    requires Distinct(xs) && k <= |xs|
    ensures Distinct(xs[..k]) && Distinct(xs[k..])
    ensures forall x :: x in xs <==> x in xs[..k] || x in xs[k..]
    ensures forall x :: x in xs[..k] ==> x !in xs[k..]
  {
    assert xs == xs[..k] + xs[k..];
  }

  lemma DistinctCons<T>(x: T, xs: seq<T>)
    requires Distinct(xs) && x !in xs
    ensures Distinct([x] + xs)
  {
    var r := [x] + xs;
    forall i, j | 0 <= i < j < |r| ensures r[i] != r[j] {
      assert r[j] == xs[j - 1];
    }
  }

  lemma SortedCons<T>(x: T, xs: seq<T>, value: T -> nat)
    requires Sorted(xs, value)
    requires forall y :: y in xs ==> value(x) <= value(y)
    ensures Sorted([x] + xs, value)
  {
    var r := [x] + xs;
    forall i, j | 0 <= i < j < |r| ensures value(r[i]) <= value(r[j]) {
      assert r[j] == xs[j - 1] && xs[j - 1] in xs;
    }
  }

  lemma HeadIsLeast<T>(xs: seq<T>, value: T -> nat)
    requires Sorted(xs, value)
    ensures forall y :: y in xs ==> value(xs[0]) <= value(y)
  {}

  lemma {:induction false} DistinctSize<T>(xs: seq<T>)
    requires Distinct(xs)
    ensures |Elements(xs)| == |xs|
  {
    if xs != [] {
      DistinctSize(xs[1..]);
      assert Elements(xs) == {xs[0]} + Elements(xs[1..]);
    }
  }

  lemma {:induction false} RemoveOne<T>(xs: seq<T>, x: T)
    requires Distinct(xs)
    ensures Distinct(Remove(xs, x))
    ensures forall y :: y in Remove(xs, x) <==> y in xs && y != x
  {
    if xs != [] {
      SplitDistinct(xs, 1);
      assert xs[..1] == [xs[0]];
      RemoveOne(xs[1..], x);
      if xs[0] != x {
        DistinctCons(xs[0], Remove(xs[1..], x));
      }
    }
  }

  lemma {:induction false} RemoveAbsent<T>(xs: seq<T>, x: T)
    requires x !in xs
    ensures Remove(xs, x) == xs
  {
    if xs != [] {
      RemoveAbsent(xs[1..], x);
    }
  }

  lemma {:induction false} RemoveKeepsSorted<T(!new)>(xs: seq<T>, x: T, value: T -> nat)
    requires Sorted(xs, value) && Distinct(xs)
    ensures Sorted(Remove(xs, x), value)
  {
    RemoveOne(xs, x);
    if xs != [] && xs[0] != x {
      RemoveKeepsSorted(xs[1..], x, value);
      RemoveOne(xs[1..], x);
      HeadIsLeast(xs, value);
      var tail := xs[1..];
      assert forall y :: y in Remove(tail, x) ==> y in tail;
      assert forall y :: y in tail ==> y in xs;
      SortedCons(xs[0], Remove(tail, x), value);
    }
  }

  lemma {:induction false} InsertOne<T(!new)>(xs: seq<T>, x: T, value: T -> nat)
    ensures |Insert(xs, x, value)| == |xs| + 1
    ensures forall y :: y in Insert(xs, x, value) <==> y in xs || y == x
    ensures Distinct(xs) && x !in xs ==> Distinct(Insert(xs, x, value))
  {
    if xs != [] && value(xs[0]) <= value(x) {
      assert xs == [xs[0]] + xs[1..];
      InsertOne(xs[1..], x, value);
      if Distinct(xs) && x !in xs {
        DistinctCons(xs[0], Insert(xs[1..], x, value));
      }
    } else if Distinct(xs) && x !in xs {
      DistinctCons(x, xs);
    }
  }

  lemma {:induction false} InsertKeepsSorted<T(!new)>(xs: seq<T>, x: T, value: T -> nat)
    requires Sorted(xs, value)
    ensures Sorted(Insert(xs, x, value), value)
  {
    if xs != [] && value(xs[0]) <= value(x) {
      InsertOne(xs[1..], x, value);
      InsertKeepsSorted(xs[1..], x, value);
      HeadIsLeast(xs, value);
      var tail := xs[1..];
      assert forall y :: y in Insert(tail, x, value) ==> y in tail || y == x;
      assert forall y :: y in tail ==> y in xs;
      SortedCons(xs[0], Insert(tail, x, value), value);
    } else if xs != [] {
      HeadIsLeast(xs, value);
      SortedCons(x, xs, value);
    }
  }

  // Insertion is stable: the new element comes after exactly the elements whose value is not
  // greater, and the others keep their order.
  lemma {:induction false} InsertIsStable<T(!new)>(xs: seq<T>, x: T, value: T -> nat) returns (k: nat)
    requires Sorted(xs, value)
    ensures k <= |xs| && Insert(xs, x, value) == xs[..k] + [x] + xs[k..]
    ensures forall i :: 0 <= i < k ==> value(xs[i]) <= value(x)
    ensures forall i :: k <= i < |xs| ==> value(x) < value(xs[i])
  {
    k := 0;
    if xs != [] && value(xs[0]) <= value(x) {
      var tail := xs[1..];
      var j := InsertIsStable(tail, x, value);
      k := j + 1;
      assert xs[..k] == [xs[0]] + tail[..j] && xs[k..] == tail[j..];
      forall i | 1 <= i < |xs| ensures if i < k then value(xs[i]) <= value(x) else value(x) < value(xs[i]) {
        assert xs[i] == tail[i - 1];
      }
    } else {
      assert xs[..0] + [x] + xs[0..] == [x] + xs;
      HeadIsLeast(xs, value);
    }
  }

  // Two value functions that compare the new element with the others alike insert it alike.
  lemma {:induction false} InsertSameOrder<T(!new)>(xs: seq<T>, x: T, value: T -> nat, value': T -> nat)
    requires forall y :: y in xs ==> (value(y) <= value(x) <==> value'(y) <= value'(x))
    ensures Insert(xs, x, value) == Insert(xs, x, value')
  {
    if xs != [] {
      assert forall y :: y in xs[1..] ==> y in xs;
      InsertSameOrder(xs[1..], x, value, value');
    }
  }
}
