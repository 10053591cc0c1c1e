/** Evaluation without a cache: which values it gives, when it ends, and what it reads. */
module KconfigEvaluation {
  import opened KconfigModel
  import opened KconfigGetters

  // ---------------------------------------------------------------- evaluation in rounds

  function Nodes(g: Config): set<Node> {
    (set i | 0 <= i < |g.items| :: Vis(i)) + (set i | 0 <= i < |g.items| :: Sel(i))
    + (set i | 0 <= i < |g.items| :: TriVal(i)) + (set i | 0 <= i < |g.items| :: StrVal(i))
  }

  // Evaluation without a cache, in rounds: in each round every field gets its value whose getter finds
  // all it reads among the values of the round before.
  ghost function Round(g: Config, u: User, i: nat): Cache {
    if i == 0 then map[] else
      var c := Round(g, u, i - 1);
      map n | n in Nodes(g) && Getter(g, u, c, n).Got? :: Getter(g, u, c, n).value
  }

  // The evaluation of a field comes to an end.
  ghost predicate HasValue(g: Config, u: User, n: Node) {
    exists i: nat :: n in Round(g, u, i)
  }

  // The value of a field, evaluated without any cache.
  ghost function Fresh(g: Config, u: User, n: Node): Value
    requires HasValue(g, u, n)
  {
    var i: nat :| n in Round(g, u, i);
    Round(g, u, i)[n]
  }

  // The fresh values of all the fields that have one.
  ghost function All(g: Config, u: User): Cache {
    map n | n in Nodes(g) && HasValue(g, u, n) :: Fresh(g, u, n)
  }

  ghost predicate PartOf(c: Cache, c': Cache) {
    forall n :: n in c ==> n in c' && c'[n] == c[n]
  }

  // Every cached value is the fresh one.
  ghost predicate Right(g: Config, u: User, c: Cache) {
    PartOf(c, All(g, u))
  }

  lemma NodesComplete(g: Config, n: Node)
    ensures n in Nodes(g) <==> n.id < |g.items|
  {}

  lemma ReadsInside(g: Config, n: Node, m: Node)
    requires WellFormed(g) && Reads(g, n, m) && n.id < |g.items|
    ensures m.id < |g.items|
  {}

  lemma PartIsAlike(g: Config, u: User, c: Cache, c': Cache, n: Node)
    requires WellFormed(g) && PartOf(c, c')
    ensures Alike(g, u, u, c, c', n) && SameOwn(g, u, u, c, n)
  {
    hide WellFormed, Reads;
  }

  // A getter finds in a larger cache what it finds in a smaller one.
  lemma LargerFindsSame(g: Config, u: User, c: Cache, c': Cache, n: Node)
    requires WellFormed(g) && UserOk(g, u) && PartOf(c, c')
    ensures Steady(g, c, c', n, Getter(g, u, c, n), Getter(g, u, c', n))
  {
    hide WellFormed, UserOk, Getter, PartOf, Alike;
    PartIsAlike(g, u, c, c', n);
    GetterSteady(g, u, u, c, c', n);
  }

  // If a getter finds its value in two caches that agree, it finds it in what they have in common.
  lemma CommonIsEnough(g: Config, u: User, c: Cache, c': Cache, d: Cache, n: Node)
    requires WellFormed(g) && UserOk(g, u) && PartOf(d, c) && PartOf(d, c')
    requires forall m :: m in c && m in c' ==> m in d
    requires Getter(g, u, c, n).Got? && Getter(g, u, c', n).Got?
    ensures Getter(g, u, d, n) == Getter(g, u, c, n) == Getter(g, u, c', n)
  {
    hide WellFormed, UserOk, Getter, PartOf, Reads;
    LargerFindsSame(g, u, d, c, n);
    LargerFindsSame(g, u, d, c', n);
  }

  lemma {:induction false} RoundsGrow(g: Config, u: User, i: nat)
    requires WellFormed(g) && UserOk(g, u)
    ensures PartOf(Round(g, u, i), Round(g, u, i + 1))
  {
    hide WellFormed, UserOk, Getter, Nodes, Reads;
    if i > 0 {
      RoundsGrow(g, u, i - 1);
      var c := Round(g, u, i);
      forall n | n in c ensures n in Round(g, u, i + 1) && Round(g, u, i + 1)[n] == c[n] {
        LargerFindsSame(g, u, Round(g, u, i - 1), c, n);
      }
    }
  }

  lemma {:induction false} RoundsAgree(g: Config, u: User, i: nat, j: nat)
    requires WellFormed(g) && UserOk(g, u) && i <= j
    ensures PartOf(Round(g, u, i), Round(g, u, j))
    decreases j
  {
    hide WellFormed, UserOk, Round;
    if i < j {
      RoundsAgree(g, u, i, j - 1);
      RoundsGrow(g, u, j - 1);
    }
  }

  lemma RoundIsFresh(g: Config, u: User, i: nat, n: Node)
    requires WellFormed(g) && UserOk(g, u) && n in Round(g, u, i)
    ensures n in All(g, u) && All(g, u)[n] == Fresh(g, u, n) == Round(g, u, i)[n]
  {
    hide WellFormed, UserOk, Nodes, Getter;
    assert HasValue(g, u, n);
    assert n in Nodes(g);
    hide Round;
    var j: nat :| n in Round(g, u, j) && Fresh(g, u, n) == Round(g, u, j)[n];
    if i <= j {
      RoundsAgree(g, u, i, j);
    } else {
      RoundsAgree(g, u, j, i);
    }
  }

  // Some round has all the values.
  lemma LastRound(g: Config, u: User, i: nat) returns (k: nat)
    requires WellFormed(g) && UserOk(g, u)
    ensures i <= k && Round(g, u, k + 1) == Round(g, u, k)
    decreases Nodes(g) - Round(g, u, i).Keys
  {
    hide WellFormed, UserOk, Getter;
    RoundsGrow(g, u, i);
    k := i;
    if Round(g, u, i + 1) != Round(g, u, i) {
      assert exists n :: n in Round(g, u, i + 1) && n !in Round(g, u, i);
      k := LastRound(g, u, i + 1);
    }
  }

  lemma {:induction false} NothingLater(g: Config, u: User, k: nat, j: nat)
    requires WellFormed(g) && UserOk(g, u) && Round(g, u, k + 1) == Round(g, u, k)
    ensures PartOf(Round(g, u, j), Round(g, u, k))
    decreases j
  {
    hide WellFormed, UserOk, Getter, Nodes;
    if j <= k {
      RoundsAgree(g, u, j, k);
    } else {
      NothingLater(g, u, k, j - 1);
      RoundsAgree(g, u, k, j - 1);
      assert Round(g, u, j - 1) == Round(g, u, k);
    }
  }

  lemma AllIsARound(g: Config, u: User) returns (k: nat)
    requires WellFormed(g) && UserOk(g, u)
    ensures All(g, u) == Round(g, u, k) == Round(g, u, k + 1)
  {
    hide WellFormed, UserOk, Round, Nodes;
    k := LastRound(g, u, 0);
    forall n | n in All(g, u) ensures n in Round(g, u, k) && Round(g, u, k)[n] == All(g, u)[n] {
      var j: nat :| n in Round(g, u, j);
      NothingLater(g, u, k, j);
      RoundIsFresh(g, u, k, n);
    }
    forall n | n in Round(g, u, k) ensures n in All(g, u) {
      RoundIsFresh(g, u, k, n);
    }
  }

  // Main property of the fresh values: they are what the getters find among them, and no getter of
  // another field finds a value there.
  lemma FreshSatisfiesGetters(g: Config, u: User, n: Node)
    requires WellFormed(g) && UserOk(g, u) && n.id < |g.items|
    ensures if HasValue(g, u, n) then n in All(g, u) && Getter(g, u, All(g, u), n) == Got(Fresh(g, u, n))
            else n !in All(g, u) && Getter(g, u, All(g, u), n).Need?
  {
    hide WellFormed, UserOk, Getter, Nodes;
    NodesComplete(g, n);
    var k := AllIsARound(g, u);
    if Getter(g, u, All(g, u), n).Got? {
      RoundIsFresh(g, u, k + 1, n);
    }
  }

  lemma InAll(g: Config, u: User, n: Node)
    requires WellFormed(g) && UserOk(g, u)
    ensures n in All(g, u) <==> HasValue(g, u, n)
    ensures n in All(g, u) ==> n.id < |g.items|
  {
    hide WellFormed, UserOk, Nodes, Round;
    NodesComplete(g, n);
    if HasValue(g, u, n) {
      var i: nat :| n in Round(g, u, i);
      RoundIsFresh(g, u, i, n);
    }
  }

  // A getter that finds a value in a cache of fresh values finds the fresh one.
  lemma FoundIsFresh(g: Config, u: User, c: Cache, n: Node)
    requires WellFormed(g) && UserOk(g, u) && Right(g, u, c) && n.id < |g.items| && Getter(g, u, c, n).Got?
    ensures HasValue(g, u, n) && Getter(g, u, c, n) == Got(Fresh(g, u, n))
    ensures n in All(g, u) && All(g, u)[n] == Fresh(g, u, n)
  {
    hide WellFormed, UserOk, Getter, Reads, Nodes, Fresh, HasValue;
    LargerFindsSame(g, u, c, All(g, u), n);
    FreshSatisfiesGetters(g, u, n);
  }

  // ---------------------------------------------------------------- when every field has a value

  // No field depends on itself through the fields its getter may read.
  ghost predicate Ranked(g: Config, rank: Node -> nat) {
    forall n, m :: Reads(g, n, m) ==> rank(m) < rank(n)
  }

  lemma {:induction false} RankedHasValue(g: Config, u: User, rank: Node -> nat, n: Node)
    requires WellFormed(g) && UserOk(g, u) && Ranked(g, rank) && n.id < |g.items|
    ensures HasValue(g, u, n)
    decreases rank(n)
  {
    hide WellFormed, UserOk, Getter, Reads, HasValue, All, Fresh;
    FreshSatisfiesGetters(g, u, n);
    if !HasValue(g, u, n) {
      MissingIsRead(g, u, All(g, u), n);
      var m := Getter(g, u, All(g, u), n).node;
      ReadsInside(g, n, m);
      RankedHasValue(g, u, rank, m);
      InAll(g, u, m);
    }
  }

  // Main theorem: where the fields are ranked, whatever a coherent cache holds is what an evaluation
  // without any cache gives.
  lemma CoherentIsFresh(g: Config, u: User, c: Cache, rank: Node -> nat)
    requires WellFormed(g) && UserOk(g, u) && Ranked(g, rank) && Coherent(g, u, c)
    requires forall n :: n in c ==> n.id < |g.items|
    ensures Right(g, u, c)
  {
    hide WellFormed, UserOk, Ranked, Coherent, All;
    forall n | n in c ensures n in All(g, u) && All(g, u)[n] == c[n] {
      CachedIsFresh(g, u, c, rank, n);
    }
  }

  lemma {:induction false} CachedIsFresh(g: Config, u: User, c: Cache, rank: Node -> nat, n: Node)
    requires WellFormed(g) && UserOk(g, u) && Ranked(g, rank) && Coherent(g, u, c)
    requires n in c && forall m :: m in c ==> m.id < |g.items|
    ensures n in All(g, u) && All(g, u)[n] == c[n]
    decreases rank(n)
  {
    hide WellFormed, UserOk, Reads, Getter, All, Fresh, HasValue;
    var all := All(g, u);
    forall m | Reads(g, n, m) && m in c ensures m in all && all[m] == c[m] {
      CachedIsFresh(g, u, c, rank, m);
    }
    assert Alike(g, u, u, c, all, n);
    GetterSteady(g, u, u, c, all, n);
    FreshSatisfiesGetters(g, u, n);
    AllHolds(g, u, n);
  }

  lemma AllHolds(g: Config, u: User, n: Node)
    requires n in All(g, u)
    ensures HasValue(g, u, n) && All(g, u)[n] == Fresh(g, u, n)
  {}

  // ---------------------------------------------------------------- what evaluation really reads

  // Evaluating n really reads m: with every other field cached, the getter still asks for m.
  ghost predicate Demands(g: Config, u: User, n: Node, m: Node) {
    Getter(g, u, All(g, u) - {m}, n) == Need(m)
  }

  ghost predicate DemandChain(g: Config, u: User, chain: seq<Node>) {
    forall a :: 0 <= a < |chain| - 1 ==> Demands(g, u, chain[a], chain[a + 1])
  }

  // Evaluating n computes m too: n is m, or demands it directly or through other fields.
  ghost predicate Involves(g: Config, u: User, n: Node, m: Node) {
    exists chain :: chain != [] && DemandChain(g, u, chain) && chain[0] == n && chain[|chain| - 1] == m
  }

  lemma InvolvesItself(g: Config, u: User, n: Node)
    ensures Involves(g, u, n, n)
  {
    var chain := [n];
    assert DemandChain(g, u, chain) && chain[0] == n && chain[|chain| - 1] == n;
  }

  lemma InvolvesMore(g: Config, u: User, n: Node, m: Node, k: Node)
    requires Demands(g, u, n, m) && Involves(g, u, m, k)
    ensures Involves(g, u, n, k)
  {
    hide Demands;
    var chain :| chain != [] && DemandChain(g, u, chain) && chain[0] == m && chain[|chain| - 1] == k;
    var more := [n] + chain;
    forall a | 0 <= a < |more| - 1 ensures Demands(g, u, more[a], more[a + 1]) {
      assert a > 0 ==> Demands(g, u, chain[a - 1], chain[a - 1 + 1]);
    }
    assert DemandChain(g, u, more) && more[0] == n && more[|more| - 1] == k;
  }

  lemma InvolvesNext(g: Config, u: User, n: Node, m: Node, k: Node)
    requires Involves(g, u, n, m) && Demands(g, u, m, k)
    ensures Involves(g, u, n, k)
  {
    hide Demands;
    var chain :| chain != [] && DemandChain(g, u, chain) && chain[0] == n && chain[|chain| - 1] == m;
    var more := chain + [k];
    forall a | 0 <= a < |more| - 1 ensures Demands(g, u, more[a], more[a + 1]) {
      assert a < |chain| - 1 ==> Demands(g, u, chain[a], chain[a + 1]);
    }
    assert DemandChain(g, u, more) && more[0] == n && more[|more| - 1] == k;
  }

  lemma PartWithout(c: Cache, all: Cache, m: Node)
    requires PartOf(c, all) && m !in c
    ensures PartOf(c, all - {m})
  {}

  // What a getter misses in a cache of fresh values is what evaluation really reads.
  lemma MissIsDemand(g: Config, u: User, c: Cache, n: Node)
    requires WellFormed(g) && UserOk(g, u) && Right(g, u, c) && Getter(g, u, c, n).Need?
    ensures Demands(g, u, n, Getter(g, u, c, n).node)
  {
    hide WellFormed, UserOk, Getter, Reads, All, PartOf;
    MissingIsRead(g, u, c, n);
    var m := Getter(g, u, c, n).node;
    PartWithout(c, All(g, u), m);
    LargerFindsSame(g, u, c, All(g, u) - {m}, n);
  }

  // Whatever is cached, all that its evaluation really reads is cached too.
  lemma DemandsAreCached(g: Config, u: User, c: Cache, n: Node, m: Node)
    requires WellFormed(g) && UserOk(g, u) && Right(g, u, c) && Getter(g, u, c, n).Got? && Demands(g, u, n, m)
    ensures m in c
  {
    hide WellFormed, UserOk, Getter, Reads, All, PartOf;
    if m !in c {
      PartWithout(c, All(g, u), m);
      LargerFindsSame(g, u, c, All(g, u) - {m}, n);
    }
  }

  lemma {:induction false} ChainIsCached(g: Config, u: User, c: Cache, chain: seq<Node>)
    requires WellFormed(g) && UserOk(g, u) && Coherent(g, u, c) && Right(g, u, c)
    requires chain != [] && DemandChain(g, u, chain) && chain[0] in c
    ensures chain[|chain| - 1] in c
  {
    hide WellFormed, UserOk, Right, Demands, Getter;
    if |chain| > 1 {
      assert Demands(g, u, chain[0], chain[0 + 1]);
      DemandsAreCached(g, u, c, chain[0], chain[1]);
      forall a | 0 <= a < |chain[1..]| - 1 ensures Demands(g, u, chain[1..][a], chain[1..][a + 1]) {
        assert Demands(g, u, chain[a + 1], chain[a + 1 + 1]);
      }
      ChainIsCached(g, u, c, chain[1..]);
    }
  }

  lemma AllInvolvedCached(g: Config, u: User, c: Cache, n: Node)
    requires WellFormed(g) && UserOk(g, u) && Coherent(g, u, c) && Right(g, u, c) && n in c
    ensures forall m :: Involves(g, u, n, m) ==> m in c
  {
    hide WellFormed, UserOk, Coherent, Right, DemandChain;
    forall m | Involves(g, u, n, m) ensures m in c {
      var chain :| chain != [] && DemandChain(g, u, chain) && chain[0] == n && chain[|chain| - 1] == m;
      ChainIsCached(g, u, c, chain);
    }
  }

  // What the field that the getter misses involves, n involves too.
  lemma DemandInvolves(g: Config, u: User, c: Cache, n: Node)
    requires WellFormed(g) && UserOk(g, u) && Right(g, u, c) && Getter(g, u, c, n).Need?
    ensures forall k :: Involves(g, u, Getter(g, u, c, n).node, k) ==> Involves(g, u, n, k)
  {
    hide WellFormed, UserOk, Right, Involves, Getter, Demands;
    MissIsDemand(g, u, c, n);
    var m := Getter(g, u, c, n).node;
    forall k | Involves(g, u, m, k) ensures Involves(g, u, n, k) {
      InvolvesMore(g, u, n, m, k);
    }
  }

  // What evaluating n on an empty cache leaves there.
  ghost function Left(g: Config, u: User, n: Node): Cache {
    map m | m in All(g, u) && Involves(g, u, n, m) :: All(g, u)[m]
  }

  lemma LeftIsCoherent(g: Config, u: User, n: Node)
    requires WellFormed(g) && UserOk(g, u) && HasValue(g, u, n)
    ensures var c := Left(g, u, n); Coherent(g, u, c) && Right(g, u, c) && n in c
  {
    hide WellFormed, UserOk, Demands, Getter, Involves, Reads, All, HasValue;
    var c := Left(g, u, n);
    InAll(g, u, n);
    InvolvesItself(g, u, n);
    forall k | k in c ensures Getter(g, u, c, k) == Got(c[k]) {
      InAll(g, u, k);
      if Getter(g, u, c, k).Need? {
        var m := Getter(g, u, c, k).node;
        MissIsDemand(g, u, c, k);
        InvolvesNext(g, u, n, k, m);
        MissingIsRead(g, u, c, k);
        DemandHasValue(g, u, k, m);
      } else {
        FoundIsFresh(g, u, c, k);
        AllHolds(g, u, k);
      }
    }
  }

  // What the evaluation of a field with a value reads has a value.
  lemma DemandHasValue(g: Config, u: User, n: Node, m: Node)
    requires WellFormed(g) && UserOk(g, u) && n in All(g, u) && Demands(g, u, n, m)
    ensures m in All(g, u)
  {
    hide WellFormed, UserOk, Getter, Reads, All, HasValue, Fresh;
    InAll(g, u, n);
    FreshSatisfiesGetters(g, u, n);
    DemandsAreCached(g, u, All(g, u), n, m);
  }

  // A field m is cached whenever n is, whatever has been read and set before, exactly if evaluating n
  // computes m.
  lemma CachedTogetherIff(g: Config, u: User, n: Node, m: Node)
    requires WellFormed(g) && UserOk(g, u) && HasValue(g, u, n)
    ensures (forall c :: Coherent(g, u, c) && Right(g, u, c) && n in c ==> m in c) <==> Involves(g, u, n, m)
  {
    hide WellFormed, UserOk, Right, Coherent, Involves, HasValue;
    LeftIsCoherent(g, u, n);
    if Involves(g, u, n, m) {
      forall c | Coherent(g, u, c) && Right(g, u, c) && n in c ensures m in c {
        AllInvolvedCached(g, u, c, n);
      }
    }
  }

  // ---------------------------------------------------------------- how long evaluation takes

  ghost predicate GetsValueIn(g: Config, u: User, n: Node, i: nat) {
    n in Round(g, u, i) && (i > 0 ==> n !in Round(g, u, i - 1))
  }

  lemma {:induction false} SomeRoundIsFirst(g: Config, u: User, n: Node, i: nat)
    requires n in Round(g, u, i)
    ensures exists k: nat :: GetsValueIn(g, u, n, k)
  {
    hide Round;
    if i > 0 && n in Round(g, u, i - 1) {
      SomeRoundIsFirst(g, u, n, i - 1);
    } else {
      assert GetsValueIn(g, u, n, i);
    }
  }

  lemma HasFirstRound(g: Config, u: User, n: Node)
    requires HasValue(g, u, n)
    ensures exists k: nat :: GetsValueIn(g, u, n, k)
  {
    hide Round;
    var i: nat :| n in Round(g, u, i);
    SomeRoundIsFirst(g, u, n, i);
  }

  // The round in which a field gets its value.
  ghost function Depth(g: Config, u: User, n: Node): nat
    requires HasValue(g, u, n)
  {
    HasFirstRound(g, u, n);
    var k: nat :| GetsValueIn(g, u, n, k);
    k
  }

  lemma FoundJustBefore(g: Config, u: User, n: Node)
    requires HasValue(g, u, n)
    ensures Depth(g, u, n) > 0 && Getter(g, u, Round(g, u, Depth(g, u, n) - 1), n).Got?
  {
    hide Getter, Nodes;
    HasFirstRound(g, u, n);
    assert GetsValueIn(g, u, n, Depth(g, u, n));
  }

  // A field that the getter misses got its value in an earlier round.
  lemma MissIsEarlier(g: Config, u: User, c: Cache, n: Node)
    requires WellFormed(g) && UserOk(g, u) && Right(g, u, c) && HasValue(g, u, n) && Getter(g, u, c, n).Need?
    ensures var m := Getter(g, u, c, n).node; HasValue(g, u, m) && Depth(g, u, m) < Depth(g, u, n)
  {
    hide WellFormed, UserOk, Getter, Reads, PartOf, Nodes, Fresh, Round, All;
    FoundJustBefore(g, u, n);
    var i := Depth(g, u, n);
    var before := Round(g, u, i - 1);
    var m := Getter(g, u, c, n).node;
    RoundIsRight(g, u, i - 1);
    MissIsDemand(g, u, c, n);
    DemandsAreCached(g, u, before, n, m);
    assert HasValue(g, u, m);
    HasFirstRound(g, u, m);
    var k := Depth(g, u, m);
    assert GetsValueIn(g, u, m, k);
    if i <= k {
      RoundsAgree(g, u, i - 1, k - 1);
      PartHas(before, Round(g, u, k - 1), m);
    }
  }

  lemma PartHas(c: Cache, c': Cache, n: Node)
    requires PartOf(c, c') && n in c
    ensures n in c'
  {}

  lemma RoundIsRight(g: Config, u: User, i: nat)
    requires WellFormed(g) && UserOk(g, u)
    ensures Right(g, u, Round(g, u, i))
  {
    hide WellFormed, UserOk, Round, All;
    forall n | n in Round(g, u, i) ensures n in All(g, u) && All(g, u)[n] == Round(g, u, i)[n] {
      RoundIsFresh(g, u, i, n);
    }
  }

  lemma CachedIsRight(g: Config, u: User, c: Cache, n: Node)
    requires Right(g, u, c) && n in c
    ensures HasValue(g, u, n) && c[n] == Fresh(g, u, n)
  {}

  lemma RightIsInside(g: Config, u: User, c: Cache)
    requires Right(g, u, c)
    ensures forall n :: n in c ==> n.id < |g.items|
  {
    hide Fresh, HasValue;
    forall n | n in c ensures n.id < |g.items| {
      NodesComplete(g, n);
    }
  }
}
