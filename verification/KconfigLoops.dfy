/** What it is worth that the dependency-loop check of KconfigSearch has raised nothing: whether
  * evaluation ends.
  */
module KconfigLoops {
  import opened Wrappers
  import opened KconfigModel
  import opened KconfigGetters
  import opened KconfigEvaluation
  import opened KconfigSearch

  // Each item depends on the one after it.
  ghost predicate Path(g: Config, items: seq<Id>) {
    forall a :: 0 <= a < |items| - 1 ==> Dependent(g, items[a], items[a + 1])
  }

  ghost predicate ChoiceFree(g: Config) {
    forall i: Id :: g.At(i).Symbol?
  }

  // The check has raised nothing, and finished the items in this order.
  ghost predicate Accepted(g: Config, finished: seq<Id>) {
    exists taken :: Covers(g, taken, finished)
  }

  // Whatever way the search takes, it finds no loop.
  ghost predicate NeverRaises(g: Config) {
    forall taken, loop :: StepsOk(g, taken) ==> !Cycle(g, taken, loop)
  }

  // The place of an item counted from the end of the order; undefined items come last.
  function Height(finished: seq<Id>, i: Id): (h: nat)
    ensures i !in finished ==> h == 0
    ensures h <= |finished|
  {
    if finished == [] then 0 else if finished[0] == i then |finished| else Height(finished[1..], i)
  }

  lemma {:induction false} HeightAt(finished: seq<Id>, a: nat)
    requires a < |finished| && forall b, c :: 0 <= b < c < |finished| ==> finished[b] != finished[c]
    ensures Height(finished, finished[a]) == |finished| - a
  {
    if a > 0 {
      HeightAt(finished[1..], a - 1);
    }
  }

  // An item is higher than what it depends on.
  lemma DependencyIsLower(g: Config, finished: seq<Id>, k: Id, j: Id)
    requires WellFormed(g) && ChoiceFree(g) && Accepted(g, finished) && Dependent(g, k, j)
    ensures Height(finished, j) < Height(finished, k)
  {
    hide WellFormed, Dependent, Ordered, Height;
    var taken :| Covers(g, taken, finished);
    DependentListed(g, k, j);
    OrderDistinct(g, taken, finished);
    assert DefinedSymbol(g, k);
    var a :| 0 <= a < |finished| && finished[a] == k;
    HeightAt(finished, a);
    if j in finished {
      var b :| 0 <= b < |finished| && finished[b] == j;
      HeightAt(finished, b);
      OrderedAt(g, taken, finished, b, k);
      NothingTaken(g, taken);
    }
  }

  lemma DependentListed(g: Config, k: Id, j: Id)
    requires Dependent(g, k, j)
    ensures k < |g.items| && Defined(g, k)
  {}

  lemma OrderDistinct(g: Config, taken: Steps, finished: seq<Id>)
    requires Ordered(g, taken, finished)
    ensures forall b, c :: 0 <= b < c < |finished| ==> finished[b] != finished[c]
  {}

  lemma NothingTaken(g: Config, taken: Steps)
    requires WellFormed(g) && ChoiceFree(g) && StepsOk(g, taken)
    ensures taken == {}
  {
    forall p | p in taken ensures false {
      ChoiceOf(g, p.1);
    }
  }

  lemma PathTail(g: Config, items: seq<Id>)
    requires |items| > 1 && Path(g, items)
    ensures Dependent(g, items[0], items[1]) && Path(g, items[1..])
  {
    hide Dependent;
    assert Dependent(g, items[0], items[0 + 1]);
    forall a | 0 <= a < |items[1..]| - 1 ensures Dependent(g, items[1..][a], items[1..][a + 1]) {
      assert Dependent(g, items[a + 1], items[a + 1 + 1]);
    }
  }

  // Item i is MODULES or something it depends on, however indirectly.
  ghost predicate FromModules(g: Config, i: Id) {
    exists items :: items != [] && Path(g, items) && items[0] == g.modules && items[|items| - 1] == i
  }

  // MODULES depends on no tristate symbol.
  ghost predicate ModulesSafe(g: Config) {
    forall i: Id :: FromModules(g, i) ==> g.At(i).kind != Tristate
  }

  ghost function NodeHeight(g: Config, finished: seq<Id>, n: Node): nat {
    4 * (Height(finished, n.id) + (if FromModules(g, n.id) then 0 else |finished| + 1)) + Level(n)
  }

  lemma ModulesDependency(g: Config, k: Id, j: Id)
    requires FromModules(g, k) && Dependent(g, k, j)
    ensures FromModules(g, j)
  {
    hide Dependent;
    var items :| items != [] && Path(g, items) && items[0] == g.modules && items[|items| - 1] == k;
    var more := items + [j];
    forall a | 0 <= a < |more| - 1 ensures Dependent(g, more[a], more[a + 1]) {
      assert a < |items| - 1 ==> Dependent(g, items[a], items[a + 1]);
    }
    assert Path(g, more) && more[0] == g.modules && more[|more| - 1] == j;
  }

  lemma ReadIsLower(g: Config, finished: seq<Id>, n: Node, m: Node)
    requires WellFormed(g) && ChoiceFree(g) && Accepted(g, finished) && ModulesSafe(g) && Reads(g, n, m)
    ensures NodeHeight(g, finished, m) < NodeHeight(g, finished, n)
  {
    hide WellFormed, Accepted, Dependent, Height, FromModules;
    if Dependent(g, n.id, m.id) {
      DependencyIsLower(g, finished, n.id, m.id);
      if FromModules(g, n.id) {
        ModulesDependency(g, n.id, m.id);
      }
    } else if m == TriVal(g.modules) && NeedsModules(g, n.id) {
      assert FromModules(g, g.modules) by { ModulesItself(g); }
    } else {
      NoChoiceReads(g, n, m);
    }
  }

  lemma ModulesItself(g: Config)
    ensures FromModules(g, g.modules)
  {
    var items := [g.modules];
    assert Path(g, items) && items[0] == g.modules && items[|items| - 1] == g.modules;
  }

  lemma NoChoiceReads(g: Config, n: Node, m: Node)
    requires WellFormed(g) && ChoiceFree(g) && Reads(g, n, m)
    requires !Dependent(g, n.id, m.id) && !(m == TriVal(g.modules) && NeedsModules(g, n.id))
    ensures m.id == n.id && Level(m) < Level(n)
  {}

  lemma {:induction false} PathIsRead(g: Config, rank: Node -> nat, items: seq<Id>)
    requires ChoiceFree(g) && Ranked(g, rank) && items != [] && Path(g, items)
    ensures rank(TriVal(items[|items| - 1])) <= rank(TriVal(items[0]))
  {
    hide Dependent;
    if |items| > 1 {
      PathTail(g, items);
      PathIsRead(g, rank, items[1..]);
      assert Reads(g, TriVal(items[0]), TriVal(items[1]));
    }
  }

  // When the check has raised nothing, the reads that the getters may make are well founded exactly if
  // MODULES depends on no tristate symbol.  The type of a tristate symbol depends on MODULES, but
  // _build_dep does not count that as a dependency.
  lemma PossibleReadsRankedIff(g: Config, finished: seq<Id>)
    requires WellFormed(g) && ChoiceFree(g) && Accepted(g, finished)
    ensures (exists rank :: Ranked(g, rank)) <==> ModulesSafe(g)
  {
    hide WellFormed, Accepted, Dependent, Height, Reads, NodeHeight;
    if ModulesSafe(g) {
      var rank: Node -> nat := n => NodeHeight(g, finished, n);
      forall n, m | Reads(g, n, m) ensures rank(m) < rank(n) {
        ReadIsLower(g, finished, n, m);
      }
      assert Ranked(g, rank);
    }
    forall rank | Ranked(g, rank) ensures ModulesSafe(g) {
      forall i: Id | FromModules(g, i) ensures g.At(i).kind != Tristate {
        var items :| items != [] && Path(g, items) && items[0] == g.modules && items[|items| - 1] == i;
        PathIsRead(g, rank, items);
        if g.At(i).kind == Tristate {
          TristateReadsModules(g, i);
        }
      }
    }
  }

  lemma TristateReadsModules(g: Config, i: Id)
    requires g.At(i).kind == Tristate
    ensures Reads(g, TriVal(i), TriVal(g.modules))
  {}

  // ---------------------------------------------------------------- when evaluation ends

  // With the values in c, the getter of each field asks for the next one.
  ghost predicate NeedChain(g: Config, u: User, c: Cache, chain: seq<Node>) {
    forall a :: 0 <= a < |chain| - 1 ==> Getter(g, u, c, chain[a]) == Need(chain[a + 1])
  }

  // MODULES cannot be evaluated without the value of a tristate symbol, directly or through others, and
  // that symbol not without the value of MODULES.
  ghost predicate AsksForItself(g: Config, u: User, c: Cache, chain: seq<Node>) {
    && Right(g, u, c) && chain != [] && NeedChain(g, u, c, chain)
    && chain[0] == TriVal(g.modules)
    && g.At(chain[|chain| - 1].id).kind == Tristate
    && Getter(g, u, c, chain[|chain| - 1]) == Need(TriVal(g.modules))
  }

  ghost predicate ModulesNeedsItself(g: Config, u: User) {
    exists c, chain :: AsksForItself(g, u, c, chain)
  }

  ghost predicate EvaluationEnds(g: Config, u: User) {
    forall n: Node :: n.id < |g.items| ==> HasValue(g, u, n)
  }

  function ReadHeight(finished: seq<Id>, n: Node): nat { 4 * Height(finished, n.id) + Level(n) }

  // Every read goes down, but for those of the type of a tristate symbol.
  lemma ReadGoesDown(g: Config, finished: seq<Id>, n: Node, m: Node)
    requires WellFormed(g) && ChoiceFree(g) && Accepted(g, finished) && Reads(g, n, m)
    ensures || ReadHeight(finished, m) < ReadHeight(finished, n)
            || (m == TriVal(g.modules) && g.At(n.id).kind == Tristate)
  {
    hide WellFormed, Accepted, Dependent, Height, NeedsModules;
    if Dependent(g, n.id, m.id) {
      DependencyIsLower(g, finished, n.id, m.id);
    } else if m == TriVal(g.modules) && NeedsModules(g, n.id) {
      OnlyTristatesNeedModules(g, n.id);
    } else {
      NoChoiceReads(g, n, m);
    }
  }

  lemma OnlyTristatesNeedModules(g: Config, i: Id)
    requires ChoiceFree(g) && NeedsModules(g, i)
    ensures g.At(i).kind == Tristate
  {
    hide Dependent;
  }

  // A field without a value needs, directly or through others, the value of MODULES.
  lemma {:induction false} NeedsModulesInTheEnd(g: Config, u: User, finished: seq<Id>,
            n: Node) returns (chain: seq<Node>)
    requires WellFormed(g) && ChoiceFree(g) && Accepted(g, finished) && n.id < |g.items| && !HasValue(g, u, n)
    ensures chain != [] && chain[0] == n && NeedChain(g, u, All(g, u), chain)
    ensures Getter(g, u, All(g, u), chain[|chain| - 1]) == Need(TriVal(g.modules))
    ensures ReadHeight(finished, chain[|chain| - 1]) <= ReadHeight(finished, n)
    decreases ReadHeight(finished, n)
  {
    hide WellFormed, Accepted, Getter, Reads, HasValue, All, Fresh, Height, Level;
    FreshSatisfiesGetters(g, u, n);
    var m := Getter(g, u, All(g, u), n).node;
    MissingIsRead(g, u, All(g, u), n);
    ReadsInside(g, n, m);
    if m == TriVal(g.modules) {
      chain := [n];
    } else {
      ReadGoesDown(g, finished, n, m);
      FreshSatisfiesGetters(g, u, m);
      var rest := NeedsModulesInTheEnd(g, u, finished, m);
      chain := [n] + rest;
    }
  }

  lemma {:induction false} ChainGetsEarlier(g: Config, u: User, c: Cache, chain: seq<Node>)
    requires WellFormed(g) && UserOk(g, u) && Right(g, u, c) && chain != [] && NeedChain(g, u, c, chain)
    requires HasValue(g, u, chain[0])
    ensures var last := chain[|chain| - 1]; HasValue(g, u, last) && Depth(g, u, last) <= Depth(g, u, chain[0])
  {
    hide WellFormed, UserOk, Right, Getter, HasValue;
    if |chain| > 1 {
      assert Getter(g, u, c, chain[0]) == Need(chain[0 + 1]);
      MissIsEarlier(g, u, c, chain[0]);
      forall a | 0 <= a < |chain[1..]| - 1 ensures Getter(g, u, c, chain[1..][a]) == Need(chain[1..][a + 1]) {
        assert Getter(g, u, c, chain[a + 1]) == Need(chain[a + 1 + 1]);
      }
      ChainGetsEarlier(g, u, c, chain[1..]);
    }
  }

  // Main theorem: when the check has raised nothing, then for all values the user may have set, the
  // evaluation of every field ends exactly if that of MODULES does, and that is exactly if MODULES does
  // not come back to itself by the type of a tristate symbol that it depends on.
  lemma EvaluationEndsIff(g: Config, u: User, finished: seq<Id>)
    requires WellFormed(g) && ChoiceFree(g) && Accepted(g, finished)
    ensures EvaluationEnds(g, u) <==> HasValue(g, u, TriVal(g.modules))
    ensures EvaluationEnds(g, u) <==> !ModulesNeedsItself(g, u)
  {
    hide WellFormed, Accepted, Getter, Reads, HasValue, All, Fresh, Height, Level;
    var modules := TriVal(g.modules);
    ModulesInside(g);
    if HasValue(g, u, modules) {
      InAll(g, u, modules);
      forall n: Node | n.id < |g.items| ensures HasValue(g, u, n) {
        if !HasValue(g, u, n) {
          var chain := NeedsModulesInTheEnd(g, u, finished, n);
          MissingIsRead(g, u, All(g, u), chain[|chain| - 1]);
        }
      }
      forall c, chain ensures !AsksForItself(g, u, c, chain) {
        if AsksForItself(g, u, c, chain) {
          ChainGetsEarlier(g, u, c, chain);
          MissIsEarlier(g, u, c, chain[|chain| - 1]);
        }
      }
    } else {
      var chain := NeedsModulesInTheEnd(g, u, finished, modules);
      var last := chain[|chain| - 1];
      MissingIsRead(g, u, All(g, u), last);
      ReadGoesDown(g, finished, last, modules);
      assert AsksForItself(g, u, All(g, u), chain);
    }
  }

  lemma ModulesInside(g: Config)
    requires WellFormed(g)
    ensures g.modules < |g.items|
  {}

  // If MODULES depends on no tristate symbol, evaluation ends for all users.
  lemma SafeEvaluationEnds(g: Config, u: User, finished: seq<Id>)
    requires WellFormed(g) && ChoiceFree(g) && Accepted(g, finished) && ModulesSafe(g)
    ensures EvaluationEnds(g, u)
  {
    hide WellFormed, Accepted, ModulesSafe, Ranked, HasValue;
    PossibleReadsRankedIff(g, finished);
    var rank :| Ranked(g, rank);
    forall n: Node | n.id < |g.items| ensures HasValue(g, u, n) {
      RankedHasValue(g, u, rank, n);
    }
  }

  // Fields that need one another, each the next one first, have no values.
  lemma CircleHasNoValue(g: Config, u: User, c: Cache, chain: seq<Node>)
    requires WellFormed(g) && UserOk(g, u) && Right(g, u, c) && chain != [] && NeedChain(g, u, c, chain)
    requires Getter(g, u, c, chain[|chain| - 1]) == Need(chain[0])
    ensures !HasValue(g, u, chain[0])
  {
    hide WellFormed, UserOk, Right, Getter, HasValue;
    if HasValue(g, u, chain[0]) {
      ChainGetsEarlier(g, u, c, chain);
      MissIsEarlier(g, u, c, chain[|chain| - 1]);
    }
  }
}
