/** The dependency-loop check of scripts/kconfiglib.py, run after _build_dep: a depth-first search over
  * the items that depend on one another, with its special rules for choices.
  */
module KconfigSearch {
  import opened Wrappers
  import opened KconfigModel
  import opened Lists

  // The search goes from a symbol to the items in its _dependents, and from a choice to its symbols,
  // but not to other items in its _dependents.
  predicate Step(g: Config, j: Id, k: Id) {
    if g.At(j).Symbol? then Dependent(g, k, j) else k in g.At(j).syms
  }

  // It also goes from a symbol to its choice, but not always: `taken` has the choice and the symbol each
  // time it does.  What it goes to depends on what it comes from: item k on item j.
  type Steps = set<(Id, Id)>

  predicate Edge(g: Config, taken: Steps, k: Id, j: Id) {
    Step(g, j, k) || (k, j) in taken
  }

  // A choice and one of its symbols, which the conditions of the choice do not name.
  predicate Bound(g: Config, k: Id, j: Id) {
    || (g.At(k).Choice? && j in g.At(k).syms && !Dependent(g, k, j))
    || (g.At(j).Choice? && k in g.At(j).syms && !Dependent(g, j, k))
  }

  function Behind(n: nat, a: nat): nat { if a + 1 == n then 0 else a + 1 }
  function Before(n: nat, a: nat): nat
    requires 0 < n
  {
    if a == 0 then n - 1 else a - 1
  }

  // Each item depends on the one after it, and the last one on the first; going from a choice to one of
  // its symbols and right back, or the other way round, does not count.
  predicate Cycle(g: Config, taken: Steps, loop: seq<Id>) {
    && loop != []
    && forall a {:trigger loop[a]} :: 0 <= a < |loop| ==>
         && Edge(g, taken, loop[a], loop[Behind(|loop|, a)])
         && !(loop[Behind(|loop|, Behind(|loop|, a))] == loop[a] && Bound(g, loop[a], loop[Behind(|loop|, a)]))
  }

  predicate Chain(g: Config, taken: Steps, items: seq<Id>) {
    forall a :: 0 <= a < |items| - 1 ==> Edge(g, taken, items[a], items[a + 1])
  }

  // The last symbol of a choice to be finished may be the one by which the search came to the choice.
  ghost predicate Late(g: Config, taken: Steps, finished: seq<Id>, a: nat, k: Id)
    requires a < |finished|
  {
    && a + 1 < |finished| && finished[a + 1] == k && (finished[a], k) in taken
    && forall d: Id :: Dependent(g, d, k) ==> d in finished[..a]
  }

  // Every item comes after all the items that depend on it.
  ghost predicate Ordered(g: Config, taken: Steps, finished: seq<Id>) {
    && Distinct(finished)
    && forall a: nat, k: Id :: a < |finished| && Edge(g, taken, k, finished[a]) ==>
         k in finished[..a] || Late(g, taken, finished, a, k)
  }

  predicate DefinedSymbol(g: Config, i: Id) { g.At(i).Symbol? && g.At(i).defined }

  ghost predicate Covers(g: Config, taken: Steps, finished: seq<Id>) {
    && StepsOk(g, taken) && Ordered(g, taken, finished)
    && forall i: Id :: i < |g.items| && DefinedSymbol(g, i) ==> i in finished
  }

  predicate StepsOk(g: Config, taken: Steps) {
    forall p :: p in taken ==> p.1 < |g.items| && g.At(p.1).Symbol? && g.At(p.1).choice == Some(p.0)
  }

  // The search has come to choice c from one of its symbols, or it can come from one that its conditions
  // name.
  ghost predicate Entered(g: Config, taken: Steps, c: Id) {
    (exists x :: (c, x) in taken) || exists j :: Dependent(g, c, j)
  }

  // Symbol x is in choice c and in no other.
  ghost predicate Only(g: Config, x: Id, c: Id) {
    && g.At(x).Symbol? && g.At(x).choice == Some(c)
    && forall d: Id :: d < |g.items| && g.At(d).Choice? && x in g.At(d).syms ==> d == c
  }

  ghost predicate ChoicesOk(g: Config, taken: Steps, visited: seq<nat>) {
    && |visited| == |g.items|
    && (forall x: Id, c: Id :: x < |visited| && visited[x] == 2 && Only(g, x, c) ==> c < |visited| && visited[c] != 0)
    && (forall c: Id :: c < |visited| && visited[c] == 2 && g.At(c).Choice? ==> Entered(g, taken, c))
  }

  // The search has come to every choice.
  ghost predicate AllEntered(g: Config, taken: Steps) {
    forall x: Id, c: Id :: x < |g.items| && DefinedSymbol(g, x) && Only(g, x, c) ==> Entered(g, taken, c)
  }

  // What the two functions return: None, the part of a loop seen so far, or the loop of the exception
  // that they raise.
  datatype Result = NoLoop | Part(loop: seq<Id>) | Raised(loop: seq<Id>)

  function Followers(g: Config, j: Id): set<Id> {
    set k | 0 <= k < |g.items| && Dependent(g, k, j)
  }

  // What has been seen of a loop: it starts at an item that was being visited before, and the others
  // were not visited then.
  ghost predicate PartOk(g: Config, taken: Steps, loop: seq<Id>, last: Id, before: seq<nat>) {
    && loop != [] && Chain(g, taken, loop) && Distinct(loop) && loop[|loop| - 1] == last
    && loop[0] < |before| && before[loop[0]] == 1
    && (forall a :: 1 <= a < |loop| ==> loop[a] < |before| && before[loop[a]] == 0)
  }

  function White(visited: seq<nat>): set<Id> { set i: Id | i < |visited| && visited[i] == 0 }

  class Checker {
    const g: Config
    var visited: seq<nat>           // _visited
    ghost var finished: seq<Id>     // the items with _visited == 2, in the order in which they got it
    ghost var taken: Steps

    ghost predicate Consistent()
      reads this
    {
      && WellFormed(g) && StepsOk(g, taken)
      && |visited| == |g.items| && (forall i: Id :: i < |visited| ==> visited[i] <= 2)
      && (forall p :: p in taken ==> visited[p.1] != 0) && ChoicesOk(g, taken, visited)
      && (forall i: Id :: i in finished <==> i < |visited| && visited[i] == 2)
    }

    ghost predicate Valid()
      reads this
    {
      Consistent() && Ordered(g, taken, finished)
    }

    // A call that has found no loop has finished items, and is visiting those that it was visiting before.
    ghost predicate Progress(visited0: seq<nat>, finished0: seq<Id>, taken0: Steps)
      reads this
    {
      && |visited| == |visited0| && White(visited) <= White(visited0)
      && (forall i :: i in finished0 ==> i in finished)
      && (forall i: Id :: i < |visited| ==> (visited[i] == 1 <==> visited0[i] == 1))
      && (forall p :: p in taken && p !in taken0 ==> p.1 < |visited0| && visited0[p.1] == 0)
    }

    constructor (g: Config)
      requires WellFormed(g)
      ensures Valid() && this.g == g && taken == {} && forall i: Id :: i < |visited| ==> visited[i] == 0
    {
      this.g := g;
      visited := seq(|g.items|, i => 0);
      finished, taken := [], {};
    }

    // _found_dep_loop
    static function FoundDepLoop(loop: seq<Id>, cur: Id): Result
      requires loop != []
    {
      if cur != loop[0] then Part(loop + [cur]) else Raised(loop)
    }

    // _check_dep_loop_sym
    method CheckDepLoopSym(sym: Id, ignoreChoice: bool) returns (r: Result)
      requires Valid() && sym < |g.items| && g.At(sym).Symbol?
      requires ignoreChoice ==> forall c: Id :: Only(g, sym, c) ==> c < |visited| && visited[c] == 1
      modifies this`visited, this`finished, this`taken
      ensures r.NoLoop? ==> Valid() && visited[sym] == 2 && Progress(old(visited), old(finished), old(taken))
      ensures r.Part? ==> PartOk(g, taken, r.loop, sym, old(visited))
      ensures old(taken) <= taken && StepsOk(g, taken)
      ensures r.Part? && ignoreChoice && |r.loop| == 2 ==> Dependent(g, r.loop[0], sym)
      ensures r.Raised? ==> Cycle(g, taken, r.loop) && Distinct(r.loop)
      decreases White(visited), 0
    {
      hide WellFormed, Cycle, Ordered, Followers, Distinct, Chain, Bound, Edge, PartOk, ChoicesOk, Only, Entered;
      if visited[sym] == 0 {
        assert sym in White(visited);
        ghost var before := visited;
        MarkVisited(g, taken, visited, sym, 1);
        visited := visited[sym := 1];
        r := CheckFollowers(sym, before);
        if r.NoLoop? {
          r := CheckOwnChoice(sym, ignoreChoice, before);
        }
        if r.NoLoop? {
          MarkVisited(g, taken, visited, sym, 2);
          visited := visited[sym := 2];
          finished := finished + [sym];
        }
      } else {
        SingleIsPart(g, taken, sym, visited);
        r := if visited[sym] == 2 then NoLoop else Part([sym]);
      }
    }

    // Its loop over the items that depend on the symbol.
    method CheckFollowers(sym: Id, ghost before: seq<nat>) returns (r: Result)
      requires Valid() && sym < |before| == |visited| && g.At(sym).Symbol?
      requires before[sym] == 0 && visited == before[sym := 1]
      modifies this`visited, this`finished, this`taken
      ensures r.NoLoop? ==> Valid() && Progress(before[sym := 1], old(finished), old(taken))
      ensures r.NoLoop? ==> forall d :: d in Followers(g, sym) ==> d in finished
      ensures r.Part? ==> PartOk(g, taken, r.loop, sym, before) && (|r.loop| == 2 ==> Dependent(g, r.loop[0], sym))
      ensures old(taken) <= taken && StepsOk(g, taken)
      ensures r.Raised? ==> Cycle(g, taken, r.loop) && Distinct(r.loop)
      decreases White(visited), 1
    {
      hide WellFormed, Cycle, Ordered, Followers, Distinct, Chain, Bound, Step, ChoicesOk, Only;
      var todo := Followers(g, sym);
      while todo != {}
        invariant Valid() && Progress(before[sym := 1], old(finished), old(taken)) && old(taken) <= taken
        invariant forall d :: d in todo ==> d in Followers(g, sym)
        invariant forall d :: d in Followers(g, sym) && d !in todo ==> d in finished
        decreases todo
      {
        var dep :| dep in todo;
        todo := todo - {dep};
        IsFollower(g, dep, sym);
        ghost var now := visited;
        if g.At(dep).Choice? {
          r := CheckDepLoopChoice(dep, None);
        } else {
          r := CheckDepLoopSym(dep, false);
        }
        if r.Part? {
          FollowerStep(g, dep, sym);
          PartGrows(g, taken, r.loop, dep, sym, now, before);
          return FoundDepLoop(r.loop, sym);
        } else if r.Raised? {
          return;
        }
      }
      r := NoLoop;
    }

    // Its step from a choice symbol to the choice.
    method CheckOwnChoice(sym: Id, ignoreChoice: bool, ghost before: seq<nat>) returns (r: Result)
      requires Valid() && sym < |before| == |visited| && g.At(sym).Symbol?
      requires ignoreChoice ==> forall c: Id :: Only(g, sym, c) ==> c < |visited| && visited[c] == 1
      requires before[sym] == 0 && visited[sym] == 1 && forall d :: d in Followers(g, sym) ==> d in finished
      requires (forall p :: p in taken ==> p.1 != sym)
      requires forall i: Id :: i < |visited| && visited[i] == 0 ==> before[i] == 0
      requires forall i: Id :: i < |visited| && i != sym ==> (visited[i] == 1 <==> before[i] == 1)
      modifies this`visited, this`finished, this`taken
      ensures r.NoLoop? ==>
        && Consistent() && Ordered(g, taken, finished + [sym]) && White(visited) <= White(old(visited))
        && (forall i :: i in old(finished) ==> i in finished) && |visited| == |before|
        && (forall i: Id :: i < |visited| ==> (visited[i] == 1 <==> old(visited)[i] == 1))
        && (forall p :: p in taken && p !in old(taken) ==> p.1 < |before| && before[p.1] == 0)
        && (forall c: Id :: Only(g, sym, c) ==> c < |visited| && visited[c] != 0)
      ensures r.Part? ==> !ignoreChoice && PartOk(g, taken, r.loop, sym, before)
      ensures old(taken) <= taken && StepsOk(g, taken)
      ensures r.Raised? ==> Cycle(g, taken, r.loop) && Distinct(r.loop)
      decreases White(visited), 1
    {
      hide WellFormed, Cycle, Ordered, Followers, Distinct, Chain, Bound, ChoicesOk, Only;
      OnlyItsOwn(g, sym);
      if g.At(sym).choice.None? || ignoreChoice {
        Finish(g, taken, finished, sym);
        return NoLoop;
      }
      var choice := g.At(sym).choice.value;
      ChoiceOf(g, sym);
      if visited[choice] != 2 {
        TakenGrows(g, taken, finished, choice, sym);
        MoreTaken(g, taken, visited, choice, sym);
        taken := taken + {(choice, sym)};
      }
      ghost var now := visited;
      r := CheckDepLoopChoice(choice, Some(sym));
      if r.Part? {
        PartGrows(g, taken, r.loop, choice, sym, now, before);
        return FoundDepLoop(r.loop, sym);
      }
    }

    // _check_dep_loop_choice
    method CheckDepLoopChoice(choice: Id, skip: Option<Id>) returns (r: Result)
      requires Valid() && choice < |g.items| && g.At(choice).Choice?
      requires visited[choice] == 0 ==> Entered(g, taken, choice)
      requires skip.Some? ==>
        && skip.value < |g.items| && g.At(skip.value).Symbol? && g.At(skip.value).choice == Some(choice)
        && visited[skip.value] == 1 && (visited[choice] != 2 ==> (choice, skip.value) in taken)
        && forall d :: d in Followers(g, skip.value) ==> d in finished
      modifies this`visited, this`finished, this`taken
      ensures r.NoLoop? ==>
        && Consistent() && visited[choice] == 2 && Progress(old(visited), old(finished), old(taken))
        && (if skip.Some? then Ordered(g, taken, finished + [skip.value]) else Ordered(g, taken, finished))
      ensures r.Part? ==> PartOk(g, taken, r.loop, choice, old(visited)) && old(visited)[choice] != 2
      ensures r.Part? && |r.loop| == 2 ==> skip != Some(r.loop[0])
      ensures old(taken) <= taken && StepsOk(g, taken)
      ensures r.Raised? ==> Cycle(g, taken, r.loop) && Distinct(r.loop)
      decreases White(visited), 0
    {
      hide WellFormed, Cycle, Ordered, Followers, Distinct, Chain, Bound, Edge, PartOk, ChoicesOk, Only, Entered;
      if visited[choice] == 0 {
        assert choice in White(visited);
        ghost var before, taken0 := visited, taken;
        MarkVisited(g, taken, visited, choice, 1);
        visited := visited[choice := 1];
        r := CheckSymbols(choice, skip, before);
        if !r.NoLoop? {
          return;
        }
        FinishChoice(g, taken, finished, choice, skip);
        OnlyItsOwn(g, choice);
        EnteredStill(g, taken0, taken, choice);
        MarkVisited(g, taken, visited, choice, 2);
        visited := visited[choice := 2];
        finished := finished + [choice];
        return;
      }
      if skip.Some? && visited[choice] == 2 {
        Finish(g, taken, finished, skip.value);
      }
      SingleIsPart(g, taken, choice, visited);
      return if visited[choice] == 2 then NoLoop else Part([choice]);
    }

    // Its loop over the symbols of the choice.
    method CheckSymbols(choice: Id, skip: Option<Id>, ghost before: seq<nat>) returns (r: Result)
      requires Valid() && choice < |before| == |visited| && g.At(choice).Choice?
      requires before[choice] == 0 && visited == before[choice := 1]
      modifies this`visited, this`finished, this`taken
      ensures r.NoLoop? ==> Valid() && Progress(before[choice := 1], old(finished), old(taken))
      ensures r.NoLoop? ==> forall s :: s in g.At(choice).syms && skip != Some(s) ==> s in finished
      ensures r.Part? ==> PartOk(g, taken, r.loop, choice, before) && (|r.loop| == 2 ==> skip != Some(r.loop[0]))
      ensures old(taken) <= taken && StepsOk(g, taken)
      ensures r.Raised? ==> Cycle(g, taken, r.loop) && Distinct(r.loop)
      decreases White(visited), 1
    {
      hide WellFormed, Cycle, Ordered, Distinct, Chain, Bound, Step, ChoicesOk, Only, Entered;
      var syms := g.At(choice).syms;
      for i := 0 to |syms|
        invariant Valid() && Progress(before[choice := 1], old(finished), old(taken)) && old(taken) <= taken
        invariant forall a :: 0 <= a < i && skip != Some(syms[a]) ==> syms[a] in finished
      {
        var sym := syms[i];
        if skip != Some(sym) {
          SymbolOf(g, choice, sym);
          OnlyThis(g, choice, sym);
          ghost var now := visited;
          r := CheckDepLoopSym(sym, true);
          if r.Part? {
            PartGrows(g, taken, r.loop, sym, choice, now, before);
            return FoundDepLoop(r.loop, choice);
          } else if r.Raised? {
            return;
          }
        }
      }
      r := NoLoop;
    }

    // The loop in Kconfig.__init__ that checks all defined symbols.
    method CheckAll() returns (r: Result)
      requires Valid() && forall i: Id :: i < |visited| ==> visited[i] == 0
      modifies this`visited, this`finished, this`taken
      ensures !r.Part? && StepsOk(g, taken)
      ensures r.NoLoop? ==> Valid() && Covers(g, taken, finished) && AllEntered(g, taken)
      ensures r.Raised? ==> Cycle(g, taken, r.loop) && Distinct(r.loop)
      ensures r.Raised? <==> exists loop :: Cycle(g, taken, loop)
    {
      hide WellFormed, Cycle, Ordered, Distinct, Chain, ChoicesOk, AllEntered;
      var i := 0;
      while i < |g.items|
        invariant i <= |g.items| && Valid() && forall j: Id :: j < |visited| ==> visited[j] != 1
        invariant forall j: Id :: j < i && DefinedSymbol(g, j) ==> j in finished
      {
        if DefinedSymbol(g, i) {
          r := CheckDepLoopSym(i, false);
          if r.Raised? {
            return;
          }
        }
        i := i + 1;
      }
      forall loop ensures !Cycle(g, taken, loop) {
        if Cycle(g, taken, loop) {
          OrderedHasNoCycle(g, taken, finished, loop);
        }
      }
      AllAreEntered(g, taken, visited);
      r := NoLoop;
    }
  }

  lemma MarkVisited(g: Config, taken: Steps, visited: seq<nat>, i: Id, mark: nat)
    requires ChoicesOk(g, taken, visited) && i < |visited| && visited[i] < mark <= 2
    requires mark == 2 ==> forall c: Id :: Only(g, i, c) ==> c < |visited| && visited[c] != 0
    requires mark == 2 && g.At(i).Choice? ==> Entered(g, taken, i)
    ensures ChoicesOk(g, taken, visited[i := mark])
  {
    hide Only, Entered;
  }

  lemma MoreTaken(g: Config, taken: Steps, visited: seq<nat>, choice: Id, sym: Id)
    requires ChoicesOk(g, taken, visited)
    ensures ChoicesOk(g, taken + {(choice, sym)}, visited) && Entered(g, taken + {(choice, sym)}, choice)
  {
    hide Only, Entered;
    assert (choice, sym) in taken + {(choice, sym)};
    EnteredBy(g, taken + {(choice, sym)}, choice, sym);
    forall c: Id | Entered(g, taken, c) ensures Entered(g, taken + {(choice, sym)}, c) {
      EnteredStill(g, taken, taken + {(choice, sym)}, c);
    }
  }

  lemma EnteredBy(g: Config, taken: Steps, c: Id, x: Id)
    requires (c, x) in taken
    ensures Entered(g, taken, c)
  {}

  lemma EnteredStill(g: Config, less: Steps, more: Steps, c: Id)
    requires Entered(g, less, c) && less <= more
    ensures Entered(g, more, c)
  {}

  lemma OnlyThis(g: Config, choice: Id, sym: Id)
    requires choice < |g.items| && g.At(choice).Choice? && sym in g.At(choice).syms
    ensures forall c: Id :: Only(g, sym, c) ==> c == choice
  {}

  lemma OnlyItsOwn(g: Config, i: Id)
    ensures forall c: Id :: Only(g, i, c) ==> g.At(i).Symbol? && g.At(i).choice == Some(c)
  {}

  lemma AllAreEntered(g: Config, taken: Steps, visited: seq<nat>)
    requires WellFormed(g) && ChoicesOk(g, taken, visited)
    requires forall i: Id :: i < |visited| ==> visited[i] == 0 || visited[i] == 2
    requires forall i: Id :: i < |g.items| && DefinedSymbol(g, i) ==> visited[i] == 2
    ensures AllEntered(g, taken)
  {
    forall x: Id, c: Id | x < |g.items| && DefinedSymbol(g, x) && Only(g, x, c) ensures Entered(g, taken, c) {
      ChoiceOf(g, x);
    }
  }

  // The loop so far, seen from the item that the search came from.
  lemma PartGrows(g: Config, taken: Steps, loop: seq<Id>, child: Id, cur: Id, now: seq<nat>, before: seq<nat>)
    requires WellFormed(g) && PartOk(g, taken, loop, child, now) && Edge(g, taken, child, cur)
    requires |now| == |before| && cur < |now| && now[cur] == 1 && before[cur] == 0
    requires forall i: Id :: i < |now| && now[i] == 0 ==> before[i] == 0
    requires forall i: Id :: i < |now| && i != cur && now[i] == 1 ==> before[i] == 1
    requires loop[0] == cur && |loop| == 2 ==> !Bound(g, loop[0], loop[1])
    ensures if cur != loop[0] then PartOk(g, taken, loop + [cur], cur, before) else Cycle(g, taken, loop)
  {
    hide Edge, WellFormed, Bound, Cycle;
    if cur != loop[0] {
      var all := loop + [cur];
      forall a | 0 <= a < |all| - 1 ensures Edge(g, taken, all[a], all[a + 1]) {
        assert a < |loop| - 1 ==> Edge(g, taken, loop[a], loop[a + 1]);
      }
    } else {
      ChainCloses(g, taken, loop);
    }
  }

  lemma ChainCloses(g: Config, taken: Steps, loop: seq<Id>)
    requires WellFormed(g) && loop != [] && Chain(g, taken, loop) && Distinct(loop)
    requires Edge(g, taken, loop[|loop| - 1], loop[0])
    requires |loop| == 2 ==> !Bound(g, loop[0], loop[1])
    ensures Cycle(g, taken, loop)
  {
    hide Edge;
    forall a | 0 <= a < |loop|
      ensures Edge(g, taken, loop[a], loop[Behind(|loop|, a)])
      ensures !(loop[Behind(|loop|, Behind(|loop|, a))] == loop[a] && Bound(g, loop[a], loop[Behind(|loop|, a)]))
    {
      assert a < |loop| - 1 ==> Edge(g, taken, loop[a], loop[a + 1]);
    }
  }

  lemma SingleIsPart(g: Config, taken: Steps, i: Id, visited: seq<nat>)
    requires i < |visited|
    ensures visited[i] == 1 ==> PartOk(g, taken, [i], i, visited)
  {}

  lemma IsFollower(g: Config, d: Id, sym: Id)
    ensures d in Followers(g, sym) <==> d < |g.items| && Dependent(g, d, sym)
  {}

  lemma FollowerStep(g: Config, d: Id, sym: Id)
    requires g.At(sym).Symbol? && Dependent(g, d, sym)
    ensures Step(g, sym, d) && !Bound(g, sym, d)
  {}

  lemma SymbolOf(g: Config, choice: Id, sym: Id)
    requires WellFormed(g) && g.At(choice).Choice? && sym in g.At(choice).syms
    ensures sym < |g.items| && g.At(sym).Symbol? && Step(g, choice, sym)
    ensures Dependent(g, choice, sym) ==> !Bound(g, choice, sym)
  {}

  lemma ChoiceOf(g: Config, sym: Id)
    requires WellFormed(g) && g.At(sym).Symbol? && g.At(sym).choice.Some?
    ensures var choice := g.At(sym).choice.value;
            choice < |g.items| && g.At(choice).Choice? && sym in g.At(choice).syms
  {}

  lemma TakenGrows(g: Config, taken: Steps, finished: seq<Id>, choice: Id, sym: Id)
    requires Ordered(g, taken, finished) && sym !in finished
    ensures Ordered(g, taken + {(choice, sym)}, finished)
  {
    hide Step;
    forall a: nat, k: Id | a < |finished| && Edge(g, taken + {(choice, sym)}, k, finished[a])
      ensures k in finished[..a] || Late(g, taken + {(choice, sym)}, finished, a, k)
    {
      assert Edge(g, taken, k, finished[a]);
      assert Late(g, taken, finished, a, k) ==> Late(g, taken + {(choice, sym)}, finished, a, k);
    }
  }

  // A symbol by which the search has not gone to its choice.
  lemma Finish(g: Config, taken: Steps, finished: seq<Id>, sym: Id)
    requires WellFormed(g) && StepsOk(g, taken) && Ordered(g, taken, finished) && sym !in finished
    requires g.At(sym).Symbol? && (forall d :: d in Followers(g, sym) ==> d in finished)
    requires forall p :: p in taken && p.1 == sym ==> p.0 in finished
    ensures Ordered(g, taken, finished + [sym])
  {
    Append(g, taken, finished, sym);
    forall k: Id | Edge(g, taken, k, sym) ensures k in finished {
      IsFollower(g, k, sym);
    }
  }

  lemma Append(g: Config, taken: Steps, finished: seq<Id>, i: Id)
    requires Ordered(g, taken, finished) && i !in finished
    requires forall k: Id :: Edge(g, taken, k, i) ==> k in finished
    ensures Ordered(g, taken, finished + [i])
  {
    hide Edge;
    var f := finished + [i];
    forall a: nat, k: Id | a < |f| && Edge(g, taken, k, f[a])
      ensures k in f[..a] || Late(g, taken, f, a, k)
    {
      if a < |finished| {
        StillOrdered(g, taken, finished, [i], a, k);
      } else {
        assert f[..a] == finished;
      }
    }
  }

  lemma FinishChoice(g: Config, taken: Steps, finished: seq<Id>, choice: Id, skip: Option<Id>)
    requires WellFormed(g) && StepsOk(g, taken) && Ordered(g, taken, finished) && choice !in finished
    requires g.At(choice).Choice? && forall s :: s in g.At(choice).syms && skip != Some(s) ==> s in finished
    requires skip.Some? ==>
      && skip.value !in finished && g.At(skip.value).Symbol? && g.At(skip.value).choice == Some(choice)
      && (choice, skip.value) in taken && forall d :: d in Followers(g, skip.value) ==> d in finished
    ensures if skip.Some? then Ordered(g, taken, finished + [choice] + [skip.value])
            else Ordered(g, taken, finished + [choice])
  {
    if skip.None? {
      Append(g, taken, finished, choice);
    } else {
      var x := skip.value;
      var f := finished + [choice] + [x];
      forall d: Id | Dependent(g, d, x) ensures d in finished {
        IsFollower(g, d, x);
      }
      forall a: nat, k: Id | a < |f| && Edge(g, taken, k, f[a])
        ensures k in f[..a] || Late(g, taken, f, a, k)
      {
        if a < |finished| {
          StillOrdered(g, taken, finished, [choice] + [x], a, k);
          assert f == finished + ([choice] + [x]);
        } else if a == |finished| {
          assert f[..a] == finished;
        } else {
          assert f[..a] == finished + [choice];
        }
      }
    }
  }

  lemma StillOrdered(g: Config, taken: Steps, finished: seq<Id>, more: seq<Id>, a: nat, k: Id)
    requires Ordered(g, taken, finished) && a < |finished| && Edge(g, taken, k, finished[a])
    ensures var f := finished + more; k in f[..a] || Late(g, taken, f, a, k)
  {
    hide Edge;
    var f := finished + more;
    assert f[..a] == finished[..a];
    assert Late(g, taken, finished, a, k) ==> Late(g, taken, f, a, k);
  }

  // ---------------------------------------------------------------- what the order rules out

  // The first item of the order that is on a cycle depends on nothing on it.
  lemma {:induction false} NotOnCycle(g: Config, taken: Steps, finished: seq<Id>, loop: seq<Id>, a: nat)
    requires WellFormed(g) && StepsOk(g, taken) && Ordered(g, taken, finished) && Cycle(g, taken, loop)
    requires a <= |finished|
    ensures forall i :: i in finished[..a] ==> i !in loop
  {
    hide WellFormed, StepsOk, Ordered, Cycle;
    if a > 0 {
      NotOnCycle(g, taken, finished, loop, a - 1);
      NotNext(g, taken, finished, loop, a - 1);
      assert finished[..a] == finished[..a - 1] + [finished[a - 1]];
    }
  }

  lemma NotNext(g: Config, taken: Steps, finished: seq<Id>, loop: seq<Id>, a: nat)
    requires WellFormed(g) && StepsOk(g, taken) && Ordered(g, taken, finished) && Cycle(g, taken, loop)
    requires a < |finished| && forall i :: i in finished[..a] ==> i !in loop
    ensures finished[a] !in loop
  {
    hide WellFormed, StepsOk, Edge, Bound, Late, Ordered, Cycle;
    if finished[a] in loop {
      var p: nat :| p < |loop| && loop[p] == finished[a];
      var q := Before(|loop|, p);
      CycleAt(g, taken, loop, p);
      OrderedAt(g, taken, finished, a, loop[q]);
      LateTurnsBack(g, taken, finished, a, loop[q], loop[Before(|loop|, q)]);
    }
  }

  lemma CycleAt(g: Config, taken: Steps, loop: seq<Id>, p: nat)
    requires Cycle(g, taken, loop) && p < |loop|
    ensures var q := Before(|loop|, p); var o := Before(|loop|, q);
            && Edge(g, taken, loop[q], loop[p]) && Edge(g, taken, loop[o], loop[q])
            && !(loop[o] == loop[p] && Bound(g, loop[o], loop[q]))
  {
    hide Edge, Bound;
    var q := Before(|loop|, p);
    var o := Before(|loop|, q);
    assert Behind(|loop|, q) == p && Behind(|loop|, o) == q;
    assert loop[q] in loop && loop[o] in loop;
  }

  lemma OrderedAt(g: Config, taken: Steps, finished: seq<Id>, a: nat, k: Id)
    requires Ordered(g, taken, finished) && a < |finished| && Edge(g, taken, k, finished[a])
    ensures Distinct(finished) && (k in finished[..a] || Late(g, taken, finished, a, k))
  {}

  // What leads to the symbol by which the search came to the choice finished before it.
  lemma LateTurnsBack(g: Config, taken: Steps, finished: seq<Id>, a: nat, x: Id, k: Id)
    requires WellFormed(g) && StepsOk(g, taken) && Distinct(finished)
    requires a < |finished| && Late(g, taken, finished, a, x) && Edge(g, taken, k, x)
    ensures k in finished[..a] || (k == finished[a] && Bound(g, k, x))
  {
    ChoiceOf(g, x);
    assert finished[a] !in finished[..a];
  }

  // The order in which items are finished rules out cycles.
  lemma OrderedHasNoCycle(g: Config, taken: Steps, finished: seq<Id>, loop: seq<Id>)
    requires WellFormed(g) && Covers(g, taken, finished)
    ensures !Cycle(g, taken, loop)
  {
    hide Ordered;
    if Cycle(g, taken, loop) {
      assert finished[..|finished|] == finished;
      var s := SymbolOnCycle(g, taken, loop);
      NotOnCycle(g, taken, finished, loop, |finished|);
    }
  }

  lemma SymbolOnCycle(g: Config, taken: Steps, loop: seq<Id>) returns (s: Id)
    requires WellFormed(g) && StepsOk(g, taken) && Cycle(g, taken, loop)
    ensures s in loop && s < |g.items| && DefinedSymbol(g, s)
  {
    hide Bound;
    var n := |loop|;
    assert Edge(g, taken, loop[0], loop[Behind(n, 0)]);
    var a := if g.At(loop[0]).Symbol? then 0 else Behind(n, 0);
    s := loop[a];
    assert Edge(g, taken, s, loop[Behind(n, a)]);
  }

  // ---------------------------------------------------------------- what the search never misses

  // No item depends on a choice without being one of its symbols.
  ghost predicate OnlyOwnSymbols(g: Config) {
    forall k: Id, c: Id :: Dependent(g, k, c) && g.At(c).Choice? ==> k in g.At(c).syms
  }

  ghost predicate DependencyLoop(g: Config, loop: seq<Id>) {
    loop != [] && forall a :: 0 <= a < |loop| ==> Dependent(g, loop[a], loop[Behind(|loop|, a)])
  }

  // In such a configuration every loop of the dependencies that _build_dep records is found, whatever way
  // the search takes.
  lemma DependencyLoopIsFound(g: Config, taken: Steps, loop: seq<Id>)
    requires OnlyOwnSymbols(g) && DependencyLoop(g, loop)
    ensures Cycle(g, taken, loop)
  {
    hide Dependent;
    forall a | 0 <= a < |loop|
      ensures Edge(g, taken, loop[a], loop[Behind(|loop|, a)])
      ensures !(loop[Behind(|loop|, Behind(|loop|, a))] == loop[a] && Bound(g, loop[a], loop[Behind(|loop|, a)]))
    {
      var b := Behind(|loop|, a);
      assert Dependent(g, loop[a], loop[b]) && Dependent(g, loop[b], loop[Behind(|loop|, b)]);
    }
  }
}
