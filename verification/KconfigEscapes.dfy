/** Configurations that the dependency-loop check accepts although evaluation does not end, and one that
  * shows that it need not come to that.
  */
module KconfigEscapes {
  import opened Wrappers
  import opened KconfigModel
  import opened KconfigGetters
  import opened KconfigEvaluation
  import opened KconfigSearch
  import opened KconfigLoops

  // ---------------------------------------------------------------- MODULES and a tristate symbol

  // MODULES defaults to y if the tristate symbol T is set.
  function ModulesByTristate(prompted: bool, notation: Notation): Config {
    var yes, no := Leaf(Constant(Bool, 2, "y")), No();
    Config([Symbol(Bool, "MODULES", true, [], [Default(yes, Leaf(Ref(1)))], [], no, no, yes, None),
            Symbol(Tristate, "T", true, if prompted then [yes] else [], [], [], no, no, yes, None)], 0, notation)
  }

  lemma OneDependence(g: Config, prompted: bool, notation: Notation)
    requires g == ModulesByTristate(prompted, notation)
    ensures forall k: Id, j: Id :: Dependent(g, k, j) <==> k == 0 && j == 1
  {
    var d := g.At(0).defaults[0];
    assert d in g.At(0).defaults && InExpr(d.cond, 1);
  }

  lemma TwoItems(g: Config, prompted: bool, notation: Notation)
    requires g == ModulesByTristate(prompted, notation)
    ensures WellFormed(g) && ChoiceFree(g) && Covers(g, {}, [0, 1]) && Accepted(g, [0, 1])
    ensures Dependent(g, 0, 1) && !ModulesSafe(g)
  {
    hide Dependent;
    OneDependence(g, prompted, notation);
    assert [0, 1][..1] == [0];
    assert Covers(g, {}, [0, 1]);
    hide WellFormed, Covers;
    ModulesItself(g);
    ModulesDependency(g, 0, 1);
  }

  // The check accepts this configuration, although evaluating MODULES may come back to MODULES: once
  // the user sets T to m, each of the two values needs the other one first.
  lemma LoopThroughModulesEscapes(notation: Notation)
    ensures var g := ModulesByTristate(true, notation);
            var u := User(map[1 := T(1)], map[]);
            && WellFormed(g) && ChoiceFree(g) && NeverRaises(g)
            && !HasValue(g, u, TriVal(0)) && !EvaluationEnds(g, u)
  {
    var g := ModulesByTristate(true, notation);
    var u := User(map[1 := T(1)], map[]);
    TwoItems(g, true, notation);
    EachNeedsTheOther(g, notation);
    NeitherHasValue(g, u);
  }

  lemma NeitherHasValue(g: Config, u: User)
    requires WellFormed(g) && ChoiceFree(g) && Covers(g, {}, [0, 1]) && g.modules == 0 && g.At(1).kind == Tristate
    requires |g.items| == 2
    requires var c: Cache := map[Vis(0) := T(0), Vis(1) := T(2)];
             && Getter(g, u, map[], Vis(0)) == Got(T(0)) && Getter(g, u, map[], Vis(1)) == Got(T(2))
             && Getter(g, u, c, TriVal(0)) == Need(TriVal(1)) && Getter(g, u, c, TriVal(1)) == Need(TriVal(0))
    ensures NeverRaises(g) && !HasValue(g, u, TriVal(0)) && !EvaluationEnds(g, u)
  {
    hide Getter, WellFormed, Cycle, StepsOk, Covers, HasValue, All, Fresh;
    assert Accepted(g, [0, 1]);
    forall taken, loop | StepsOk(g, taken) ensures !Cycle(g, taken, loop) {
      NothingTaken(g, taken);
      OrderedHasNoCycle(g, taken, [0, 1], loop);
    }
    FoundIsFresh(g, u, map[], Vis(0));
    FoundIsFresh(g, u, map[], Vis(1));
    assert AsksForItself(g, u, map[Vis(0) := T(0), Vis(1) := T(2)], [TriVal(0), TriVal(1)]);
    EvaluationEndsIff(g, u, [0, 1]);
  }

  lemma EachNeedsTheOther(g: Config, notation: Notation)
    requires g == ModulesByTristate(true, notation)
    ensures var u := User(map[1 := T(1)], map[]);
            var c: Cache := map[Vis(0) := T(0), Vis(1) := T(2)];
            && Getter(g, u, map[], Vis(0)) == Got(T(0)) && Getter(g, u, map[], Vis(1)) == Got(T(2))
            && Getter(g, u, c, TriVal(0)) == Need(TriVal(1)) && Getter(g, u, c, TriVal(1)) == Need(TriVal(0))
  {
    var u := User(map[1 := T(1)], map[]);
    var c: Cache := map[Vis(0) := T(0), Vis(1) := T(2)];
    assert Visibility(g, u, map[], 0) == Got(0);
    var yes := Leaf(Constant(Bool, 2, "y"));
    assert g.At(1).prompts == [yes] && [yes][1..] == [];
    assert ExprValue(g, u, map[], yes) == Got(2);
    assert PromptVis(g, u, map[], [yes], 0) == PromptVis(g, u, map[], [], 2) == Got(2);
    assert Visibility(g, u, map[], 1) == Got(2);
    assert OwnTri(g, u, c, 0, 0) == Need(TriVal(1));
    assert OwnTri(g, u, c, 1, 2) == Got(1);
    assert SymbolIsBool(g, u, c, 1) == Need(TriVal(0));
  }

  // That MODULES depends on a tristate symbol does no harm as long as the type of that symbol is not
  // asked for: without a prompt T is n, whatever the user sets.
  lemma UnsafeMayEnd(notation: Notation, u: User)
    ensures var g := ModulesByTristate(false, notation);
            WellFormed(g) && ChoiceFree(g) && !ModulesSafe(g) && EvaluationEnds(g, u)
  {
    var g := ModulesByTristate(false, notation);
    TwoItems(g, false, notation);
    NoneNeeded(g, u, notation);
    BothHaveValues(g, u);
  }

  lemma BothHaveValues(g: Config, u: User)
    requires WellFormed(g) && ChoiceFree(g) && Accepted(g, [0, 1]) && g.modules == 0 && |g.items| == 2
    requires Getter(g, u, map[], Vis(0)) == Got(T(0)) && Getter(g, u, map[], Vis(1)) == Got(T(0))
    requires Getter(g, u, map[Vis(1) := T(0)], TriVal(1)) == Got(T(0))
    requires Getter(g, u, map[Vis(0) := T(0), TriVal(1) := T(0)], TriVal(0)) == Got(T(0))
    ensures EvaluationEnds(g, u)
  {
    hide Getter, WellFormed, Accepted, HasValue, All, Fresh;
    FoundIsFresh(g, u, map[], Vis(0));
    FoundIsFresh(g, u, map[], Vis(1));
    FoundIsFresh(g, u, map[Vis(1) := T(0)], TriVal(1));
    FoundIsFresh(g, u, map[Vis(0) := T(0), TriVal(1) := T(0)], TriVal(0));
    EvaluationEndsIff(g, u, [0, 1]);
  }

  lemma NoneNeeded(g: Config, u: User, notation: Notation)
    requires g == ModulesByTristate(false, notation)
    ensures Getter(g, u, map[], Vis(0)) == Got(T(0)) && Getter(g, u, map[], Vis(1)) == Got(T(0))
    ensures Getter(g, u, map[Vis(1) := T(0)], TriVal(1)) == Got(T(0))
    ensures Getter(g, u, map[Vis(0) := T(0), TriVal(1) := T(0)], TriVal(0)) == Got(T(0))
  {
    var c: Cache := map[Vis(0) := T(0), TriVal(1) := T(0)];
    assert ExprValue(g, u, c, Leaf(Ref(1))) == Got(0);
    assert g.At(0).defaults[1..] == [];
    assert DefaultTri(g, u, c, g.At(0).defaults) == Got(0);
    assert OwnTri(g, u, c, 0, 0) == Got(0);
    assert OwnTri(g, u, map[Vis(1) := T(0)], 1, 0) == Got(0);
  }

  // ---------------------------------------------------------------- choices

  // A choice with a menu in it: X is a symbol of the choice and K one in the menu, so that it depends on
  // the choice without being in it.  The prompt of the choice depends on K.
  function ChoiceByMenuSymbol(notation: Notation): Config {
    var yes, no := Leaf(Constant(Bool, 2, "y")), No();
    var inChoice := Leaf(Ref(1));
    Config([Symbol(Bool, "MODULES", true, [], [], [], no, no, yes, None),
            Choice(Bool, [Leaf(Ref(3))], [], [2], false),
            Symbol(Bool, "X", true, [inChoice], [], [], no, no, inChoice, Some(1)),
            Symbol(Bool, "K", true, [inChoice], [], [], no, no, inChoice, None)], 0, notation)
  }

  lemma ThreeDependences(g: Config, notation: Notation)
    requires g == ChoiceByMenuSymbol(notation)
    ensures forall k: Id, j: Id :: Dependent(g, k, j) <==>
              (k == 1 && j == 3) || (k == 2 && j == 1) || (k == 3 && j == 1)
    ensures WellFormed(g)
  {
    var inChoice := Leaf(Ref(1));
    assert inChoice in g.At(2).prompts && inChoice in g.At(3).prompts && Leaf(Ref(3)) in g.At(1).prompts;
  }

  // From a choice the search goes to its symbols only, so whatever way it takes it does not see that K
  // depends on the choice.  But the choice and K have no visibility: each needs the other one first.
  lemma LoopThroughChoiceEscapes(notation: Notation, u: User)
    requires UserOk(ChoiceByMenuSymbol(notation), u)
    ensures var g := ChoiceByMenuSymbol(notation);
            && WellFormed(g) && NeverRaises(g)
            && Dependent(g, 1, 3) && Dependent(g, 3, 1)
            && !HasValue(g, u, Vis(1)) && !HasValue(g, u, Vis(3)) && !EvaluationEnds(g, u)
  {
    var g := ChoiceByMenuSymbol(notation);
    ThreeDependences(g, notation);
    forall taken, loop | StepsOk(g, taken) ensures !Cycle(g, taken, loop) {
      NoWayRound(g, notation, taken, loop);
    }
    MenuSymbolNeeds(g, u, notation);
    CircleHasNoValue(g, u, map[], [Vis(1), TriVal(3), Vis(3)]);
    CircleHasNoValue(g, u, map[], [Vis(3), Vis(1), TriVal(3)]);
  }

  lemma NoWayRound(g: Config, notation: Notation, taken: Steps, loop: seq<Id>)
    requires g == ChoiceByMenuSymbol(notation) && WellFormed(g) && StepsOk(g, taken)
    ensures !Cycle(g, taken, loop)
  {
    hide Dependent, WellFormed, Covers;
    var all: Steps := {(1, 2)};
    FourInOrder(g, notation);
    assert taken <= all;
    OrderedHasNoCycle(g, all, [0, 1, 2, 3], loop);
  }

  lemma FourInOrder(g: Config, notation: Notation)
    requires g == ChoiceByMenuSymbol(notation)
    ensures Covers(g, {(1, 2)}, [0, 1, 2, 3])
  {
    ThreeDependences(g, notation);
    hide Dependent;
    var taken: Steps, finished: seq<Id> := {(1, 2)}, [0, 1, 2, 3];
    forall k: Id, j: Id
      ensures Edge(g, taken, k, j) <==> (k == 1 && j == 3) || (k == 2 && j == 1) || (k == 1 && j == 2)
    {}
    hide Edge;
    assert finished[..3] == [0, 1, 2] && finished[..2] == [0, 1];
    assert Late(g, taken, finished, 1, 2);
  }

  lemma MenuSymbolNeeds(g: Config, u: User, notation: Notation)
    requires g == ChoiceByMenuSymbol(notation)
    ensures Getter(g, u, map[], Vis(1)) == Need(TriVal(3)) && Getter(g, u, map[], TriVal(3)) == Need(Vis(3))
    ensures Getter(g, u, map[], Vis(3)) == Need(Vis(1))
  {
    assert ExprValue(g, u, map[], Leaf(Ref(3))) == Need(TriVal(3));
    assert ExprValue(g, u, map[], Leaf(Ref(1))) == Need(Vis(1));
  }

  // A choice whose symbols are Y, Z and X and whose default is Z; Z depends on E, which defaults to y if
  // X is set.
  function ChoiceByDefault(notation: Notation): Config {
    var yes, no := Leaf(Constant(Bool, 2, "y")), No();
    var inChoice := Leaf(Ref(1));
    var both := And(Leaf(Ref(5)), inChoice);
    Config([Symbol(Bool, "MODULES", true, [], [], [], no, no, yes, None),
            Choice(Bool, [yes], [ChoiceDefault(3, yes)], [2, 3, 4], false),
            Symbol(Bool, "Y", true, [inChoice], [], [], no, no, inChoice, Some(1)),
            Symbol(Bool, "Z", true, [both], [], [], no, no, both, Some(1)),
            Symbol(Bool, "X", true, [inChoice], [], [], no, no, inChoice, Some(1)),
            Symbol(Bool, "E", true, [], [Default(yes, Leaf(Ref(4)))], [], no, no, yes, None)], 0, notation)
  }

  lemma FiveDependences(g: Config, notation: Notation)
    requires g == ChoiceByDefault(notation)
    ensures forall k: Id, j: Id :: Dependent(g, k, j) <==>
              (j == 1 && 2 <= k <= 4) || (k == 3 && j == 5) || (k == 5 && j == 4)
    ensures WellFormed(g)
  {
    forall k: Id, j: Id
      ensures Dependent(g, k, j) <==> (j == 1 && 2 <= k <= 4) || (k == 3 && j == 5) || (k == 5 && j == 4)
    {
      DependencesOf(g, notation, k, j);
    }
    hide Dependent;
  }

  lemma DependencesOf(g: Config, notation: Notation, k: Id, j: Id)
    requires g == ChoiceByDefault(notation)
    ensures Dependent(g, k, j) <==> (j == 1 && 2 <= k <= 4) || (k == 3 && j == 5) || (k == 5 && j == 4)
  {
    var inChoice := Leaf(Ref(1));
    if k == 2 || k == 4 {
      assert inChoice in g.At(k).prompts;
    } else if k == 3 {
      var both := And(Leaf(Ref(5)), inChoice);
      assert both in g.At(3).prompts;
      assert InExpr(both, j) <==> InExpr(Leaf(Ref(5)), j) || InExpr(inChoice, j);
    } else if k == 5 {
      assert g.At(5).defaults[0] in g.At(5).defaults;
    }
  }

  // Z depends on E, E on X, X on the choice, and the selection of the choice on Z.  The check finds this
  // loop if the search comes to the choice from Z, and not if it comes from Y, as it does when Y is
  // defined first.  Evaluation does not end.
  lemma SearchOrderDecides(notation: Notation)
    ensures var g := ChoiceByDefault(notation);
            var u := User(map[], map[]);
            && WellFormed(g)
            && Cycle(g, {(1, 3)}, [3, 5, 4, 1])
            && (forall loop :: !Cycle(g, {(1, 2)}, loop))
            && !HasValue(g, u, Sel(1)) && !EvaluationEnds(g, u)
  {
    var g := ChoiceByDefault(notation);
    var u := User(map[], map[]);
    FiveDependences(g, notation);
    FoundFromZ(g, notation);
    forall loop ensures !Cycle(g, {(1, 2)}, loop) {
      MissedFromY(g, notation);
      OrderedHasNoCycle(g, {(1, 2)}, [0, 3, 5, 4, 1, 2], loop);
    }
    DefaultVisible(g, u, notation);
    DefaultNeeds(g, u, map[Vis(1) := T(2), Vis(5) := T(0), Vis(4) := T(2)], notation);
    SelectionHasNoValue(g, u);
  }

  lemma FoundFromZ(g: Config, notation: Notation)
    requires g == ChoiceByDefault(notation)
    ensures Cycle(g, {(1, 3)}, [3, 5, 4, 1])
  {
    FiveDependences(g, notation);
    hide Dependent, WellFormed;
  }

  predicate FromY(k: Id, j: Id) {
    (j == 1 && 2 <= k <= 4) || (k == 3 && j == 5) || (k == 5 && j == 4) || (k == 1 && j == 2)
  }

  lemma StepsFromY(g: Config, notation: Notation)
    requires g == ChoiceByDefault(notation)
    ensures forall k: Id, j: Id :: Edge(g, {(1, 2)}, k, j) <==> FromY(k, j)
    ensures forall d: Id :: !Dependent(g, d, 2)
    ensures StepsOk(g, {(1, 2)}) && forall i: Id :: i < |g.items| && i != 1 ==> i in [0, 3, 5, 4, 1, 2]
  {
    FiveDependences(g, notation);
    hide Dependent, WellFormed;
  }

  lemma MissedFromY(g: Config, notation: Notation)
    requires g == ChoiceByDefault(notation)
    ensures Covers(g, {(1, 2)}, [0, 3, 5, 4, 1, 2])
  {
    hide Dependent, Edge, StepsOk;
    StepsFromY(g, notation);
    var finished: seq<Id> := [0, 3, 5, 4, 1, 2];
    forall a: nat, k: Id | a < 6 && FromY(k, finished[a])
      ensures k in finished[..a] || Late(g, {(1, 2)}, finished, a, k)
    {
      assert finished[..4] == [0, 3, 5, 4];
      assert finished[..2] == [0, 3] && finished[..3] == [0, 3, 5] && finished[..5] == [0, 3, 5, 4, 1];
    }
  }

  lemma DefaultVisible(g: Config, u: User, notation: Notation)
    requires g == ChoiceByDefault(notation)
    ensures Getter(g, u, map[], Vis(1)) == Got(T(2)) && Getter(g, u, map[], Vis(5)) == Got(T(0))
    ensures Getter(g, u, map[Vis(1) := T(2)], Vis(4)) == Got(T(2))
  {
    OnePrompt(g, u, map[], Leaf(Constant(Bool, 2, "y")));
    OnePrompt(g, u, map[Vis(1) := T(2)], Leaf(Ref(1)));
  }

  lemma DefaultNeeds(g: Config, u: User, c: Cache, notation: Notation)
    requires g == ChoiceByDefault(notation) && u == User(map[], map[])
    requires c == map[Vis(1) := T(2), Vis(5) := T(0), Vis(4) := T(2)]
    ensures Getter(g, u, c, Sel(1)) == Need(Vis(3)) && Getter(g, u, c, Vis(3)) == Need(TriVal(5))
    ensures Getter(g, u, c, TriVal(5)) == Need(TriVal(4)) && Getter(g, u, c, TriVal(4)) == Need(Sel(1))
  {
    var yes, both := Leaf(Constant(Bool, 2, "y")), And(Leaf(Ref(5)), Leaf(Ref(1)));
    OnePrompt(g, u, c, both);
    assert ExprValue(g, u, c, Leaf(Ref(5))) == Need(TriVal(5));
    assert ExprValue(g, u, c, both) == Need(TriVal(5));
    assert ExprValue(g, u, c, yes) == Got(2);
    assert DefaultPick(g, u, c, g.At(1).picks) == Need(Vis(3));
    assert ExprValue(g, u, c, Leaf(Ref(4))) == Need(TriVal(4));
    assert DefaultTri(g, u, c, g.At(5).defaults) == Need(TriVal(4));
  }

  lemma OnePrompt(g: Config, u: User, c: Cache, cond: Expr)
    ensures PromptVis(g, u, c, [cond], 0) == ExprValue(g, u, c, cond)
  {
    assert [cond][1..] == [];
    var v := ExprValue(g, u, c, cond);
    if v.Got? {
      assert PromptVis(g, u, c, [], v.value) == Got(v.value);
    }
  }

  lemma SelectionHasNoValue(g: Config, u: User)
    requires WellFormed(g) && UserOk(g, u) && |g.items| == 6
    requires Getter(g, u, map[], Vis(1)) == Got(T(2)) && Getter(g, u, map[], Vis(5)) == Got(T(0))
    requires Getter(g, u, map[Vis(1) := T(2)], Vis(4)) == Got(T(2))
    requires var c: Cache := map[Vis(1) := T(2), Vis(5) := T(0), Vis(4) := T(2)];
             && Getter(g, u, c, Sel(1)) == Need(Vis(3)) && Getter(g, u, c, Vis(3)) == Need(TriVal(5))
             && Getter(g, u, c, TriVal(5)) == Need(TriVal(4)) && Getter(g, u, c, TriVal(4)) == Need(Sel(1))
    ensures !HasValue(g, u, Sel(1)) && !EvaluationEnds(g, u)
  {
    hide Getter, WellFormed, UserOk, HasValue, All, Fresh;
    FoundIsFresh(g, u, map[], Vis(1));
    FoundIsFresh(g, u, map[], Vis(5));
    FoundIsFresh(g, u, map[Vis(1) := T(2)], Vis(4));
    var c: Cache := map[Vis(1) := T(2), Vis(5) := T(0), Vis(4) := T(2)];
    CircleHasNoValue(g, u, c, [Sel(1), Vis(3), TriVal(5), TriVal(4)]);
  }
}
