/** The comment in _rec_invalidate of scripts/kconfiglib.py, on which the early end of the invalidation
  * rests: when it is true, when it is not, and that its truth does not matter.
  */
module KconfigComment {
  import opened Wrappers
  import opened KconfigModel
  import opened KconfigGetters
  import opened KconfigEvaluation

  // The comment in _rec_invalidate: if item j has no cached visibility, the item k that depends on it
  // has no cached values, other than constant ones.
  ghost predicate CommentHolds(g: Config, c: Cache, k: Id, j: Id) {
    Vis(j) !in c ==> forall n :: n in c && n.id == k ==> Fixed(g, n)
  }

  // It holds of k and j, whatever has been read and set before, exactly if evaluating the visibility of
  // k computes that of j.  Where it does not, reading the visibility of k on an empty cache shows it.
  lemma CommentHoldsIff(g: Config, u: User, k: Id, j: Id)
    requires WellFormed(g) && UserOk(g, u) && DependsOn(g, k, j)
    ensures (forall c :: Coherent(g, u, c) && Right(g, u, c) ==> CommentHolds(g, c, k, j))
            <==> (HasValue(g, u, Vis(k)) ==> Involves(g, u, Vis(k), Vis(j)))
  {
    hide WellFormed, UserOk, Coherent, Right, Involves, HasValue, Fresh;
    DependentIsDefined(g, k, j);
    forall c | Coherent(g, u, c) && Right(g, u, c)
      ensures CommentHolds(g, c, k, j) <==> (Vis(k) in c ==> Vis(j) in c)
      ensures Vis(k) in c ==> HasValue(g, u, Vis(k))
    {
      forall n: Node | n in c && n.id == k && !Fixed(g, n) ensures Vis(k) in c {
        VisibilityIsFlag(g, u, c, n);
      }
      if Vis(k) in c {
        CachedIsRight(g, u, c, Vis(k));
      }
    }
    if HasValue(g, u, Vis(k)) {
      CachedTogetherIff(g, u, Vis(k), Vis(j));
    }
  }

  // ---------------------------------------------------------------- where it holds for all users

  // Evaluating e reads item j, and what it reads of j is not a constant, whatever the values are.
  predicate AlwaysReads(g: Config, e: Expr, j: Id) {
    match e
    case Leaf(a) => a == Ref(j) && (g.At(j).Choice? || g.At(j).kind == Bool || g.At(j).kind == Tristate)
    case And(l, _) => AlwaysReads(g, l, j)
    case Or(l, _) => AlwaysReads(g, l, j)
    case Not(o) => AlwaysReads(g, o, j)
    case Relation(_, a, b) => (a == Ref(j) || b == Ref(j)) && (g.At(j).Choice? || g.At(j).kind != Unknown)
  }

  lemma AtomIsRead(g: Config, u: User, c: Cache, j: Id)
    requires WellFormed(g) && Coherent(g, u, c)
    ensures g.At(j).Choice? && (AtomTri(g, u, c, Ref(j)).Got? || AtomText(g, u, c, Ref(j)).Got?) ==> Vis(j) in c
    ensures g.At(j).kind == Bool || g.At(j).kind == Tristate ==>
              (AtomTri(g, u, c, Ref(j)).Got? ==> Vis(j) in c)
    ensures g.At(j).Symbol? && g.At(j).kind != Unknown ==> (AtomText(g, u, c, Ref(j)).Got? ==> Vis(j) in c)
  {
    hide Coherent, ChoiceIsBool;
    if g.At(j).Symbol? && TriVal(j) in c && (g.At(j).kind == Bool || g.At(j).kind == Tristate) {
      VisibilityIsFlag(g, u, c, TriVal(j));
    }
    if g.At(j).Symbol? && StrVal(j) in c && g.At(j).kind != Unknown {
      VisibilityIsFlag(g, u, c, StrVal(j));
    }
  }

  lemma {:induction false} ExprReads(g: Config, u: User, c: Cache, e: Expr, j: Id)
    requires WellFormed(g) && Coherent(g, u, c) && AlwaysReads(g, e, j) && ExprValue(g, u, c, e).Got?
    ensures Vis(j) in c
  {
    hide WellFormed, Coherent, AtomTri, AtomText, Holds, Min, Max;
    match e
    case Leaf(a) => AtomIsRead(g, u, c, j);
    case And(l, _) => ExprReads(g, u, c, l, j);
    case Or(l, _) => ExprReads(g, u, c, l, j);
    case Not(o) => ExprReads(g, u, c, o, j);
    case Relation(_, a, b) => AtomIsRead(g, u, c, j);
  }

  lemma {:induction false} PromptsAreEvaluated(g: Config, u: User, c: Cache, prompts: seq<Expr>, vis: Tri, e: Expr)
    requires e in prompts && PromptVis(g, u, c, prompts, vis).Got?
    ensures ExprValue(g, u, c, e).Got?
    decreases |prompts|
  {
    hide ExprValue;
    if prompts[0] != e {
      var v := ExprValue(g, u, c, prompts[0]);
      PromptsAreEvaluated(g, u, c, prompts[1..], Max(vis, v.value), e);
    }
  }

  // If a prompt condition of k always reads j, the comment holds of k and j for every user and in every
  // coherent cache.
  lemma CommentHoldsIfAlwaysRead(g: Config, u: User, c: Cache, k: Id, j: Id, e: Expr)
    requires WellFormed(g) && Coherent(g, u, c)
    requires e in g.At(k).prompts && AlwaysReads(g, e, j)
    ensures CommentHolds(g, c, k, j)
  {
    hide WellFormed, Coherent, AlwaysReads, ExprValue, PromptVis, VisInChoice, Fixed;
    forall n: Node | n in c && n.id == k && !Fixed(g, n) ensures Vis(j) in c {
      VisibilityIsFlag(g, u, c, n);
      CachedIsGot(g, u, c, Vis(k));
      PromptsAreEvaluated(g, u, c, g.At(k).prompts, 0, e);
      ExprReads(g, u, c, e, j);
    }
  }

  // ---------------------------------------------------------------- where it does not hold

  // Symbol B is visible if `n && A`.
  function ShortCircuit(notation: Notation): Config {
    var yes, no := Leaf(Constant(Bool, 2, "y")), No();
    Config([Symbol(Bool, "A", true, [yes], [], [], no, no, yes, None),
            Symbol(Bool, "B", true, [And(no, Leaf(Ref(0)))], [], [], no, no, yes, None),
            Symbol(Bool, "MODULES", true, [], [], [], no, no, yes, None)], 2, notation)
  }

  // Reading the visibility of B in a fresh configuration caches that and nothing else, although B
  // depends on A: A's value is not needed.
  lemma CommentMayFail(notation: Notation)
    ensures var g := ShortCircuit(notation);
            var u, c: Cache := User(map[], map[]), map[Vis(1) := T(0)];
            && WellFormed(g) && (exists rank :: Ranked(g, rank)) && DependsOn(g, 1, 0)
            && Getter(g, u, map[], Vis(1)) == Got(T(0)) && Coherent(g, u, c) && Right(g, u, c)
            && !CommentHolds(g, c, 1, 0)
  {
    var g := ShortCircuit(notation);
    var u, c: Cache := User(map[], map[]), map[Vis(1) := T(0)];
    ShortCircuitOk(g, notation);
    ShortCircuitValue(g, u, map[], notation);
    ShortCircuitValue(g, u, c, notation);
    OneIsCached(g, u);
  }

  lemma OneIsCached(g: Config, u: User)
    requires WellFormed(g) && UserOk(g, u) && 1 < |g.items| && Defined(g, 1)
    requires Getter(g, u, map[], Vis(1)) == Got(T(0)) == Getter(g, u, map[Vis(1) := T(0)], Vis(1))
    ensures var c: Cache := map[Vis(1) := T(0)];
            Coherent(g, u, c) && Right(g, u, c) && !CommentHolds(g, c, 1, 0)
  {
    hide Getter, WellFormed, Fresh, HasValue, All;
    var c: Cache := map[Vis(1) := T(0)];
    assert Vis(1) in c && !Fixed(g, Vis(1));
    FoundIsFresh(g, u, map[], Vis(1));
  }

  lemma OnlyDependence(g: Config, notation: Notation)
    requires g == ShortCircuit(notation)
    ensures forall k: Id, j: Id :: Dependent(g, k, j) <==> k == 1 && j == 0
  {
    var cond := g.At(1).prompts[0];
    assert cond in g.At(1).prompts;
    forall j: Id ensures InExpr(cond, j) <==> j == 0 {
      assert InExpr(cond, j) == (InExpr(No(), j) || InExpr(Leaf(Ref(0)), j));
    }
    forall k: Id, j: Id | Dependent(g, k, j) ensures k == 1 && j == 0 {
      assert k < 3;
    }
    assert Dependent(g, 1, 0);
  }

  lemma ShortCircuitOk(g: Config, notation: Notation)
    requires g == ShortCircuit(notation)
    ensures WellFormed(g) && DependsOn(g, 1, 0) && exists rank :: Ranked(g, rank)
  {
    hide Dependent;
    OnlyDependence(g, notation);
    var rank: Node -> nat := n => Level(n) + if n.id == 1 then 4 else 0;
    assert Ranked(g, rank);
  }

  lemma ShortCircuitValue(g: Config, u: User, c: Cache, notation: Notation)
    requires g == ShortCircuit(notation)
    ensures Getter(g, u, c, Vis(1)) == Got(T(0))
  {
    var cond := And(No(), Leaf(Ref(0)));
    assert ExprValue(g, u, c, No()) == Got(0);
    assert ExprValue(g, u, c, cond) == Got(0);
    assert [cond][1..] == [];
    assert PromptVis(g, u, c, [cond], 0) == Got(0);
    assert Visibility(g, u, c, 1) == Got(0);
  }
}
