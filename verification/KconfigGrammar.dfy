/** The grammar of Kconfig expressions, and what the parser has to do with it. */
module KconfigGrammar {
  import opened Wrappers
  import opened KconfigModel
  import opened KconfigGetters
  import opened KconfigMeaning
  import opened KconfigExpr

  // The tokens from i to j spell e: as operands joined by ||, each of which is operands joined by &&,
  // each of which is a symbol, a comparison, a negated operand or an expression in parentheses.
  ghost predicate IsExpr(ts: seq<Token>, i: nat, j: nat, e: Expr)
    requires i <= j <= |ts|
    decreases j - i, 2
  {
    || IsConjunction(ts, i, j, e)
    || (e.Or? && exists k: nat :: i <= k < j && ts[k] == OrT && IsConjunction(ts, i, k, e.left)
                                  && IsExpr(ts, k + 1, j, e.right))
  }

  ghost predicate IsConjunction(ts: seq<Token>, i: nat, j: nat, e: Expr)
    requires i <= j <= |ts|
    decreases j - i, 1
  {
    || IsOperand(ts, i, j, e)
    || (e.And? && exists k: nat :: i <= k < j && ts[k] == AndT && IsOperand(ts, i, k, e.left)
                                   && IsConjunction(ts, k + 1, j, e.right))
  }

  ghost predicate IsOperand(ts: seq<Token>, i: nat, j: nat, e: Expr)
    requires i <= j <= |ts|
    decreases j - i, 0
  {
    || (e.Leaf? && j == i + 1 && ts[i] == Sym(e.atom))
    || (e.Relation? && j == i + 3 && ts[i] == Sym(e.first) && ts[i + 1] == Rel(e.comparison)
        && ts[i + 2] == Sym(e.second))
    || (e.Not? && i < j && ts[i] == NotT && IsOperand(ts, i + 1, j, e.operand))
    || (i + 2 <= j && ts[i] == Open && ts[j - 1] == Close && IsExpr(ts, i + 1, j - 1, e))
  }

  // ---------------------------------------------------------------- what is read is spelled

  lemma {:induction false} ExprIsSpelled(w: Rewriting, ts: seq<Token>, i: nat)
    requires !w.on && Line(ts) && i < |ts|
    ensures ParseExpr(w, ts, i).Some? ==> IsExpr(ts, i, ParseExpr(w, ts, i).value.1, ParseExpr(w, ts, i).value.0)
    decreases |ts| - i, 2
  {
    hide ParseAnd, IsConjunction;
    ConjunctionIsSpelled(w, ts, i);
    var a := ParseAnd(w, ts, i);
    if a.Some? && ts[a.value.1] == OrT {
      ExprIsSpelled(w, ts, a.value.1 + 1);
    }
  }

  lemma {:induction false} ConjunctionIsSpelled(w: Rewriting, ts: seq<Token>, i: nat)
    requires !w.on && Line(ts) && i < |ts|
    ensures ParseAnd(w, ts, i).Some? ==>
              IsConjunction(ts, i, ParseAnd(w, ts, i).value.1, ParseAnd(w, ts, i).value.0)
    decreases |ts| - i, 1
  {
    hide ParseFactor, IsOperand;
    OperandIsSpelled(w, ts, i);
    var f := ParseFactor(w, ts, i);
    if f.Some? && ts[f.value.1] == AndT {
      ConjunctionIsSpelled(w, ts, f.value.1 + 1);
    }
  }

  lemma {:induction false} OperandIsSpelled(w: Rewriting, ts: seq<Token>, i: nat)
    requires !w.on && Line(ts) && i < |ts|
    ensures ParseFactor(w, ts, i).Some? ==>
              IsOperand(ts, i, ParseFactor(w, ts, i).value.1, ParseFactor(w, ts, i).value.0)
    decreases |ts| - i, 0
  {
    hide ParseExpr, IsExpr;
    if ts[i] == NotT {
      OperandIsSpelled(w, ts, i + 1);
    } else if ts[i] == Open {
      ExprIsSpelled(w, ts, i + 1);
    }
  }

  // ---------------------------------------------------------------- what is spelled is read

  lemma {:induction false} SpelledExprIsRead(w: Rewriting, ts: seq<Token>, i: nat, j: nat, e: Expr)
    requires !w.on && Line(ts) && i < j < |ts| && IsExpr(ts, i, j, e)
    requires !ts[j].Rel? && ts[j] != AndT && ts[j] != OrT
    ensures ParseExpr(w, ts, i) == Some((e, j))
    decreases j - i, 2
  {
    hide ParseAnd, IsConjunction;
    if IsConjunction(ts, i, j, e) {
      SpelledConjunctionIsRead(w, ts, i, j, e);
    } else {
      var k: nat :| i <= k < j && ts[k] == OrT && IsConjunction(ts, i, k, e.left) && IsExpr(ts, k + 1, j, e.right);
      NotEmpty(ts, i, e.left);
      NotEmpty(ts, j, e.right);
      SpelledConjunctionIsRead(w, ts, i, k, e.left);
      SpelledExprIsRead(w, ts, k + 1, j, e.right);
    }
  }

  lemma NotEmpty(ts: seq<Token>, i: nat, e: Expr)
    requires i <= |ts|
    ensures !IsExpr(ts, i, i, e) && !IsConjunction(ts, i, i, e)
  {
    assert !IsOperand(ts, i, i, e);
    assert !IsConjunction(ts, i, i, e);
  }

  lemma {:induction false} SpelledConjunctionIsRead(w: Rewriting, ts: seq<Token>, i: nat, j: nat, e: Expr)
    requires !w.on && Line(ts) && i < j < |ts| && IsConjunction(ts, i, j, e)
    requires !ts[j].Rel? && ts[j] != AndT
    ensures ParseAnd(w, ts, i) == Some((e, j))
    decreases j - i, 1
  {
    hide ParseFactor, IsOperand;
    if IsOperand(ts, i, j, e) {
      SpelledOperandIsRead(w, ts, i, j, e);
    } else {
      var k: nat :| i <= k < j && ts[k] == AndT && IsOperand(ts, i, k, e.left) && IsConjunction(ts, k + 1, j, e.right);
      NotEmpty(ts, i, e.left);
      NotEmpty(ts, j, e.right);
      SpelledOperandIsRead(w, ts, i, k, e.left);
      SpelledConjunctionIsRead(w, ts, k + 1, j, e.right);
    }
  }

  lemma {:induction false} SpelledOperandIsRead(w: Rewriting, ts: seq<Token>, i: nat, j: nat, e: Expr)
    requires !w.on && Line(ts) && i < j < |ts| && IsOperand(ts, i, j, e) && !ts[j].Rel?
    ensures ParseFactor(w, ts, i) == Some((e, j))
    decreases j - i, 0
  {
    hide ParseExpr, IsExpr;
    if ts[i] == NotT {
      SpelledOperandIsRead(w, ts, i + 1, j, e.operand);
    } else if ts[i] == Open {
      NotEmpty(ts, i + 1, e);
      SpelledExprIsRead(w, ts, i + 1, j - 1, e);
    }
  }

  // Main theorem: a line of tokens is read whole as e exactly if it spells e.  So a line spells at most
  // one expression, && binds tighter than ||, and a line that spells none is an error or not read whole.
  lemma ReadExactlyIfSpelled(w: Rewriting, ts: seq<Token>, e: Expr)
    requires !w.on && Line(ts)
    ensures ParseExpr(w, ts, 0) == Some((e, |ts| - 1)) <==> IsExpr(ts, 0, |ts| - 1, e)
  {
    hide ParseExpr, IsExpr;
    ExprIsSpelled(w, ts, 0);
    if IsExpr(ts, 0, |ts| - 1, e) {
      NotEmpty(ts, 0, e);
      SpelledExprIsRead(w, ts, 0, |ts| - 1, e);
    }
  }

  // ---------------------------------------------------------------- m in conditions

  // Every m that stands for itself counts as n.
  function WithoutModules(w: Rewriting, e: Expr): Expr {
    match e
    case Leaf(a) => if a == w.m then Leaf(Constant(Tristate, 0, "n")) else e
    case And(l, r) => And(WithoutModules(w, l), WithoutModules(w, r))
    case Or(l, r) => Or(WithoutModules(w, l), WithoutModules(w, r))
    case Not(o) => Not(WithoutModules(w, o))
    case Relation(_, _, _) => e
  }

  // Rewriting a condition makes no difference to its value while MODULES is not n; while it is n, every
  // lone m counts as n.
  lemma {:induction false} RewritingMatters(g: Config, u: User, c: Cache, w: Rewriting, e: Expr, modules: Tri)
    requires w.on && w.m.Constant? && w.m.tri == 1 && HasTri(g, u, c, w.modules, modules)
    ensures ExprValue(g, u, c, Rewritten(w, e)) == ExprValue(g, u, c, if modules == 0 then WithoutModules(w, e) else e)
  {
    hide HasTri, AtomTri, Compare, Holds;
    match e
    case Leaf(a) => LeafIs(g, u, c, w.modules, modules);
      LoneM(g, u, c, w.m);
    case And(l, r) =>
      RewritingMatters(g, u, c, w, l, modules);
      RewritingMatters(g, u, c, w, r, modules);
    case Or(l, r) =>
      RewritingMatters(g, u, c, w, l, modules);
      RewritingMatters(g, u, c, w, r, modules);
    case Not(o) => RewritingMatters(g, u, c, w, o, modules);
    case Relation(_, _, _) =>
  }

  lemma LoneM(g: Config, u: User, c: Cache, m: Atom)
    requires m.Constant? && m.tri == 1
    ensures ExprValue(g, u, c, Leaf(m)) == Got(1)
    ensures ExprValue(g, u, c, Leaf(Constant(Tristate, 0, "n"))) == Got(0)
  {}
}
