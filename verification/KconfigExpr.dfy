/** Expressions of scripts/kconfiglib.py as tokens: expr_str writes them, _parse_expr reads them. */
module KconfigExpr {
  import opened Wrappers
  import opened KconfigModel
  import opened KconfigGetters

  // The tokens of an expression; End is the None after the last token of a line.
  datatype Token = Sym(atom: Atom) | AndT | OrT | NotT | Open | Close | Rel(comparison: Comparison) | End

  // ---------------------------------------------------------------- writing

  // _parenthesize
  function Wrapped(tokens: seq<Token>, wrap: bool): seq<Token> {
    if wrap then [Open] + tokens + [Close] else tokens
  }

  // expr_str
  function Written(e: Expr): (r: seq<Token>)
    ensures r != []
  {
    match e
    case Leaf(a) => [Sym(a)]
    case And(l, r) => Wrapped(Written(l), l.Or?) + [AndT] + Wrapped(Written(r), r.Or?)
    case Or(l, r) => Wrapped(Written(l), l.And?) + [OrT] + Wrapped(Written(r), r.And?)
    case Not(o) => [NotT] + Wrapped(Written(o), !o.Leaf?)
    case Relation(c, a, b) => [Sym(a), Rel(c), Sym(b)]
  }

  // ---------------------------------------------------------------- reading

  predicate Line(ts: seq<Token>) { ts != [] && ts[|ts| - 1] == End }

  // An expression and the place after it, or None if the source raises an error.
  type Parsed = Option<(Expr, nat)>

  // The expression that a plain symbol stands for; `m` is the constant symbol m, which a condition
  // rewrites to m && MODULES if asked to.
  datatype Rewriting = Rewriting(m: Atom, modules: Atom, on: bool)

  function Plain(w: Rewriting, a: Atom): Expr {
    if w.on && a == w.m then And(Leaf(w.m), Leaf(w.modules)) else Leaf(a)
  }

  // _parse_expr
  function ParseExpr(w: Rewriting, ts: seq<Token>, i: nat): (r: Parsed)
    requires Line(ts) && i < |ts|
    ensures r.Some? ==> i < r.value.1 < |ts|
    decreases |ts| - i, 2
  {
    match ParseAnd(w, ts, i)
    case None => None
    case Some((left, j)) =>
      if ts[j] != OrT then Some((left, j)) else
        match ParseExpr(w, ts, j + 1)
        case None => None
        case Some((right, k)) => Some((Or(left, right), k))
  }

  // _parse_and_expr
  function ParseAnd(w: Rewriting, ts: seq<Token>, i: nat): (r: Parsed)
    requires Line(ts) && i < |ts|
    ensures r.Some? ==> i < r.value.1 < |ts|
    decreases |ts| - i, 1
  {
    match ParseFactor(w, ts, i)
    case None => None
    case Some((left, j)) =>
      if ts[j] != AndT then Some((left, j)) else
        match ParseAnd(w, ts, j + 1)
        case None => None
        case Some((right, k)) => Some((And(left, right), k))
  }

  // _parse_factor
  function ParseFactor(w: Rewriting, ts: seq<Token>, i: nat): (r: Parsed)
    requires Line(ts) && i < |ts|
    ensures r.Some? ==> i < r.value.1 < |ts|
    decreases |ts| - i, 0
  {
    match ts[i]
    case Sym(a) =>
      if !ts[i + 1].Rel? then Some((Plain(w, a), i + 1))
      else if ts[i + 2].Sym? then Some((Relation(ts[i + 1].comparison, a, ts[i + 2].atom), i + 3))
      else None
    case NotT =>
      (match ParseFactor(w, ts, i + 1)
       case None => None
       case Some((e, j)) => Some((Not(e), j)))
    case Open =>
      (match ParseExpr(w, ts, i + 1)
       case None => None
       case Some((e, j)) => if ts[j] == Close then Some((e, j + 1)) else None)
    case _ => None
  }

  // ---------------------------------------------------------------- the round trip

  // The operands of && in the order in which they are written, nested to the right.
  function AndAppend(e: Expr, more: Expr): Expr {
    if e.And? then And(e.left, AndAppend(e.right, more)) else And(e, more)
  }

  function OrAppend(e: Expr, more: Expr): Expr {
    if e.Or? then Or(e.left, OrAppend(e.right, more)) else Or(e, more)
  }

  // The expression with chains of && and of || nested to the right.
  function Nested(e: Expr): Expr {
    match e
    case And(l, r) => AndAppend(Nested(l), Nested(r))
    case Or(l, r) => OrAppend(Nested(l), Nested(r))
    case Not(o) => Not(Nested(o))
    case _ => e
  }

  lemma NestedKind(e: Expr)
    ensures Nested(e).And? == e.And? && Nested(e).Or? == e.Or?
  {}

  lemma {:induction false} AppendIsAssociative(a: Expr, b: Expr, c: Expr)
    ensures AndAppend(AndAppend(a, b), c) == AndAppend(a, AndAppend(b, c))
    ensures OrAppend(OrAppend(a, b), c) == OrAppend(a, OrAppend(b, c))
  {
    if a.And? {
      AppendIsAssociative(a.right, b, c);
    }
    if a.Or? {
      AppendIsAssociative(a.right, b, c);
    }
  }

  // The tokens from i to j are those of e.
  predicate At(ts: seq<Token>, i: nat, j: nat, tokens: seq<Token>) {
    i <= j < |ts| && ts[i..j] == tokens
  }

  lemma SplitAt(ts: seq<Token>, i: nat, j: nat, a: seq<Token>, b: seq<Token>)
    requires At(ts, i, j, a + b)
    ensures At(ts, i, i + |a|, a) && At(ts, i + |a|, j, b) && i + |a| <= j < |ts| && j == i + |a| + |b|
  {
    var s := ts[i..j];
    assert s[..|a|] == a && s[|a|..] == b;
    assert ts[i..i + |a|] == s[..|a|] && ts[i + |a|..j] == s[|a|..];
  }

  // Reading back what was written, for the operands of && and || and for whole expressions; the token
  // after them decides where they end.
  lemma {:induction false} FactorRead(w: Rewriting, ts: seq<Token>, i: nat, j: nat, e: Expr)
    requires !w.on && Line(ts) && At(ts, i, j, Written(e)) && !e.And? && !e.Or? && !ts[j].Rel?
    ensures ParseFactor(w, ts, i) == Some((Nested(e), j))
    decreases e, 0
  {
    hide At, ParseExpr, ParseAnd;
    match e
    case Leaf(a) => OneToken(ts, i, j, Sym(a));
    case Relation(c, a, b) => ThreeTokens(ts, i, j, Sym(a), Rel(c), Sym(b));
    case Not(o) =>
      SplitAt(ts, i, j, [NotT], Wrapped(Written(o), !o.Leaf?));
      OneToken(ts, i, i + 1, NotT);
      if o.Leaf? {
        FactorRead(w, ts, i + 1, j, o);
      } else {
        WrappedRead(w, ts, i + 1, j, o);
      }
  }

  lemma OneToken(ts: seq<Token>, i: nat, j: nat, t: Token)
    requires At(ts, i, j, [t])
    ensures j == i + 1 && ts[i] == t
  {
    assert ts[i] == ts[i..j][0];
  }

  lemma ThreeTokens(ts: seq<Token>, i: nat, j: nat, t: Token, u: Token, v: Token)
    requires At(ts, i, j, [t, u, v])
    ensures j == i + 3 && ts[i] == t && ts[i + 1] == u && ts[i + 2] == v
  {
    assert ts[i] == ts[i..j][0] && ts[i + 1] == ts[i..j][1] && ts[i + 2] == ts[i..j][2];
  }

  lemma {:induction false} WrappedRead(w: Rewriting, ts: seq<Token>, i: nat, j: nat, e: Expr)
    requires !w.on && Line(ts) && At(ts, i, j, [Open] + Written(e) + [Close])
    ensures ParseFactor(w, ts, i) == Some((Nested(e), j))
    decreases e, 3
  {
    hide Written, Nested, At, ParseExpr, ParseAnd;
    WrappedParts(ts, i, j, Written(e));
    ExprRead(w, ts, i + 1, j - 1, e);
  }

  lemma WrappedParts(ts: seq<Token>, i: nat, j: nat, tokens: seq<Token>)
    requires At(ts, i, j, [Open] + tokens + [Close])
    ensures i + 2 <= j <= |ts| && ts[i] == Open && ts[j - 1] == Close && At(ts, i + 1, j - 1, tokens)
  {
    assert [Open] + tokens + [Close] == [Open] + (tokens + [Close]);
    SplitAt(ts, i, j, [Open], tokens + [Close]);
    SplitAt(ts, i + 1, j, tokens, [Close]);
    assert ts[i..i + 1] == [Open] && ts[j - 1..j] == [Close];
    assert ts[i] == [Open][0] && ts[j - 1] == [Close][0];
  }

  lemma {:induction false} ExprRead(w: Rewriting, ts: seq<Token>, i: nat, j: nat, e: Expr)
    requires !w.on && Line(ts) && At(ts, i, j, Written(e)) && !ts[j].Rel? && ts[j] != AndT && ts[j] != OrT
    ensures ParseExpr(w, ts, i) == Some((Nested(e), j))
    decreases e, 2
  {
    match e
    case And(_, _) => AndPair(w, ts, i, j, e);
    case Or(_, _) => OrPair(w, ts, i, j, e);
    case _ => FactorRead(w, ts, i, j, e);
  }

  lemma {:induction false} AndPair(w: Rewriting, ts: seq<Token>, i: nat, j: nat, e: Expr)
    requires !w.on && Line(ts) && e.And? && At(ts, i, j, Written(e)) && !ts[j].Rel? && ts[j] != AndT
    ensures ParseAnd(w, ts, i) == Some((Nested(e), j))
    decreases e, 1
  {
    hide At, ParseAnd, ParseExpr;
    var l, r := Wrapped(Written(e.left), e.left.Or?), Wrapped(Written(e.right), e.right.Or?);
    Between(ts, i, j, l, AndT, r);
    AndRead(w, ts, i + |l| + 1, j, e.right);
    AndChain(w, ts, i, i + |l|, e.left, Nested(e.right), j);
  }

  lemma Between(ts: seq<Token>, i: nat, j: nat, l: seq<Token>, t: Token, r: seq<Token>)
    requires At(ts, i, j, l + [t] + r)
    ensures i + |l| + 1 <= j < |ts| && At(ts, i, i + |l|, l) && ts[i + |l|] == t && At(ts, i + |l| + 1, j, r)
  {
    assert l + [t] + r == l + ([t] + r);
    SplitAt(ts, i, j, l, [t] + r);
    SplitAt(ts, i + |l|, j, [t], r);
    assert ts[i + |l|..i + |l| + 1] == [t];
    assert ts[i + |l|] == [t][0];
  }

  // An operand of && at the end of a chain.
  lemma {:induction false} AndRead(w: Rewriting, ts: seq<Token>, i: nat, j: nat, e: Expr)
    requires !w.on && Line(ts) && At(ts, i, j, Wrapped(Written(e), e.Or?)) && !ts[j].Rel? && ts[j] != AndT
    ensures ParseAnd(w, ts, i) == Some((Nested(e), j))
    decreases e, 4
  {
    match e
    case And(_, _) => AndPair(w, ts, i, j, e);
    case Or(_, _) => WrappedRead(w, ts, i, j, e);
    case _ => FactorRead(w, ts, i, j, e);
  }

  // An operand of && with more of the chain behind it.
  lemma {:induction false} AndChain(w: Rewriting, ts: seq<Token>, i: nat, j: nat, e: Expr, more: Expr, k: nat)
    requires !w.on && Line(ts) && At(ts, i, j, Wrapped(Written(e), e.Or?)) && ts[j] == AndT
    requires ParseAnd(w, ts, j + 1) == Some((more, k))
    ensures ParseAnd(w, ts, i) == Some((AndAppend(Nested(e), more), k))
    decreases e, 5
  {
    hide Written, At, Nested;
    NestedKind(e);
    match e
    case And(_, _) => AndChainPair(w, ts, i, j, e, more, k);
    case Or(_, _) => WrappedRead(w, ts, i, j, e);
    case _ => FactorRead(w, ts, i, j, e);
  }

  lemma {:induction false} AndChainPair(w: Rewriting, ts: seq<Token>, i: nat, j: nat, e: Expr, more: Expr, k: nat)
    requires !w.on && Line(ts) && e.And? && At(ts, i, j, Written(e)) && ts[j] == AndT
    requires ParseAnd(w, ts, j + 1) == Some((more, k))
    ensures ParseAnd(w, ts, i) == Some((AndAppend(Nested(e), more), k))
    decreases e, 4
  {
    hide At, ParseExpr, ParseAnd, ParseFactor, AndAppend;
    var l, r := Wrapped(Written(e.left), e.left.Or?), Wrapped(Written(e.right), e.right.Or?);
    Between(ts, i, j, l, AndT, r);
    AndChain(w, ts, i + |l| + 1, j, e.right, more, k);
    AndChain(w, ts, i, i + |l|, e.left, AndAppend(Nested(e.right), more), k);
    AppendIsAssociative(Nested(e.left), Nested(e.right), more);
  }

  lemma {:induction false} OrPair(w: Rewriting, ts: seq<Token>, i: nat, j: nat, e: Expr)
    requires !w.on && Line(ts) && e.Or? && At(ts, i, j, Written(e)) && !ts[j].Rel? && ts[j] != AndT && ts[j] != OrT
    ensures ParseExpr(w, ts, i) == Some((Nested(e), j))
    decreases e, 1
  {
    hide At, ParseAnd, ParseExpr;
    var l, r := Wrapped(Written(e.left), e.left.And?), Wrapped(Written(e.right), e.right.And?);
    Between(ts, i, j, l, OrT, r);
    OrRead(w, ts, i + |l| + 1, j, e.right);
    OrChain(w, ts, i, i + |l|, e.left, Nested(e.right), j);
  }

  // An operand of || at the end of a chain.
  lemma {:induction false} OrRead(w: Rewriting, ts: seq<Token>, i: nat, j: nat, e: Expr)
    requires !w.on && Line(ts) && At(ts, i, j, Wrapped(Written(e), e.And?))
    requires !ts[j].Rel? && ts[j] != AndT && ts[j] != OrT
    ensures ParseExpr(w, ts, i) == Some((Nested(e), j))
    decreases e, 4
  {
    match e
    case Or(_, _) => OrPair(w, ts, i, j, e);
    case And(_, _) => WrappedRead(w, ts, i, j, e);
    case _ => FactorRead(w, ts, i, j, e);
  }

  // An operand of || with more of the chain behind it.
  lemma {:induction false} OrChain(w: Rewriting, ts: seq<Token>, i: nat, j: nat, e: Expr, more: Expr, k: nat)
    requires !w.on && Line(ts) && At(ts, i, j, Wrapped(Written(e), e.And?)) && ts[j] == OrT
    requires ParseExpr(w, ts, j + 1) == Some((more, k))
    ensures ParseExpr(w, ts, i) == Some((OrAppend(Nested(e), more), k))
    decreases e, 5
  {
    hide Written, At, Nested;
    NestedKind(e);
    match e
    case Or(_, _) => OrChainPair(w, ts, i, j, e, more, k);
    case And(_, _) => WrappedRead(w, ts, i, j, e);
    case _ => FactorRead(w, ts, i, j, e);
  }

  lemma {:induction false} OrChainPair(w: Rewriting, ts: seq<Token>, i: nat, j: nat, e: Expr, more: Expr, k: nat)
    requires !w.on && Line(ts) && e.Or? && At(ts, i, j, Written(e)) && ts[j] == OrT
    requires ParseExpr(w, ts, j + 1) == Some((more, k))
    ensures ParseExpr(w, ts, i) == Some((OrAppend(Nested(e), more), k))
    decreases e, 4
  {
    hide At, ParseExpr, ParseAnd, ParseFactor, OrAppend;
    var l, r := Wrapped(Written(e.left), e.left.And?), Wrapped(Written(e.right), e.right.And?);
    Between(ts, i, j, l, OrT, r);
    OrChain(w, ts, i + |l| + 1, j, e.right, more, k);
    OrChain(w, ts, i, i + |l|, e.left, OrAppend(Nested(e.right), more), k);
    AppendIsAssociative(Nested(e.left), Nested(e.right), more);
  }

  // Main theorem: what expr_str writes is read back whole, as the same expression up to the nesting of
  // && and ||.
  lemma RoundTrip(w: Rewriting, e: Expr)
    requires !w.on
    ensures ParseExpr(w, Written(e) + [End], 0) == Some((Nested(e), |Written(e)|))
  {
    var ts := Written(e) + [End];
    assert ts[0..|Written(e)|] == Written(e);
    ExprRead(w, ts, 0, |Written(e)|, e);
  }

  lemma {:induction false} AppendValue(g: Config, u: User, c: Cache, a: Expr, b: Expr)
    ensures ExprValue(g, u, c, AndAppend(a, b)) == ExprValue(g, u, c, And(a, b))
    ensures ExprValue(g, u, c, OrAppend(a, b)) == ExprValue(g, u, c, Or(a, b))
  {
    hide AtomTri, Compare, Holds;
    if a.And? || a.Or? {
      AppendValue(g, u, c, a.right, b);
    }
  }

  // The nesting makes no difference to the value, nor to what the evaluation reads: where one of the
  // two evaluations misses a field, the other misses the same one.
  lemma {:induction false} NestingKeepsValue(g: Config, u: User, c: Cache, e: Expr)
    ensures ExprValue(g, u, c, Nested(e)) == ExprValue(g, u, c, e)
  {
    hide AtomTri, Compare, Holds, AndAppend, OrAppend;
    match e
    case And(l, r) =>
      NestingKeepsValue(g, u, c, l);
      NestingKeepsValue(g, u, c, r);
      AppendValue(g, u, c, Nested(l), Nested(r));
    case Or(l, r) =>
      NestingKeepsValue(g, u, c, l);
      NestingKeepsValue(g, u, c, r);
      AppendValue(g, u, c, Nested(l), Nested(r));
    case Not(o) => NestingKeepsValue(g, u, c, o);
    case _ =>
  }

  lemma Regroup(l: seq<Token>, t: seq<Token>, m: seq<Token>, r: seq<Token>)
    ensures l + t + (m + t + r) == (l + t + m) + t + r
  {}

  lemma {:induction false} AppendWritten(a: Expr, b: Expr)
    ensures Written(AndAppend(a, b)) == Written(And(a, b))
    ensures Written(OrAppend(a, b)) == Written(Or(a, b))
  {
    if a.And? {
      AppendWritten(a.right, b);
      Regroup(Wrapped(Written(a.left), a.left.Or?), [AndT], Wrapped(Written(a.right), a.right.Or?),
              Wrapped(Written(b), b.Or?));
    } else if a.Or? {
      AppendWritten(a.right, b);
      Regroup(Wrapped(Written(a.left), a.left.And?), [OrT], Wrapped(Written(a.right), a.right.And?),
              Wrapped(Written(b), b.And?));
    }
  }

  // Nor does it make a difference to the text, so writing what was read gives the same text again.
  lemma {:induction false} NestingKeepsText(e: Expr)
    ensures Written(Nested(e)) == Written(e)
  {
    match e
    case And(l, r) =>
      NestingKeepsText(l);
      NestingKeepsText(r);
      NestedKind(l);
      NestedKind(r);
      AppendWritten(Nested(l), Nested(r));
    case Or(l, r) =>
      NestingKeepsText(l);
      NestingKeepsText(r);
      NestedKind(l);
      NestedKind(r);
      AppendWritten(Nested(l), Nested(r));
    case Not(o) => NestingKeepsText(o);
      NestedLeaf(o);
    case _ =>
  }

  lemma NestedLeaf(e: Expr)
    ensures Nested(e).Leaf? == e.Leaf?
  {}

  // ---------------------------------------------------------------- m in conditions

  // Every m that stands for itself, and is not compared with anything, is replaced by m && MODULES.
  function Rewritten(w: Rewriting, e: Expr): Expr {
    match e
    case Leaf(a) => Plain(w, a)
    case And(l, r) => And(Rewritten(w, l), Rewritten(w, r))
    case Or(l, r) => Or(Rewritten(w, l), Rewritten(w, r))
    case Not(o) => Not(Rewritten(w, o))
    case Relation(_, _, _) => e
  }

  function RewrittenResult(w: Rewriting, r: Parsed): Parsed {
    if r.None? then None else Some((Rewritten(w, r.value.0), r.value.1))
  }

  // Reading a condition is reading the expression and then rewriting it.
  lemma {:induction false} ConditionIsRewritten(w: Rewriting, ts: seq<Token>, i: nat)
    requires Line(ts) && i < |ts|
    ensures ParseExpr(w, ts, i) == RewrittenResult(w, ParseExpr(w.(on := false), ts, i))
    decreases |ts| - i, 2
  {
    hide ParseAnd, Plain;
    AndRewritten(w, ts, i);
    var a := ParseAnd(w.(on := false), ts, i);
    if a.Some? && ts[a.value.1] == OrT {
      ConditionIsRewritten(w, ts, a.value.1 + 1);
    }
  }

  lemma {:induction false} AndRewritten(w: Rewriting, ts: seq<Token>, i: nat)
    requires Line(ts) && i < |ts|
    ensures ParseAnd(w, ts, i) == RewrittenResult(w, ParseAnd(w.(on := false), ts, i))
    decreases |ts| - i, 1
  {
    hide ParseFactor, Plain;
    FactorRewritten(w, ts, i);
    var f := ParseFactor(w.(on := false), ts, i);
    if f.Some? && ts[f.value.1] == AndT {
      AndRewritten(w, ts, f.value.1 + 1);
    }
  }

  lemma {:induction false} FactorRewritten(w: Rewriting, ts: seq<Token>, i: nat)
    requires Line(ts) && i < |ts|
    ensures ParseFactor(w, ts, i) == RewrittenResult(w, ParseFactor(w.(on := false), ts, i))
    decreases |ts| - i, 0
  {
    hide ParseExpr;
    if ts[i] == NotT {
      FactorRewritten(w, ts, i + 1);
    } else if ts[i] == Open {
      ConditionIsRewritten(w, ts, i + 1);
    }
  }

  // ---------------------------------------------------------------- the code

  class Parser {
    const w: Rewriting
    var tokens: seq<Token>      // _tokens
    var position: nat           // _tokens_i

    predicate Ready()
      reads this
    {
      Line(tokens) && position < |tokens|
    }

    constructor (w: Rewriting, tokens: seq<Token>)
      requires Line(tokens)
      ensures Ready() && this.w == w && this.tokens == tokens && position == 0
    {
      this.w, this.tokens, position := w, tokens, 0;
    }

    // _check_token
    method CheckToken(token: Token) returns (found: bool)
      requires Ready() && token != End
      modifies this`position
      ensures Ready() && found == (tokens[old(position)] == token)
      ensures position == if found then old(position) + 1 else old(position)
    {
      found := tokens[position] == token;
      if found {
        position := position + 1;
      }
    }

    // _parse_expr; None stands for the exception
    method ParseExpression() returns (e: Option<Expr>)
      requires Ready()
      modifies this`position
      ensures Line(tokens) && old(position) < |tokens|
      ensures match ParseExpr(w, tokens, old(position))
              case None => e == None
              case Some((r, j)) => e == Some(r) && position == j && Ready()
      decreases |tokens| - position, 2
    {
      var left := ParseConjunction();
      if left == None {
        return None;
      }
      var or := CheckToken(OrT);
      if !or {
        return left;
      }
      var right := ParseExpression();
      if right == None {
        return None;
      }
      return Some(Or(left.value, right.value));
    }

    // _parse_and_expr
    method ParseConjunction() returns (e: Option<Expr>)
      requires Ready()
      modifies this`position
      ensures Line(tokens) && old(position) < |tokens|
      ensures match ParseAnd(w, tokens, old(position))
              case None => e == None
              case Some((r, j)) => e == Some(r) && position == j && Ready()
      decreases |tokens| - position, 1
    {
      var left := ParseOperand();
      if left == None {
        return None;
      }
      var and := CheckToken(AndT);
      if !and {
        return left;
      }
      var right := ParseConjunction();
      if right == None {
        return None;
      }
      return Some(And(left.value, right.value));
    }

    // _parse_factor
    method ParseOperand() returns (e: Option<Expr>)
      requires Ready()
      modifies this`position
      ensures Line(tokens) && old(position) < |tokens|
      ensures match ParseFactor(w, tokens, old(position))
              case None => e == None
              case Some((r, j)) => e == Some(r) && position == j && Ready()
      decreases |tokens| - position, 0
    {
      var token := tokens[position];
      if token == End {
        return None;
      }
      position := position + 1;
      match token {
        case Sym(a) =>
          if !tokens[position].Rel? {
            return Some(Plain(w, a));
          }
          var comparison := tokens[position].comparison;
          position := position + 1;
          var operand := tokens[position];
          if !operand.Sym? {
            return None;
          }
          position := position + 1;
          return Some(Relation(comparison, a, operand.atom));
        case NotT =>
          var inner := ParseOperand();
          if inner == None {
            return None;
          }
          return Some(Not(inner.value));
        case Open =>
          var inner := ParseExpression();
          if inner == None {
            return None;
          }
          var closed := CheckToken(Close);
          return if closed then inner else None;
        case _ =>
          return None;
      }
    }
  }
}
