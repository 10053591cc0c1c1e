/** What expressions mean, said without the function that evaluates them. */
module KconfigMeaning {
  import opened Wrappers
  import opened KconfigModel
  import opened KconfigGetters

  // ---------------------------------------------------------------- operands

  // The truth value, the text and the number of an operand, as the cache has them.
  ghost predicate HasTri(g: Config, u: User, c: Cache, a: Atom, v: Tri) {
    match a
    case Constant(_, tri, _) => v == tri
    case Ref(i) =>
      if g.At(i).Choice? then ChoiceMode(g, u, c, i) == Got(v) else TriVal(i) in c && c[TriVal(i)] == T(v)
  }

  ghost predicate HasText(g: Config, u: User, c: Cache, a: Atom, text: string) {
    match a
    case Constant(_, _, name) => text == name
    case Ref(i) =>
      if g.At(i).Choice? then
        || (ChoiceMode(g, u, c, i) == Got(0) && text == "n")
        || (ChoiceMode(g, u, c, i) == Got(1) && text == "m")
        || (ChoiceMode(g, u, c, i) == Got(2) && text == "y")
      else StrVal(i) in c && c[StrVal(i)] == S(text)
  }

  function KindOf(g: Config, a: Atom): Kind { if a.Constant? then a.kind else g.At(a.id).kind }

  // n, m and y count as 0, 1 and 2.
  ghost predicate HasNumber(g: Config, u: User, c: Cache, a: Atom, n: int) {
    if KindOf(g, a) == Bool || KindOf(g, a) == Tristate then 0 <= n <= 2 && HasTri(g, u, c, a, n)
    else exists text :: HasText(g, u, c, a, text) && g.notation.parse(KindOf(g, a), text) == Some(n)
  }

  ghost predicate NoNumber(g: Config, u: User, c: Cache, a: Atom) {
    && KindOf(g, a) != Bool && KindOf(g, a) != Tristate
    && exists text :: HasText(g, u, c, a, text) && g.notation.parse(KindOf(g, a), text) == None
  }

  // What is cached of an operand has the form that the getters give it.
  ghost predicate Known(g: Config, u: User, c: Cache, a: Atom) {
    (exists v :: HasTri(g, u, c, a, v)) && exists text :: HasText(g, u, c, a, text)
  }

  lemma AtomTriIs(g: Config, u: User, c: Cache, a: Atom, v: Tri)
    requires HasTri(g, u, c, a, v)
    ensures AtomTri(g, u, c, a) == Got(v)
  {}

  lemma AtomTextIs(g: Config, u: User, c: Cache, a: Atom, text: string)
    requires HasText(g, u, c, a, text)
    ensures AtomText(g, u, c, a) == Got(text)
  {}

  // ---------------------------------------------------------------- comparisons

  // The order of texts: x is shorter, or has the smaller character where they first differ.
  ghost predicate TextBefore(x: string, y: string) {
    exists i: nat :: FirstDifference(x, y, i)
  }

  predicate FirstDifference(x: string, y: string, i: nat) {
    && i <= |x| && i < |y| && x[..i] == y[..i]
    && (i == |x| || x[i] < y[i])
  }

  lemma {:induction false} TextOrder(x: string, y: string)
    ensures StrCmp(x, y) < 0 <==> TextBefore(x, y)
    ensures StrCmp(x, y) > 0 <==> TextBefore(y, x)
    ensures StrCmp(x, y) == 0 <==> x == y
  {
    if x == "" || y == "" {
      assert y != "" && x == "" ==> FirstDifference(x, y, 0);
      assert x != "" && y == "" ==> FirstDifference(y, x, 0);
    } else if x[0] != y[0] {
      assert x[0] < y[0] ==> FirstDifference(x, y, 0);
      assert y[0] < x[0] ==> FirstDifference(y, x, 0);
      DifferAtOnce(x, y);
      DifferAtOnce(y, x);
    } else {
      TextOrder(x[1..], y[1..]);
      BeforeTail(x, y);
      BeforeTail(y, x);
      assert x == [x[0]] + x[1..] && y == [y[0]] + y[1..];
    }
  }

  lemma DifferAtOnce(x: string, y: string)
    requires x != "" && y != "" && x[0] != y[0]
    ensures TextBefore(x, y) ==> x[0] < y[0]
  {
    if TextBefore(x, y) {
      var i: nat :| FirstDifference(x, y, i);
      if i > 0 {
        SamePrefix(x, y, i);
      }
    }
  }

  lemma SamePrefix(x: string, y: string, i: nat)
    requires 0 < i <= |x| && i <= |y| && x[..i] == y[..i]
    ensures x[0] == y[0]
  {
    assert x[..i][0] == x[0] && y[..i][0] == y[0];
  }

  lemma BeforeTail(x: string, y: string)
    requires x != "" && y != "" && x[0] == y[0]
    ensures TextBefore(x, y) <==> TextBefore(x[1..], y[1..])
  {
    if TextBefore(x, y) {
      var i: nat :| FirstDifference(x, y, i);
      assert i > 0;
      assert x[1..][..i - 1] == x[..i][1..] && y[1..][..i - 1] == y[..i][1..];
      assert FirstDifference(x[1..], y[1..], i - 1);
    }
    if TextBefore(x[1..], y[1..]) {
      var i: nat :| FirstDifference(x[1..], y[1..], i);
      assert x[..i + 1] == [x[0]] + x[1..][..i] && y[..i + 1] == [y[0]] + y[1..][..i];
      assert FirstDifference(x, y, i + 1);
    }
  }

  // Whether the first operand comes before the second: as texts, if both are strings or one of them is no
  // number; else as numbers.
  ghost predicate Before(g: Config, u: User, c: Cache, a: Atom, b: Atom) {
    if ComparedAsTexts(g, u, c, a, b) then
      exists x, y :: HasText(g, u, c, a, x) && HasText(g, u, c, b, y) && TextBefore(x, y)
    else
      exists x, y :: HasNumber(g, u, c, a, x) && HasNumber(g, u, c, b, y) && x < y
  }

  ghost predicate ComparedAsTexts(g: Config, u: User, c: Cache, a: Atom, b: Atom) {
    (KindOf(g, a) == Text && KindOf(g, b) == Text) || NoNumber(g, u, c, a) || NoNumber(g, u, c, b)
  }

  // The value of a comparison is y or n, as the order of the operands says.
  lemma ComparisonMeans(g: Config, u: User, c: Cache, a: Atom, b: Atom, r: Comparison)
    requires Known(g, u, c, a) && Known(g, u, c, b)
    ensures var before, after := Before(g, u, c, a, b), Before(g, u, c, b, a);
            && !(before && after)
            && ExprValue(g, u, c, Relation(r, a, b))
               == Got(if match r
                         case Less => before
                         case Greater => after
                         case LessEqual => !after
                         case GreaterEqual => !before
                         case Equal => !before && !after
                         case Unequal => before || after
                      then 2 else 0)
  {
    hide Compare, Before;
    CompareMeans(g, u, c, a, b);
  }

  lemma CompareMeans(g: Config, u: User, c: Cache, a: Atom, b: Atom)
    requires Known(g, u, c, a) && Known(g, u, c, b)
    ensures var order := Compare(g, u, c, a, b);
            && order.Got?
            && (order.value < 0 <==> Before(g, u, c, a, b)) && (order.value > 0 <==> Before(g, u, c, b, a))
  {
    hide HasNumber, HasText, HasTri, NoNumber, AtomNumber, AtomText, AtomTri, StrCmp, TextBefore;
    var x, y := TextOfAtom(g, u, c, a), TextOfAtom(g, u, c, b);
    AtomTextIs(g, u, c, a, x);
    AtomTextIs(g, u, c, b, y);
    TextOrder(x, y);
    OneText(g, u, c, a);
    OneText(g, u, c, b);
    NumberOrNone(g, u, c, a);
    NumberOrNone(g, u, c, b);
  }

  ghost function TextOfAtom(g: Config, u: User, c: Cache, a: Atom): (text: string)
    requires Known(g, u, c, a)
    ensures HasText(g, u, c, a, text)
  {
    var text :| HasText(g, u, c, a, text);
    text
  }

  lemma OneText(g: Config, u: User, c: Cache, a: Atom)
    ensures forall x, y :: HasText(g, u, c, a, x) && HasText(g, u, c, a, y) ==> x == y
  {}

  lemma NumberOrNone(g: Config, u: User, c: Cache, a: Atom)
    requires Known(g, u, c, a)
    ensures AtomNumber(g, u, c, a).Got?
    ensures NoNumber(g, u, c, a) <==> AtomNumber(g, u, c, a) == Got(None)
    ensures forall n :: HasNumber(g, u, c, a, n) <==> AtomNumber(g, u, c, a) == Got(Some(n))
  {
    hide HasText, AtomTri, AtomText;
    var text, v := TextOfAtom(g, u, c, a), TriOfAtom(g, u, c, a);
    AtomTextIs(g, u, c, a, text);
    AtomTriIs(g, u, c, a, v);
    OneText(g, u, c, a);
  }

  ghost function TriOfAtom(g: Config, u: User, c: Cache, a: Atom): (v: Tri)
    requires Known(g, u, c, a)
    ensures HasTri(g, u, c, a, v)
  {
    var v :| HasTri(g, u, c, a, v);
    v
  }

  // ---------------------------------------------------------------- logical operators

  // All operands are known.
  ghost predicate AllKnown(g: Config, u: User, c: Cache, e: Expr) {
    match e
    case Leaf(a) => exists v :: HasTri(g, u, c, a, v)
    case And(l, r) => AllKnown(g, u, c, l) && AllKnown(g, u, c, r)
    case Or(l, r) => AllKnown(g, u, c, l) && AllKnown(g, u, c, r)
    case Not(o) => AllKnown(g, u, c, o)
    case Relation(_, a, b) => Known(g, u, c, a) && Known(g, u, c, b)
  }

  // An expression is at least m, or at least y: conjunction and disjunction are as in classical logic, and
  // the negation of an expression is at least m if that is not y, and at least y if that is not even m.
  ghost predicate AtLeast(g: Config, u: User, c: Cache, e: Expr, least: Tri) {
    match e
    case Leaf(a) => exists v :: HasTri(g, u, c, a, v) && least <= v
    case And(l, r) => AtLeast(g, u, c, l, least) && AtLeast(g, u, c, r, least)
    case Or(l, r) => AtLeast(g, u, c, l, least) || AtLeast(g, u, c, r, least)
    case Not(o) => least == 0 || (if least == 1 then !AtLeast(g, u, c, o, 2) else !AtLeast(g, u, c, o, 1))
    case Relation(r, a, b) =>
      least == 0 ||
      match r
      case Less => Before(g, u, c, a, b)
      case Greater => Before(g, u, c, b, a)
      case LessEqual => !Before(g, u, c, b, a)
      case GreaterEqual => !Before(g, u, c, a, b)
      case Equal => !Before(g, u, c, a, b) && !Before(g, u, c, b, a)
      case Unequal => Before(g, u, c, a, b) || Before(g, u, c, b, a)
  }

  // Main theorem: what expr_value computes is the meaning.
  lemma {:induction false} ValueIsMeaning(g: Config, u: User, c: Cache, e: Expr)
    requires AllKnown(g, u, c, e)
    ensures var v := ExprValue(g, u, c, e);
            v.Got? && (1 <= v.value <==> AtLeast(g, u, c, e, 1)) && (2 <= v.value <==> AtLeast(g, u, c, e, 2))
  {
    hide Before, Compare, Holds;
    match e
    case Leaf(a) =>
      var v :| HasTri(g, u, c, a, v);
      LeafIs(g, u, c, a, v);
    case And(l, r) =>
      ValueIsMeaning(g, u, c, l);
      ValueIsMeaning(g, u, c, r);
    case Or(l, r) =>
      ValueIsMeaning(g, u, c, l);
      ValueIsMeaning(g, u, c, r);
    case Not(o) => ValueIsMeaning(g, u, c, o);
    case Relation(r, a, b) => ComparisonMeans(g, u, c, a, b, r);
  }

  lemma LeafIs(g: Config, u: User, c: Cache, a: Atom, v: Tri)
    requires HasTri(g, u, c, a, v)
    ensures ExprValue(g, u, c, Leaf(a)) == Got(v) && forall w :: HasTri(g, u, c, a, w) ==> w == v
  {}

  // With operands that are n or y it is the value of the boolean expression.
  ghost predicate TwoValued(g: Config, u: User, c: Cache, e: Expr) {
    match e
    case Leaf(a) => HasTri(g, u, c, a, 0) || HasTri(g, u, c, a, 2)
    case And(l, r) => TwoValued(g, u, c, l) && TwoValued(g, u, c, r)
    case Or(l, r) => TwoValued(g, u, c, l) && TwoValued(g, u, c, r)
    case Not(o) => TwoValued(g, u, c, o)
    case Relation(_, a, b) => Known(g, u, c, a) && Known(g, u, c, b)
  }

  ghost predicate Truth(g: Config, u: User, c: Cache, e: Expr) {
    match e
    case Leaf(a) => HasTri(g, u, c, a, 2)
    case And(l, r) => Truth(g, u, c, l) && Truth(g, u, c, r)
    case Or(l, r) => Truth(g, u, c, l) || Truth(g, u, c, r)
    case Not(o) => !Truth(g, u, c, o)
    case Relation(_, _, _) => AtLeast(g, u, c, e, 2)
  }

  lemma {:induction false} BooleanMeaning(g: Config, u: User, c: Cache, e: Expr)
    requires TwoValued(g, u, c, e)
    ensures ExprValue(g, u, c, e) == Got(if Truth(g, u, c, e) then 2 else 0)
  {
    hide Before, Compare, Holds;
    match e
    case Leaf(a) =>
      if HasTri(g, u, c, a, 0) {
        LeafIs(g, u, c, a, 0);
      } else {
        LeafIs(g, u, c, a, 2);
      }
    case And(l, r) =>
      BooleanMeaning(g, u, c, l);
      BooleanMeaning(g, u, c, r);
    case Or(l, r) =>
      BooleanMeaning(g, u, c, l);
      BooleanMeaning(g, u, c, r);
    case Not(o) => BooleanMeaning(g, u, c, o);
    case Relation(r, a, b) => ComparisonMeans(g, u, c, a, b, r);
  }

  // The laws of De Morgan, the double negation, and the negation of n, m and y.
  lemma DeMorgan(g: Config, u: User, c: Cache, a: Expr, b: Expr)
    requires AllKnown(g, u, c, a) && AllKnown(g, u, c, b)
    ensures ExprValue(g, u, c, Not(And(a, b))) == ExprValue(g, u, c, Or(Not(a), Not(b)))
    ensures ExprValue(g, u, c, Not(Or(a, b))) == ExprValue(g, u, c, And(Not(a), Not(b)))
    ensures ExprValue(g, u, c, Not(Not(a))) == ExprValue(g, u, c, a)
  {
    ValueIsMeaning(g, u, c, a);
    ValueIsMeaning(g, u, c, b);
    hide ExprValue, AtLeast, AllKnown;
    OperatorsOf(g, u, c, a, b);
    OperatorsOf(g, u, c, Not(a), Not(b));
    OperatorsOf(g, u, c, And(a, b), Or(a, b));
  }

  lemma OperatorsOf(g: Config, u: User, c: Cache, a: Expr, b: Expr)
    requires ExprValue(g, u, c, a).Got? && ExprValue(g, u, c, b).Got?
    ensures var x, y := ExprValue(g, u, c, a).value, ExprValue(g, u, c, b).value;
            && ExprValue(g, u, c, And(a, b)) == Got(Min(x, y)) && ExprValue(g, u, c, Or(a, b)) == Got(Max(x, y))
            && ExprValue(g, u, c, Not(a)) == Got(2 - x) && ExprValue(g, u, c, Not(b)) == Got(2 - y)
  {
    hide AtomTri, Compare, Holds;
    NegationOf(g, u, c, a);
    NegationOf(g, u, c, b);
  }

  lemma NegationOf(g: Config, u: User, c: Cache, a: Expr)
    requires ExprValue(g, u, c, a).Got?
    ensures ExprValue(g, u, c, Not(a)) == Got(2 - ExprValue(g, u, c, a).value)
  {
    hide AtomTri, Compare, Holds;
  }

  lemma NegatedConstants(g: Config, u: User, c: Cache, kind: Kind, text: string)
    ensures ExprValue(g, u, c, Not(Leaf(Constant(kind, 0, text)))) == Got(2)
    ensures ExprValue(g, u, c, Not(Leaf(Constant(kind, 1, text)))) == Got(1)
    ensures ExprValue(g, u, c, Not(Leaf(Constant(kind, 2, text)))) == Got(0)
  {}
}
