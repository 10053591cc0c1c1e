/** Symbols, choices and their expressions, as scripts/kconfiglib.py has them once a configuration has
  * been parsed, and what depends on what.
  */
module KconfigModel {
  import opened Wrappers

  type Id = nat
  type Tri = n: nat | n <= 2    // n, m, y

  datatype Kind = Unknown | Bool | Tristate | Text | Int | Hex

  // A constant symbol, or a symbol or choice of the configuration.
  datatype Atom = Constant(kind: Kind, tri: Tri, text: string) | Ref(id: Id)

  datatype Comparison = Equal | Unequal | Less | LessEqual | Greater | GreaterEqual

  datatype Expr =
    | Leaf(atom: Atom)
    | And(left: Expr, right: Expr)
    | Or(left: Expr, right: Expr)
    | Not(operand: Expr)
    | Relation(comparison: Comparison, first: Atom, second: Atom)

  datatype Default = Default(value: Expr, cond: Expr)
  datatype Range = Range(low: Atom, high: Atom, cond: Expr)
  datatype ChoiceDefault = ChoiceDefault(sym: Id, cond: Expr)

  // `prompts` are the conditions of the prompts of the item's menu nodes.
  datatype Item =
    | Symbol(kind: Kind, name: string, defined: bool, prompts: seq<Expr>, defaults: seq<Default>,
             ranges: seq<Range>, revDep: Expr, weakRevDep: Expr, directDep: Expr, choice: Option<Id>)
    | Choice(kind: Kind, prompts: seq<Expr>, picks: seq<ChoiceDefault>, syms: seq<Id>, isOptional: bool)

  // How numbers are read and written, which the properties do not depend on.
  datatype Notation = Notation(parse: (Kind, string) -> Option<int>, render: (Kind, int) -> string)

  datatype Config = Config(items: seq<Item>, modules: Id, notation: Notation) {
    function At(i: Id): Item {
      if i < |items| then items[i] else Symbol(Unknown, "", false, [], [], [], No(), No(), No(), None)
    }
  }

  function No(): Expr { Leaf(Constant(Bool, 0, "n")) }

  predicate InAtom(a: Atom, j: Id) { a == Ref(j) }

  predicate InExpr(e: Expr, j: Id) {
    match e
    case Leaf(a) => InAtom(a, j)
    case And(l, r) => InExpr(l, j) || InExpr(r, j)
    case Or(l, r) => InExpr(l, j) || InExpr(r, j)
    case Not(o) => InExpr(o, j)
    case Relation(_, a, b) => InAtom(a, j) || InAtom(b, j)
  }

  // The properties of an item name j: what _build_dep looks at.
  predicate Mentions(item: Item, j: Id) {
    match item
    case Symbol(_, _, _, prompts, defaults, ranges, revDep, weakRevDep, directDep, _) =>
      || (exists e :: e in prompts && InExpr(e, j))
      || (exists d :: d in defaults && (InExpr(d.value, j) || InExpr(d.cond, j)))
      || InExpr(revDep, j) || InExpr(weakRevDep, j)
      || (exists r :: r in ranges && (InAtom(r.low, j) || InAtom(r.high, j) || InExpr(r.cond, j)))
      || InExpr(directDep, j)
    case Choice(_, prompts, picks, _, _) =>
      || (exists e :: e in prompts && InExpr(e, j))
      || (exists d :: d in picks && InExpr(d.cond, j))
  }

  predicate Defined(g: Config, i: Id) {
    g.At(i).Symbol? ==> g.At(i).defined
  }

  // Item k is in the _dependents of item j, after _build_dep.
  predicate Dependent(g: Config, k: Id, j: Id) {
    Defined(g, k) && Mentions(g.At(k), j)
  }

  // Item k is in the _dependents of item j, after _add_choice_deps.
  predicate DependsOn(g: Config, k: Id, j: Id) {
    Dependent(g, k, j) || (g.At(k).Choice? && j in g.At(k).syms)
  }

  function Dependents(g: Config, j: Id): set<Id> {
    set k | 0 <= k < |g.items| && DependsOn(g, k, j)
  }

  // What parsing and finalizing a configuration establishes: a choice symbol and its choice name
  // each other, the choice's defaults are its symbols, which are defined, the choice is part of the
  // conditions of its symbols, undefined symbols have no properties, and MODULES is a symbol.  (Of a
  // default that is no symbol of its choice the source only warns, and a choice symbol whose conditions
  // are the constant n does not depend on its choice; neither kind of configuration is modelled.)
  ghost predicate WellFormed(g: Config) {
    && g.modules < |g.items| && g.At(g.modules).Symbol?
    && (forall k: Id, j: Id :: Dependent(g, k, j) ==> j < |g.items|)
    && (forall i: Id :: g.At(i).Symbol? ==>
         && (!g.At(i).defined ==> g.At(i).kind == Unknown && g.At(i).prompts == [] && g.At(i).choice == None)
         && (g.At(i).choice.Some? ==>
              && var c := g.At(i).choice.value;
                 g.At(c).Choice? && i in g.At(c).syms && Dependent(g, i, c)))
    && (forall c: Id :: g.At(c).Choice? ==>
         && (forall s :: s in g.At(c).syms ==> s < |g.items| && g.At(s).Symbol? && g.At(s).defined)
         && (forall d :: d in g.At(c).picks ==> d.sym in g.At(c).syms))
  }

  lemma DependentIsDefined(g: Config, k: Id, j: Id)
    requires WellFormed(g) && DependsOn(g, k, j)
    ensures Defined(g, k)
  {}

  lemma DependentIsListed(g: Config, k: Id, j: Id)
    requires DependsOn(g, k, j)
    ensures k < |g.items|
  {}
}
