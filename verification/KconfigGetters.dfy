/** The cached values of scripts/kconfiglib.py: how a getter computes one of them from others, and what
  * it reads on the way.
  */
module KconfigGetters {
  import opened Wrappers
  import opened KconfigModel

  // ---------------------------------------------------------------- the cache and the user's values

  // The cached fields of a symbol or choice: _cached_vis, _cached_tri_val, _cached_str_val and
  // _cached_selection.
  datatype Node = Vis(id: Id) | Sel(id: Id) | TriVal(id: Id) | StrVal(id: Id)

  datatype Value = T(tri: Tri) | S(text: string) | Pick(sym: Option<Id>)

  // A field that is None in the source is absent here.
  type Cache = map<Node, Value>

  // user_value of the symbols and choices, and user_selection of the choices.
  datatype User = User(values: map<Id, Value>, selections: map<Id, Id>)

  // The result of a getter run on the cached values alone: its value, or the first field it reads
  // that is not cached.
  datatype Outcome<+V> = Got(value: V) | Need(node: Node) {
    predicate IsFailure() { Need? }
    function PropagateFailure<U>(): Outcome<U> requires Need? { Need(node) }
    function Extract(): V requires Got? { value }
  }

  function Min(a: Tri, b: Tri): Tri { if a < b then a else b }
  function Max(a: Tri, b: Tri): Tri { if a < b then b else a }

  function TriOf(v: Value): Tri { if v.T? then v.tri else 0 }
  function TextOf(v: Value): string { if v.S? then v.text else "" }
  function TriText(t: Tri): string { if t == 0 then "n" else if t == 1 then "m" else "y" }

  function Field(c: Cache, n: Node): Outcome<Value> { if n in c then Got(c[n]) else Need(n) }
  function FieldTri(c: Cache, n: Node): Outcome<Tri> { var v :- Field(c, n); Got(TriOf(v)) }

  // ---------------------------------------------------------------- the getters

  // Choice.type is BOOL
  function ChoiceIsBool(g: Config, c: Cache, ch: Id): Outcome<bool> {
    if g.At(ch).kind == Tristate then
      var m :- FieldTri(c, TriVal(g.modules));
      Got(m == 0)
    else Got(g.At(ch).kind == Bool)
  }

  // Choice.tri_value, which is not cached
  function ChoiceMode(g: Config, u: User, c: Cache, ch: Id): Outcome<Tri> {
    var least: Tri := if g.At(ch).Choice? && g.At(ch).isOptional then 0 else 1;
    var wanted := if ch in u.values then Max(least, TriOf(u.values[ch])) else least;
    var vis :- FieldTri(c, Vis(ch));
    var mode := Min(wanted, vis);
    if mode == 1 then
      var isBool :- ChoiceIsBool(g, c, ch);
      Got(if isBool then 2 else 1)
    else Got(mode)
  }

  // Symbol.type is BOOL
  function SymbolIsBool(g: Config, u: User, c: Cache, i: Id): Outcome<bool> {
    var item := g.At(i);
    if item.kind != Tristate then Got(item.kind == Bool)
    else
      var mode :- if item.Symbol? && item.choice.Some? then ChoiceMode(g, u, c, item.choice.value) else Got(0);
      if mode == 2 then Got(true) else
        var m :- FieldTri(c, TriVal(g.modules));
        Got(m == 0)
  }

  // tri_value and str_value of an operand
  function AtomTri(g: Config, u: User, c: Cache, a: Atom): Outcome<Tri> {
    match a
    case Constant(_, tri, _) => Got(tri)
    case Ref(i) => if g.At(i).Choice? then ChoiceMode(g, u, c, i) else FieldTri(c, TriVal(i))
  }

  function AtomText(g: Config, u: User, c: Cache, a: Atom): Outcome<string> {
    match a
    case Constant(_, _, text) => Got(text)
    case Ref(i) =>
      if g.At(i).Choice? then
        var mode :- ChoiceMode(g, u, c, i);
        Got(TriText(mode))
      else
        var v :- Field(c, StrVal(i));
        Got(TextOf(v))
  }

  function AtomKind(g: Config, a: Atom): Kind {
    match a case Constant(kind, _, _) => kind case Ref(i) => g.At(i).kind
  }

  // _sym_to_num; None for a ValueError
  function AtomNumber(g: Config, u: User, c: Cache, a: Atom): Outcome<Option<int>> {
    if AtomKind(g, a) == Bool || AtomKind(g, a) == Tristate then
      var tri :- AtomTri(g, u, c, a);
      Got(Some(tri))
    else
      var text :- AtomText(g, u, c, a);
      Got(g.notation.parse(AtomKind(g, a), text))
  }

  // _strcmp
  function StrCmp(x: string, y: string): int {
    if x == "" then (if y == "" then 0 else -1)
    else if y == "" || y[0] < x[0] then 1
    else if x[0] < y[0] then -1
    else StrCmp(x[1..], y[1..])
  }

  function CompareText(g: Config, u: User, c: Cache, a: Atom, b: Atom): Outcome<int> {
    var x :- AtomText(g, u, c, a);
    var y :- AtomText(g, u, c, b);
    Got(StrCmp(x, y))
  }

  // Strings, and operands that are no numbers, are compared as texts.
  function Compare(g: Config, u: User, c: Cache, a: Atom, b: Atom): Outcome<int> {
    if AtomKind(g, a) == Text && AtomKind(g, b) == Text then CompareText(g, u, c, a, b)
    else
      var x :- AtomNumber(g, u, c, a);
      if x == None then CompareText(g, u, c, a, b) else
        var y :- AtomNumber(g, u, c, b);
        if y == None then CompareText(g, u, c, a, b) else Got(x.value - y.value)
  }

  function Holds(comparison: Comparison, order: int): Tri {
    if match comparison
       case Equal => order == 0
       case Unequal => order != 0
       case Less => order < 0
       case LessEqual => order <= 0
       case Greater => order > 0
       case GreaterEqual => order >= 0
    then 2 else 0
  }

  // expr_value
  function ExprValue(g: Config, u: User, c: Cache, e: Expr): Outcome<Tri> {
    match e
    case Leaf(a) => AtomTri(g, u, c, a)
    case And(l, r) =>
      var x :- ExprValue(g, u, c, l);
      if x == 0 then Got(0) else
        var y :- ExprValue(g, u, c, r);
        Got(Min(x, y))
    case Or(l, r) =>
      var x :- ExprValue(g, u, c, l);
      if x == 2 then Got(2) else
        var y :- ExprValue(g, u, c, r);
        Got(Max(x, y))
    case Not(o) =>
      var x :- ExprValue(g, u, c, o);
      Got(2 - x)
    case Relation(comparison, a, b) =>
      var order :- Compare(g, u, c, a, b);
      Got(Holds(comparison, order))
  }

  // The loop over the prompts in _visibility
  function PromptVis(g: Config, u: User, c: Cache, prompts: seq<Expr>, vis: Tri): Outcome<Tri> {
    if prompts == [] then Got(vis) else
      var v :- ExprValue(g, u, c, prompts[0]);
      PromptVis(g, u, c, prompts[1..], Max(vis, v))
  }

  // What the choice makes of the visibility of one of its symbols
  function VisInChoice(g: Config, u: User, c: Cache, kind: Kind, ch: Id, vis: Tri): Outcome<Tri> {
    if g.At(ch).kind == Tristate && kind != Tristate then
      var mode :- ChoiceMode(g, u, c, ch);
      Got(if mode != 2 then 0 else vis)
    else if kind == Tristate && vis == 1 then
      var mode :- ChoiceMode(g, u, c, ch);
      Got(if mode == 2 then 0 else vis)
    else Got(vis)
  }

  // _visibility
  function Visibility(g: Config, u: User, c: Cache, i: Id): Outcome<Tri> {
    var item := g.At(i);
    var shown :- PromptVis(g, u, c, item.prompts, 0);
    var vis :- if item.Symbol? && item.choice.Some? then VisInChoice(g, u, c, item.kind, item.choice.value, shown)
               else Got(shown);
    if vis != 1 then Got(vis)
    else if item.kind != Tristate then Got(2)
    else
      var isBool :- if item.Choice? then ChoiceIsBool(g, c, i) else SymbolIsBool(g, u, c, i);
      Got(if isBool then 2 else 1)
  }

  // The loop over the defaults in Symbol.tri_value
  function DefaultTri(g: Config, u: User, c: Cache, defaults: seq<Default>): Outcome<Tri> {
    if defaults == [] then Got(0) else
      var dep :- ExprValue(g, u, c, defaults[0].cond);
      if dep == 0 then DefaultTri(g, u, c, defaults[1..]) else
        var v :- ExprValue(g, u, c, defaults[0].value);
        Got(Min(v, dep))
  }

  // The value of a symbol outside choices before selects: its user value if it is visible, else its
  // default, or what an imply asks for if the direct dependencies allow it
  function OwnTri(g: Config, u: User, c: Cache, i: Id, vis: Tri): Outcome<Tri>
    requires g.At(i).Symbol?
  {
    var item := g.At(i);
    if vis != 0 && i in u.values then Got(Min(TriOf(u.values[i]), vis)) else
      var value :- DefaultTri(g, u, c, item.defaults);
      var weak :- ExprValue(g, u, c, item.weakRevDep);
      if weak == 0 then Got(value) else
        var direct :- ExprValue(g, u, c, item.directDep);
        Got(if direct != 0 then Max(weak, value) else value)
  }

  // Symbol.tri_value outside choices
  function FreeTri(g: Config, u: User, c: Cache, i: Id, vis: Tri): Outcome<Tri>
    requires g.At(i).Symbol?
  {
    var item := g.At(i);
    var own :- OwnTri(g, u, c, i, vis);
    var rev :- ExprValue(g, u, c, item.revDep);
    // The direct dependencies are read for a warning only.
    var _ :- if rev != 0 then ExprValue(g, u, c, item.directDep) else Got(0);
    var value := Max(rev, own);
    if value != 1 then Got(value) else
      var isBool :- SymbolIsBool(g, u, c, i);
      if isBool then Got(2) else
        var weak :- ExprValue(g, u, c, item.weakRevDep);
        Got(if weak == 2 then 2 else 1)
  }

  // Symbol.tri_value in a choice
  function ChoiceTri(g: Config, u: User, c: Cache, i: Id, ch: Id, vis: Tri): Outcome<Tri> {
    if vis == 2 then
      var pick :- Field(c, Sel(ch));
      Got(if pick == Pick(Some(i)) then 2 else 0)
    else Got(if vis != 0 && i in u.values && TriOf(u.values[i]) != 0 then 1 else 0)
  }

  // Symbol.tri_value
  function SymbolTri(g: Config, u: User, c: Cache, i: Id): Outcome<Tri> {
    var item := g.At(i);
    if item.Choice? || (item.kind != Bool && item.kind != Tristate) then Got(0) else
      var vis :- FieldTri(c, Vis(i));
      if item.choice == None then FreeTri(g, u, c, i, vis) else ChoiceTri(g, u, c, i, item.choice.value, vis)
  }

  datatype Bounds = Bounds(low: int, high: int)

  function BoundOf(g: Config, kind: Kind, text: string): int {
    var n := g.notation.parse(kind, text);
    if n.Some? then n.value else 0
  }

  // The loop over the ranges in Symbol.str_value.  A well-formed bound is read twice by the source.
  function ActiveRange(g: Config, u: User, c: Cache, kind: Kind, ranges: seq<Range>): Outcome<Option<Bounds>> {
    if ranges == [] then Got(None) else
      var on :- ExprValue(g, u, c, ranges[0].cond);
      if on == 0 then ActiveRange(g, u, c, kind, ranges[1..]) else
        var low :- AtomText(g, u, c, ranges[0].low);
        var high :- AtomText(g, u, c, ranges[0].high);
        Got(Some(Bounds(BoundOf(g, kind, low), BoundOf(g, kind, high))))
  }

  // The loop over the defaults in Symbol.str_value; None if there is no active default
  function DefaultText(g: Config, u: User, c: Cache, defaults: seq<Default>): Outcome<Option<string>> {
    if defaults == [] then Got(None) else
      var on :- ExprValue(g, u, c, defaults[0].cond);
      if on == 0 then DefaultText(g, u, c, defaults[1..]) else
        var text :- if defaults[0].value.Leaf? then AtomText(g, u, c, defaults[0].value.atom) else Got("");
        Got(Some(text))
  }

  function Within(n: int, range: Option<Bounds>): bool {
    range == None || range.value.low <= n <= range.value.high
  }

  // The default of an int or hex symbol, moved into the active range
  function Clamped(g: Config, kind: Kind, text: Option<string>, range: Option<Bounds>): string {
    var n := if text.Some? then BoundOf(g, kind, text.value) else 0;
    if range.Some? && n < range.value.low then g.notation.render(kind, range.value.low)
    else if range.Some? && n > range.value.high then g.notation.render(kind, range.value.high)
    else if text.Some? then text.value else ""
  }

  function UserText(u: User, i: Id): string { if i in u.values then TextOf(u.values[i]) else "" }

  // Symbol.str_value
  function SymbolText(g: Config, u: User, c: Cache, i: Id): Outcome<string> {
    var item := g.At(i);
    if item.Choice? then Got("")
    else if item.kind == Bool || item.kind == Tristate then
      var tri :- FieldTri(c, TriVal(i));
      Got(TriText(tri))
    else if item.kind == Unknown then Got(item.name)
    else
      var vis :- FieldTri(c, Vis(i));
      if item.kind == Text then
        if vis != 0 && i in u.values then Got(UserText(u, i)) else
          var text :- DefaultText(g, u, c, item.defaults);
          Got(if text.Some? then text.value else "")
      else
        var range :- ActiveRange(g, u, c, item.kind, item.ranges);
        if vis != 0 && UserText(u, i) != "" && Within(BoundOf(g, item.kind, UserText(u, i)), range)
        then Got(UserText(u, i))
        else
          var text :- DefaultText(g, u, c, item.defaults);
          Got(Clamped(g, item.kind, text, range))
  }

  // The first loop of _selection_from_defaults
  function DefaultPick(g: Config, u: User, c: Cache, picks: seq<ChoiceDefault>): Outcome<Option<Id>> {
    if picks == [] then Got(None) else
      var on :- ExprValue(g, u, c, picks[0].cond);
      var vis :- if on != 0 then FieldTri(c, Vis(picks[0].sym)) else Got(0);
      if vis != 0 then Got(Some(picks[0].sym)) else DefaultPick(g, u, c, picks[1..])
  }

  // The second loop of _selection_from_defaults
  function FirstVisible(c: Cache, syms: seq<Id>): Outcome<Option<Id>> {
    if syms == [] then Got(None) else
      var vis :- FieldTri(c, Vis(syms[0]));
      if vis != 0 then Got(Some(syms[0])) else FirstVisible(c, syms[1..])
  }

  // Choice._selection
  function Selection(g: Config, u: User, c: Cache, ch: Id): Outcome<Option<Id>> {
    var item := g.At(ch);
    if item.Symbol? then Got(None) else
      var mode :- ChoiceMode(g, u, c, ch);
      if mode != 2 then Got(None) else
        var vis :- if ch in u.selections then FieldTri(c, Vis(u.selections[ch])) else Got(0);
        if vis != 0 then Got(Some(u.selections[ch])) else
          var pick :- DefaultPick(g, u, c, item.picks);
          if pick.Some? then Got(pick) else FirstVisible(c, item.syms)
  }

  // What a getter computes for one cached field.
  function Getter(g: Config, u: User, c: Cache, n: Node): Outcome<Value> {
    match n
    case Vis(i) => var v :- Visibility(g, u, c, i); Got(T(v))
    case Sel(i) => var p :- Selection(g, u, c, i); Got(Pick(p))
    case TriVal(i) => var v :- SymbolTri(g, u, c, i); Got(T(v))
    case StrVal(i) => var s :- SymbolText(g, u, c, i); Got(S(s))
  }

  // ---------------------------------------------------------------- what a getter reads

  function Level(n: Node): nat {
    match n case Vis(_) => 0 case Sel(_) => 1 case TriVal(_) => 1 case StrVal(_) => 2
  }

  // The type, and so the value, of a tristate symbol or choice depends on whether modules are on.
  ghost predicate NeedsModules(g: Config, k: Id) {
    || g.At(k).kind == Tristate
    || exists ch: Id :: Dependent(g, k, ch) && g.At(ch).Choice? && g.At(ch).kind == Tristate
  }

  // The getter of n may read field m.
  ghost predicate Reads(g: Config, n: Node, m: Node) {
    || (m.id == n.id && Level(m) < Level(n))
    || (Dependent(g, n.id, m.id) && if g.At(m.id).Choice? then m.Vis? else m.TriVal? || m.StrVal?)
    || (m == TriVal(g.modules) && NeedsModules(g, n.id))
    || (n.Sel? && g.At(n.id).Choice? && m.Vis? && m.id in g.At(n.id).syms)
    || (n.TriVal? && g.At(n.id).Symbol? && g.At(n.id).choice == Some(m.id) && m.Sel?)
  }

  // A read goes to the item itself, to an item it depends on, or to MODULES.
  lemma ReadsAreDependencies(g: Config, n: Node, m: Node)
    requires WellFormed(g) && Reads(g, n, m)
    ensures m.id == n.id || DependsOn(g, n.id, m.id) || m == TriVal(g.modules)
  {}

  predicate SameEntry<V(==)>(a: map<Id, V>, b: map<Id, V>, i: Id) {
    (i in a <==> i in b) && (i in a ==> a[i] == b[i])
  }

  // The user's values for other items that the getter of n looks at.
  ghost predicate SameUser(g: Config, u: User, u': User, n: Node) {
    forall j: Id :: g.At(j).Choice? && Dependent(g, n.id, j) ==> SameEntry(u.values, u'.values, j)
  }

  // The user's values for the item itself, which have no effect on an invisible symbol.
  predicate SameOwn(g: Config, u: User, u': User, c: Cache, n: Node) {
    || (SameEntry(u.values, u'.values, n.id) && SameEntry(u.selections, u'.selections, n.id))
    || (g.At(n.id).Symbol? && (Vis(n.id) in c ==> TriOf(c[Vis(n.id)]) == 0))
  }

  // Two situations that the getter of n cannot tell apart, except that the second may have more
  // cached values.
  ghost predicate Alike(g: Config, u: User, u': User, c: Cache, c': Cache, n: Node) {
    && WellFormed(g) && SameUser(g, u, u', n)
    && forall m :: Reads(g, n, m) && m in c ==> m in c' && c'[m] == c[m]
  }

  // The two runs of the getter are the same up to the first field that is missing in both.
  ghost predicate Steady<V>(g: Config, c: Cache, c': Cache, n: Node, x: Outcome<V>, y: Outcome<V>) {
    && (x.Got? ==> y == x)
    && (x.Need? ==> Reads(g, n, x.node) && x.node !in c && (x.node !in c' ==> y == x))
  }

  // User selections are symbols of their choice.
  ghost predicate UserOk(g: Config, u: User) {
    forall ch :: ch in u.selections && g.At(ch).Choice? ==> u.selections[ch] in g.At(ch).syms
  }

  lemma FieldSteady(g: Config, u: User, u': User, c: Cache, c': Cache, n: Node, m: Node)
    requires Alike(g, u, u', c, c', n) && Reads(g, n, m)
    ensures Steady(g, c, c', n, Field(c, m), Field(c', m)) && Steady(g, c, c', n, FieldTri(c, m), FieldTri(c', m))
  {}

  lemma ChoiceModeSteady(g: Config, u: User, u': User, c: Cache, c': Cache, n: Node, ch: Id)
    requires Alike(g, u, u', c, c', n)
    requires Reads(g, n, Vis(ch)) && SameEntry(u.values, u'.values, ch)
    requires g.At(ch).kind == Tristate ==> NeedsModules(g, n.id)
    ensures Steady(g, c, c', n, ChoiceIsBool(g, c, ch), ChoiceIsBool(g, c', ch))
    ensures Steady(g, c, c', n, ChoiceMode(g, u, c, ch), ChoiceMode(g, u', c', ch))
  {
    hide Alike, Reads, NeedsModules;
    if g.At(ch).kind == Tristate {
      ModulesSteady(g, u, u', c, c', n);
    }
    FieldSteady(g, u, u', c, c', n, Vis(ch));
  }

  lemma SymbolIsBoolSteady(g: Config, u: User, u': User, c: Cache, c': Cache, n: Node)
    requires Alike(g, u, u', c, c', n) && g.At(n.id).Symbol?
    ensures Steady(g, c, c', n, SymbolIsBool(g, u, c, n.id), SymbolIsBool(g, u', c', n.id))
  {
    hide Alike, Dependent;
    if g.At(n.id).kind == Tristate {
      ModulesSteady(g, u, u', c, c', n);
    }
    if g.At(n.id).choice.Some? {
      OwnChoice(g, u, u', c, c', n);
      ChoiceModeSteady(g, u, u', c, c', n, g.At(n.id).choice.value);
    }
  }

  lemma ModulesSteady(g: Config, u: User, u': User, c: Cache, c': Cache, n: Node)
    requires Alike(g, u, u', c, c', n) && NeedsModules(g, n.id)
    ensures Steady(g, c, c', n, FieldTri(c, TriVal(g.modules)), FieldTri(c', TriVal(g.modules)))
  {}

  lemma OwnChoice(g: Config, u: User, u': User, c: Cache, c': Cache, n: Node)
    requires Alike(g, u, u', c, c', n) && g.At(n.id).Symbol? && g.At(n.id).choice.Some?
    ensures var ch := g.At(n.id).choice.value;
            && Reads(g, n, Vis(ch)) && SameEntry(u.values, u'.values, ch)
            && (g.At(ch).kind == Tristate ==> NeedsModules(g, n.id))
  {}

  ghost predicate Uses(g: Config, n: Node, e: Expr) {
    forall j: Id :: InExpr(e, j) ==> Dependent(g, n.id, j)
  }

  lemma AtomSteady(g: Config, u: User, u': User, c: Cache, c': Cache, n: Node, a: Atom)
    requires Alike(g, u, u', c, c', n) && (a.Ref? ==> Dependent(g, n.id, a.id))
    ensures Steady(g, c, c', n, AtomTri(g, u, c, a), AtomTri(g, u', c', a))
    ensures Steady(g, c, c', n, AtomText(g, u, c, a), AtomText(g, u', c', a))
    ensures Steady(g, c, c', n, AtomNumber(g, u, c, a), AtomNumber(g, u', c', a))
  {
    hide Alike, Reads, AtomTri, AtomText, AtomKind, Dependent;
    AtomValueSteady(g, u, u', c, c', n, a);
  }

  lemma AtomValueSteady(g: Config, u: User, u': User, c: Cache, c': Cache, n: Node, a: Atom)
    requires Alike(g, u, u', c, c', n) && (a.Ref? ==> Dependent(g, n.id, a.id))
    ensures Steady(g, c, c', n, AtomTri(g, u, c, a), AtomTri(g, u', c', a))
    ensures Steady(g, c, c', n, AtomText(g, u, c, a), AtomText(g, u', c', a))
  {
    hide Alike, WellFormed, ChoiceMode;
    if a.Ref? {
      if g.At(a.id).Choice? {
        SameMode(g, u, u', c, c', n, a.id);
        ChoiceModeSteady(g, u, u', c, c', n, a.id);
      } else {
        FieldSteady(g, u, u', c, c', n, TriVal(a.id));
        FieldSteady(g, u, u', c, c', n, StrVal(a.id));
      }
    }
  }

  lemma SameMode(g: Config, u: User, u': User, c: Cache, c': Cache, n: Node, ch: Id)
    requires Alike(g, u, u', c, c', n) && Dependent(g, n.id, ch) && g.At(ch).Choice?
    ensures SameEntry(u.values, u'.values, ch)
  {}

  lemma CompareTextSteady(g: Config, u: User, u': User, c: Cache, c': Cache, n: Node, a: Atom, b: Atom)
    requires Alike(g, u, u', c, c', n)
    requires (a.Ref? ==> Dependent(g, n.id, a.id)) && (b.Ref? ==> Dependent(g, n.id, b.id))
    ensures Steady(g, c, c', n, CompareText(g, u, c, a, b), CompareText(g, u', c', a, b))
  {
    hide Alike, Dependent, Reads, AtomText;
    AtomSteady(g, u, u', c, c', n, a);
    AtomSteady(g, u, u', c, c', n, b);
  }

  lemma CompareSteady(g: Config, u: User, u': User, c: Cache, c': Cache, n: Node, a: Atom, b: Atom)
    requires Alike(g, u, u', c, c', n)
    requires (a.Ref? ==> Dependent(g, n.id, a.id)) && (b.Ref? ==> Dependent(g, n.id, b.id))
    ensures Steady(g, c, c', n, Compare(g, u, c, a, b), Compare(g, u', c', a, b))
  {
    hide Alike, Dependent, Reads, CompareText, AtomText, AtomTri, AtomNumber, AtomKind;
    CompareTextSteady(g, u, u', c, c', n, a, b);
    AtomSteady(g, u, u', c, c', n, a);
    AtomSteady(g, u, u', c, c', n, b);
  }

  lemma PartsUsed(g: Config, n: Node, e: Expr)
    requires Uses(g, n, e)
    ensures (e.And? || e.Or?) ==> Uses(g, n, e.left) && Uses(g, n, e.right)
    ensures e.Not? ==> Uses(g, n, e.operand)
    ensures e.Leaf? && e.atom.Ref? ==> Dependent(g, n.id, e.atom.id)
    ensures e.Relation? && e.first.Ref? ==> Dependent(g, n.id, e.first.id)
    ensures e.Relation? && e.second.Ref? ==> Dependent(g, n.id, e.second.id)
  {
    hide Dependent;
    forall j: Id | (e.And? || e.Or?) && (InExpr(e.left, j) || InExpr(e.right, j)) ensures Dependent(g, n.id, j) {
      assert InExpr(e, j);
    }
    forall j: Id | e.Not? && InExpr(e.operand, j) ensures Dependent(g, n.id, j) {
      assert InExpr(e, j);
    }
    assert e.Leaf? && e.atom.Ref? ==> InExpr(e, e.atom.id);
    assert e.Relation? && e.first.Ref? ==> InExpr(e, e.first.id);
    assert e.Relation? && e.second.Ref? ==> InExpr(e, e.second.id);
  }

  lemma {:induction false} ExprSteady(g: Config, u: User, u': User, c: Cache, c': Cache, n: Node, e: Expr)
    requires Alike(g, u, u', c, c', n) && Uses(g, n, e)
    ensures Steady(g, c, c', n, ExprValue(g, u, c, e), ExprValue(g, u', c', e))
  {
    hide Alike, Dependent, Reads, AtomTri, Compare, Uses, Min, Max;
    PartsUsed(g, n, e);
    match e
    case Leaf(a) => AtomSteady(g, u, u', c, c', n, a);
    case And(l, r) =>
      ExprSteady(g, u, u', c, c', n, l);
      ExprSteady(g, u, u', c, c', n, r);
    case Or(l, r) =>
      ExprSteady(g, u, u', c, c', n, l);
      ExprSteady(g, u, u', c, c', n, r);
    case Not(o) => ExprSteady(g, u, u', c, c', n, o);
    case Relation(_, a, b) => CompareSteady(g, u, u', c, c', n, a, b);
  }

  lemma {:induction false} PromptVisSteady(g: Config, u: User, u': User, c: Cache, c': Cache, n: Node, es: seq<Expr>,
            vis: Tri)
    requires Alike(g, u, u', c, c', n) && forall e :: e in es ==> Uses(g, n, e)
    ensures Steady(g, c, c', n, PromptVis(g, u, c, es, vis), PromptVis(g, u', c', es, vis))
    decreases |es|
  {
    hide Alike, Reads, ExprValue, Uses;
    if es != [] {
      ExprSteady(g, u, u', c, c', n, es[0]);
      var v := ExprValue(g, u, c, es[0]);
      if v.Got? {
        PromptVisSteady(g, u, u', c, c', n, es[1..], Max(vis, v.value));
      }
    }
  }

  lemma {:induction false} DefaultsSteady(g: Config, u: User, u': User, c: Cache, c': Cache, n: Node, ds: seq<Default>)
    requires Alike(g, u, u', c, c', n) && forall d :: d in ds ==> Uses(g, n, d.cond) && Uses(g, n, d.value)
    ensures Steady(g, c, c', n, DefaultTri(g, u, c, ds), DefaultTri(g, u', c', ds))
    ensures Steady(g, c, c', n, DefaultText(g, u, c, ds), DefaultText(g, u', c', ds))
    decreases |ds|
  {
    hide Alike, Reads, ExprValue, Uses, AtomText;
    if ds != [] {
      assert ds[0] in ds;
      ExprSteady(g, u, u', c, c', n, ds[0].cond);
      ExprSteady(g, u, u', c, c', n, ds[0].value);
      if ds[0].value.Leaf? {
        PartsUsed(g, n, ds[0].value);
        AtomSteady(g, u, u', c, c', n, ds[0].value.atom);
      }
      DefaultsSteady(g, u, u', c, c', n, ds[1..]);
    }
  }

  lemma {:induction false} RangeSteady(g: Config, u: User, u': User, c: Cache, c': Cache, n: Node, kind: Kind,
            rs: seq<Range>)
    requires Alike(g, u, u', c, c', n)
    requires forall r :: r in rs ==> Uses(g, n, r.cond) && Uses(g, n, Leaf(r.low)) && Uses(g, n, Leaf(r.high))
    ensures Steady(g, c, c', n, ActiveRange(g, u, c, kind, rs), ActiveRange(g, u', c', kind, rs))
    decreases |rs|
  {
    hide Alike, Reads, ExprValue, Uses, AtomText, BoundOf;
    if rs != [] {
      assert rs[0] in rs;
      ExprSteady(g, u, u', c, c', n, rs[0].cond);
      PartsUsed(g, n, Leaf(rs[0].low));
      PartsUsed(g, n, Leaf(rs[0].high));
      AtomSteady(g, u, u', c, c', n, rs[0].low);
      AtomSteady(g, u, u', c, c', n, rs[0].high);
      RangeSteady(g, u, u', c, c', n, kind, rs[1..]);
    }
  }

  // All the expressions of an item count as dependencies.
  lemma OwnExprs(g: Config, n: Node)
    requires Defined(g, n.id)
    ensures forall e :: e in g.At(n.id).prompts ==> Uses(g, n, e)
    ensures g.At(n.id).Symbol? ==>
      && var s := g.At(n.id);
      && Uses(g, n, s.revDep) && Uses(g, n, s.weakRevDep) && Uses(g, n, s.directDep)
      && (forall d :: d in s.defaults ==> Uses(g, n, d.cond) && Uses(g, n, d.value))
      && (forall r :: r in s.ranges ==> Uses(g, n, r.cond) && Uses(g, n, Leaf(r.low)) && Uses(g, n, Leaf(r.high)))
    ensures g.At(n.id).Choice? ==> forall d :: d in g.At(n.id).picks ==> Uses(g, n, d.cond)
  {}

  lemma VisInChoiceSteady(g: Config, u: User, u': User, c: Cache, c': Cache, n: Node, vis: Tri)
    requires Alike(g, u, u', c, c', n) && g.At(n.id).Symbol? && g.At(n.id).choice.Some?
    ensures var ch := g.At(n.id).choice.value; var kind := g.At(n.id).kind;
            Steady(g, c, c', n, VisInChoice(g, u, c, kind, ch, vis), VisInChoice(g, u', c', kind, ch, vis))
  {
    hide Alike, Reads, ChoiceMode;
    OwnChoice(g, u, u', c, c', n);
    ChoiceModeSteady(g, u, u', c, c', n, g.At(n.id).choice.value);
  }

  lemma VisibilitySteady(g: Config, u: User, u': User, c: Cache, c': Cache, n: Node)
    requires Defined(g, n.id)
    requires Alike(g, u, u', c, c', n) && n.Vis?
    ensures Steady(g, c, c', n, Visibility(g, u, c, n.id), Visibility(g, u', c', n.id))
  {
    hide Alike, Reads, Uses, PromptVis, VisInChoice, ChoiceIsBool, SymbolIsBool;
    var item := g.At(n.id);
    OwnExprs(g, n);
    PromptVisSteady(g, u, u', c, c', n, item.prompts, 0);
    var shown := PromptVis(g, u, c, item.prompts, 0);
    if item.Symbol? {
      SymbolIsBoolSteady(g, u, u', c, c', n);
      if item.choice.Some? && shown.Got? {
        VisInChoiceSteady(g, u, u', c, c', n, shown.value);
      }
    } else {
      ChoiceIsBoolSteady(g, u, u', c, c', n, n.id);
    }
  }

  lemma ChoiceIsBoolSteady(g: Config, u: User, u': User, c: Cache, c': Cache, n: Node, ch: Id)
    requires Alike(g, u, u', c, c', n) && ch == n.id
    ensures Steady(g, c, c', n, ChoiceIsBool(g, c, ch), ChoiceIsBool(g, c', ch))
  {
    hide Alike, Reads;
    if g.At(ch).kind == Tristate {
      ModulesSteady(g, u, u', c, c', n);
    }
  }

  lemma OwnTriSteady(g: Config, u: User, u': User, c: Cache, c': Cache, n: Node, vis: Tri)
    requires Defined(g, n.id)
    requires Alike(g, u, u', c, c', n) && g.At(n.id).Symbol?
    requires vis != 0 ==> SameEntry(u.values, u'.values, n.id)
    ensures Steady(g, c, c', n, OwnTri(g, u, c, n.id, vis), OwnTri(g, u', c', n.id, vis))
  {
    hide Alike, Reads, Uses, DefaultTri, ExprValue, Min, Max;
    var item := g.At(n.id);
    OwnExprs(g, n);
    DefaultsSteady(g, u, u', c, c', n, item.defaults);
    ExprSteady(g, u, u', c, c', n, item.weakRevDep);
    ExprSteady(g, u, u', c, c', n, item.directDep);
  }

  lemma FreeTriSteady(g: Config, u: User, u': User, c: Cache, c': Cache, n: Node, vis: Tri)
    requires Defined(g, n.id)
    requires Alike(g, u, u', c, c', n) && g.At(n.id).Symbol?
    requires vis != 0 ==> SameEntry(u.values, u'.values, n.id)
    ensures Steady(g, c, c', n, FreeTri(g, u, c, n.id, vis), FreeTri(g, u', c', n.id, vis))
  {
    hide Alike, Reads, Uses, OwnTri, ExprValue, SymbolIsBool, Max;
    var item := g.At(n.id);
    OwnExprs(g, n);
    OwnTriSteady(g, u, u', c, c', n, vis);
    ExprSteady(g, u, u', c, c', n, item.revDep);
    ExprSteady(g, u, u', c, c', n, item.weakRevDep);
    ExprSteady(g, u, u', c, c', n, item.directDep);
    SymbolIsBoolSteady(g, u, u', c, c', n);
  }

  lemma SymbolTriSteady(g: Config, u: User, u': User, c: Cache, c': Cache, n: Node)
    requires Defined(g, n.id)
    requires Alike(g, u, u', c, c', n) && n.TriVal?
    requires SameOwn(g, u, u', c, n)
    ensures Steady(g, c, c', n, SymbolTri(g, u, c, n.id), SymbolTri(g, u', c', n.id))
  {
    hide Alike, FreeTri, Dependent;
    var item := g.At(n.id);
    if item.Symbol? {
      FieldSteady(g, u, u', c, c', n, Vis(n.id));
      var vis := FieldTri(c, Vis(n.id));
      if vis.Got? {
        FreeTriSteady(g, u, u', c, c', n, vis.value);
      }
      if item.choice.Some? {
        FieldSteady(g, u, u', c, c', n, Sel(item.choice.value));
      }
    }
  }

  lemma SymbolTextSteady(g: Config, u: User, u': User, c: Cache, c': Cache, n: Node)
    requires Defined(g, n.id)
    requires Alike(g, u, u', c, c', n) && n.StrVal?
    requires SameOwn(g, u, u', c, n)
    ensures Steady(g, c, c', n, SymbolText(g, u, c, n.id), SymbolText(g, u', c', n.id))
  {
    hide Alike, Uses, DefaultText, ActiveRange, Clamped, Within, BoundOf, Dependent;
    var item := g.At(n.id);
    if item.Symbol? {
      OwnExprs(g, n);
      FieldSteady(g, u, u', c, c', n, Vis(n.id));
      FieldSteady(g, u, u', c, c', n, TriVal(n.id));
      DefaultsSteady(g, u, u', c, c', n, item.defaults);
      RangeSteady(g, u, u', c, c', n, item.kind, item.ranges);
    }
  }

  lemma {:induction false} DefaultPickSteady(g: Config, u: User, u': User, c: Cache, c': Cache, n: Node,
            ps: seq<ChoiceDefault>)
    requires Alike(g, u, u', c, c', n)
    requires forall d :: d in ps ==> Uses(g, n, d.cond) && Reads(g, n, Vis(d.sym))
    ensures Steady(g, c, c', n, DefaultPick(g, u, c, ps), DefaultPick(g, u', c', ps))
    decreases |ps|
  {
    hide Alike, Reads, ExprValue, Uses;
    if ps != [] {
      assert ps[0] in ps;
      ExprSteady(g, u, u', c, c', n, ps[0].cond);
      FieldSteady(g, u, u', c, c', n, Vis(ps[0].sym));
      DefaultPickSteady(g, u, u', c, c', n, ps[1..]);
    }
  }

  lemma {:induction false} FirstVisibleSteady(g: Config, u: User, u': User, c: Cache, c': Cache, n: Node, syms: seq<Id>)
    requires Alike(g, u, u', c, c', n) && forall s :: s in syms ==> Reads(g, n, Vis(s))
    ensures Steady(g, c, c', n, FirstVisible(c, syms), FirstVisible(c', syms))
    decreases |syms|
  {
    hide Alike, Reads;
    if syms != [] {
      FieldSteady(g, u, u', c, c', n, Vis(syms[0]));
      FirstVisibleSteady(g, u, u', c, c', n, syms[1..]);
    }
  }

  lemma SelectionSteady(g: Config, u: User, u': User, c: Cache, c': Cache, n: Node)
    requires Defined(g, n.id)
    requires Alike(g, u, u', c, c', n) && n.Sel? && UserOk(g, u)
    requires SameOwn(g, u, u', c, n)
    ensures Steady(g, c, c', n, Selection(g, u, c, n.id), Selection(g, u', c', n.id))
  {
    hide Uses, DefaultPick, FirstVisible, ChoiceMode, Dependent, Alike;
    var item := g.At(n.id);
    if item.Choice? {
      OwnExprs(g, n);
      ChoiceModeSteady(g, u, u', c, c', n, n.id);
      PicksAreSymbols(g, u, u', c, c', n);
      DefaultPickSteady(g, u, u', c, c', n, item.picks);
      FirstVisibleSteady(g, u, u', c, c', n, item.syms);
      if n.id in u.selections {
        FieldSteady(g, u, u', c, c', n, Vis(u.selections[n.id]));
      }
    }
  }

  lemma PicksAreSymbols(g: Config, u: User, u': User, c: Cache, c': Cache, n: Node)
    requires Alike(g, u, u', c, c', n) && n.Sel? && g.At(n.id).Choice?
    ensures forall d :: d in g.At(n.id).picks ==> Reads(g, n, Vis(d.sym))
  {}

  // A getter finds the same value in a situation that looks alike to it, and what it misses in the
  // cache is a field it may read.
  lemma GetterSteady(g: Config, u: User, u': User, c: Cache, c': Cache, n: Node)
    requires Alike(g, u, u', c, c', n) && UserOk(g, u)
    requires SameOwn(g, u, u', c, n)
    ensures Steady(g, c, c', n, Getter(g, u, c, n), Getter(g, u', c', n))
  {
    hide Alike, Reads, Visibility, Selection, SymbolTri, SymbolText, UserOk, WellFormed;
    if !Defined(g, n.id) {
      WellFormedFromAlike(g, u, u', c, c', n);
      FixedGetter(g, u, u', c, c', n);
    } else {
      match n
      case Vis(_) => VisibilitySteady(g, u, u', c, c', n);
      case Sel(_) => SelectionSteady(g, u, u', c, c', n);
      case TriVal(_) => SymbolTriSteady(g, u, u', c, c', n);
      case StrVal(_) => SymbolTextSteady(g, u, u', c, c', n);
    }
  }

  lemma WellFormedFromAlike(g: Config, u: User, u': User, c: Cache, c': Cache, n: Node)
    requires Alike(g, u, u', c, c', n)
    ensures WellFormed(g)
  {}

  // Fields whose value is the same in every situation; they can be cached when the item's visibility
  // is not.
  predicate Fixed(g: Config, n: Node) {
    match g.At(n.id)
    case Choice(_, _, _, _, _) => n.TriVal? || n.StrVal?
    case Symbol(kind, _, defined, _, _, _, _, _, _, _) =>
      n.Sel? || (n.TriVal? && kind != Bool && kind != Tristate) || (n.StrVal? && kind == Unknown) || !defined
  }

  lemma FixedGetter(g: Config, u: User, u': User, c: Cache, c': Cache, n: Node)
    requires WellFormed(g) && Fixed(g, n)
    ensures Getter(g, u, c, n).Got? && Getter(g, u', c', n) == Getter(g, u, c, n)
  {}

  // ---------------------------------------------------------------- coherence

  // Every cached value is what its getter finds in the rest of the cache.
  ghost predicate Coherent(g: Config, u: User, c: Cache) {
    forall n :: n in c ==> Getter(g, u, c, n) == Got(c[n])
  }

  lemma CachedIsGot(g: Config, u: User, c: Cache, n: Node)
    requires Coherent(g, u, c) && n in c
    ensures Getter(g, u, c, n) == Got(c[n])
  {}

  // What the getter misses is a field it may read.
  lemma MissingIsRead(g: Config, u: User, c: Cache, n: Node)
    requires WellFormed(g) && UserOk(g, u) && Getter(g, u, c, n).Need?
    ensures Reads(g, n, Getter(g, u, c, n).node) && Getter(g, u, c, n).node !in c
  {
    hide WellFormed, UserOk, Getter, Reads;
    assert Alike(g, u, u, c, c, n);
    GetterSteady(g, u, u, c, c, n);
  }

  // Every other cached value is only there if the item's visibility is: the flag that _rec_invalidate
  // relies on.
  lemma VisibilityIsFlag(g: Config, u: User, c: Cache, n: Node)
    requires Coherent(g, u, c) && n in c && !Fixed(g, n)
    ensures Vis(n.id) in c
  {
    hide FreeTri, ChoiceTri, DefaultPick, FirstVisible, DefaultText, ActiveRange, Clamped, PromptVis, VisInChoice;
    assert Getter(g, u, c, n) == Got(c[n]);
    if n.StrVal? && (g.At(n.id).kind == Bool || g.At(n.id).kind == Tristate) {
      assert TriVal(n.id) in c;
      assert Getter(g, u, c, TriVal(n.id)) == Got(c[TriVal(n.id)]);
    }
  }
}
