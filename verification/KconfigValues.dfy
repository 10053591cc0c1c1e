/** What values a right cache holds: what the value, the visibility and the selection of an item have to do
  * with its prompts, defaults, selects and implies, and with what the user has set.
  */
module KconfigValues {
  import opened Wrappers
  import opened KconfigModel
  import opened KconfigGetters
  import opened KconfigEvaluation

  ghost predicate Has(g: Config, u: User, c: Cache, e: Expr, v: Tri) { ExprValue(g, u, c, e) == Got(v) }

  predicate CachedAs(c: Cache, n: Node, v: Tri) { n in c && c[n] == T(v) }

  predicate Visible(c: Cache, i: Id) { CachedAs(c, Vis(i), 1) || CachedAs(c, Vis(i), 2) }

  predicate UserGave(u: User, i: Id, v: Tri) { i in u.values && u.values[i] == T(v) }

  predicate Logical(g: Config, i: Id) { g.At(i).kind == Bool || g.At(i).kind == Tristate }

  // w is the lesser of x and y.
  predicate Lesser(w: Tri, x: Tri, y: Tri) { w <= x && w <= y && (w == x || w == y) }

  // The item can only be n or y.
  ghost predicate ActsAsBool(g: Config, u: User, c: Cache, i: Id) {
    || g.At(i).kind == Bool
    || (g.At(i).kind == Tristate
        && ((g.At(i).Symbol? && g.At(i).choice.Some? && ChoiceMode(g, u, c, g.At(i).choice.value) == Got(2))
            || CachedAs(c, TriVal(g.modules), 0)))
  }

  // ---------------------------------------------------------------- symbols outside choices

  ghost predicate DirectlyMet(g: Config, u: User, c: Cache, i: Id)
    requires g.At(i).Symbol?
  {
    Has(g, u, c, g.At(i).directDep, 1) || Has(g, u, c, g.At(i).directDep, 2)
  }

  predicate UserDecides(u: User, c: Cache, i: Id) { i in u.values && Visible(c, i) }

  // The default at k is the first whose condition is not n, and gives the value w, as far as the condition
  // lets it.
  ghost predicate ActiveDefault(g: Config, u: User, c: Cache, defaults: seq<Default>, k: nat, w: Tri) {
    && k < |defaults| && (forall j :: 0 <= j < k ==> Has(g, u, c, defaults[j].cond, 0))
    && exists cond, value :: Has(g, u, c, defaults[k].cond, cond) && 0 < cond
                             && Has(g, u, c, defaults[k].value, value) && Lesser(w, cond, value)
  }

  // What may give the symbol the value w before selects: the user's value, cut to the visibility; or, if
  // that does not count, the active default, and the implies while the direct dependencies are met.
  ghost predicate OwnSource(g: Config, u: User, c: Cache, i: Id, w: Tri)
    requires g.At(i).Symbol?
  {
    var item := g.At(i);
    || w == 0
    || (exists x, vis :: UserGave(u, i, x) && CachedAs(c, Vis(i), vis) && Lesser(w, x, vis))
    || (!UserDecides(u, c, i) && exists k: nat :: ActiveDefault(g, u, c, item.defaults, k, w))
    || (!UserDecides(u, c, i) && DirectlyMet(g, u, c, i) && Has(g, u, c, item.weakRevDep, w))
  }

  ghost predicate Source(g: Config, u: User, c: Cache, i: Id, w: Tri)
    requires g.At(i).Symbol?
  {
    Has(g, u, c, g.At(i).revDep, w) || OwnSource(g, u, c, i, w)
  }

  // Main theorem: the value is the greatest that one of these gives, where m becomes y if the symbol acts
  // as a bool, or is implied with y.
  lemma ValueIsGreatestSource(g: Config, u: User, c: Cache, i: Id, v: Tri) returns (top: Tri)
    requires Coherent(g, u, c) && CachedAs(c, TriVal(i), v)
    requires g.At(i).Symbol? && g.At(i).choice == None && Logical(g, i)
    ensures Source(g, u, c, i, top) && forall w: Tri :: Source(g, u, c, i, w) ==> w <= top
    ensures v == if top == 1 && (ActsAsBool(g, u, c, i) || Has(g, u, c, g.At(i).weakRevDep, 2)) then 2 else top
  {
    hide Coherent, ExprValue, OwnTri, OwnSource;
    CachedIsGot(g, u, c, TriVal(i));
    var vis := CachedTri(g, u, c, Vis(i));
    var own, rev := OwnTri(g, u, c, i, vis).value, ExprValue(g, u, c, g.At(i).revDep).value;
    top := Max(rev, own);
    OwnIsGreatest(g, u, c, i, vis);
    if TriVal(g.modules) in c {
      var m := CachedTri(g, u, c, TriVal(g.modules));
    }
  }

  // A cached visibility or truth value is n, m or y.
  lemma CachedTri(g: Config, u: User, c: Cache, n: Node) returns (v: Tri)
    requires Coherent(g, u, c) && n in c && (n.Vis? || n.TriVal?)
    ensures CachedAs(c, n, v) && FieldTri(c, n) == Got(v)
  {
    CachedIsGot(g, u, c, n);
    v := c[n].tri;
  }

  lemma OwnIsGreatest(g: Config, u: User, c: Cache, i: Id, vis: Tri)
    requires g.At(i).Symbol? && CachedAs(c, Vis(i), vis) && OwnTri(g, u, c, i, vis).Got?
    ensures var own := OwnTri(g, u, c, i, vis).value;
            OwnSource(g, u, c, i, own) && forall w: Tri :: OwnSource(g, u, c, i, w) ==> w <= own
  {
    hide ExprValue, DefaultTri, ActiveDefault;
    var item := g.At(i);
    var own := OwnTri(g, u, c, i, vis).value;
    if vis != 0 && i in u.values {
      if u.values[i].T? {
        assert UserGave(u, i, u.values[i].tri) && Lesser(own, u.values[i].tri, vis);
      }
    } else {
      DefaultIsActive(g, u, c, item.defaults);
    }
  }

  lemma {:induction false} DefaultIsActive(g: Config, u: User, c: Cache, defaults: seq<Default>)
    requires DefaultTri(g, u, c, defaults).Got?
    ensures var v := DefaultTri(g, u, c, defaults).value;
            && (v == 0 || exists k: nat :: ActiveDefault(g, u, c, defaults, k, v))
            && forall k: nat, w: Tri :: ActiveDefault(g, u, c, defaults, k, w) ==> w == v
  {
    hide ExprValue;
    if defaults != [] {
      var dep := ExprValue(g, u, c, defaults[0].cond).value;
      if dep == 0 {
        DefaultIsActive(g, u, c, defaults[1..]);
        forall k: nat, w: Tri | ActiveDefault(g, u, c, defaults[1..], k, w)
          ensures ActiveDefault(g, u, c, defaults, k + 1, w) {
          forall j | 0 <= j < k + 1 ensures Has(g, u, c, defaults[j].cond, 0) {
            assert j > 0 ==> defaults[j] == defaults[1..][j - 1];
          }
        }
        forall k: nat, w: Tri | ActiveDefault(g, u, c, defaults, k, w)
          ensures k > 0 && ActiveDefault(g, u, c, defaults[1..], k - 1, w) {
          forall j | 0 <= j < k - 1 ensures Has(g, u, c, defaults[1..][j].cond, 0) {
            assert defaults[j + 1] == defaults[1..][j];
          }
        }
      } else {
        var v := DefaultTri(g, u, c, defaults).value;
        assert Lesser(v, dep, ExprValue(g, u, c, defaults[0].value).value);
        assert ActiveDefault(g, u, c, defaults, 0, v);
        forall k: nat, w: Tri | ActiveDefault(g, u, c, defaults, k, w) ensures w == v {
          assert k == 0;
        }
      }
    }
  }

  // What users count on.  Selects bind; implies bind unless the user decides.
  lemma SelectsAndImpliesBind(g: Config, u: User, c: Cache, i: Id, v: Tri, w: Tri)
    requires Coherent(g, u, c) && CachedAs(c, TriVal(i), v)
    requires g.At(i).Symbol? && g.At(i).choice == None && Logical(g, i)
    ensures Has(g, u, c, g.At(i).revDep, w) ==> w <= v
    ensures !UserDecides(u, c, i) && DirectlyMet(g, u, c, i) && Has(g, u, c, g.At(i).weakRevDep, w) ==> w <= v
  {
    hide Coherent, ExprValue, ActiveDefault;
    var top := ValueIsGreatestSource(g, u, c, i, v);
    assert Source(g, u, c, i, w) ==> w <= top;
  }

  // A visible user value counts up to the visibility, and only selects and the promotion of m to y take
  // the symbol further.
  lemma UserValueCounts(g: Config, u: User, c: Cache, i: Id, v: Tri, x: Tri, vis: Tri, w: Tri)
    requires Coherent(g, u, c) && CachedAs(c, TriVal(i), v)
    requires g.At(i).Symbol? && g.At(i).choice == None && Logical(g, i)
    requires UserGave(u, i, x) && CachedAs(c, Vis(i), vis) && 0 < vis && Lesser(w, x, vis)
    ensures w <= v
    ensures v == w || Has(g, u, c, g.At(i).revDep, v) || (v == 2 && (w == 1 || Has(g, u, c, g.At(i).revDep, 1)))
  {
    hide Coherent, ExprValue, ActiveDefault;
    var top := ValueIsGreatestSource(g, u, c, i, v);
    assert Source(g, u, c, i, w);
  }

  // A symbol that nothing speaks for is n, and a bool is never m.
  lemma NothingSaidIsNo(g: Config, u: User, c: Cache, i: Id, v: Tri)
    requires Coherent(g, u, c) && CachedAs(c, TriVal(i), v)
    requires g.At(i).Symbol? && g.At(i).choice == None && Logical(g, i)
    ensures (!UserDecides(u, c, i) && Has(g, u, c, g.At(i).revDep, 0) && Has(g, u, c, g.At(i).weakRevDep, 0)
             && forall k: nat, w: Tri :: ActiveDefault(g, u, c, g.At(i).defaults, k, w) ==> w == 0)
            ==> v == 0
    ensures g.At(i).kind == Bool ==> v != 1
  {
    hide Coherent, ExprValue, ActiveDefault;
    var top := ValueIsGreatestSource(g, u, c, i, v);
  }

  // The value of a symbol that a value is fresh for obeys these laws too.
  lemma FreshIsCoherent(g: Config, u: User)
    requires WellFormed(g) && UserOk(g, u)
    ensures Coherent(g, u, All(g, u))
  {
    hide WellFormed, UserOk, Getter, Nodes, HasValue, Fresh;
    forall n | n in All(g, u) ensures Getter(g, u, All(g, u), n) == Got(All(g, u)[n]) {
      InAll(g, u, n);
      FreshSatisfiesGetters(g, u, n);
      AllHolds(g, u, n);
    }
  }

  // ---------------------------------------------------------------- visibility

  // w is the greatest value of the conditions of the prompts, and n if there is none.
  ghost predicate GreatestPrompt(g: Config, u: User, c: Cache, prompts: seq<Expr>, w: Tri) {
    && (w == 0 || exists k :: 0 <= k < |prompts| && Has(g, u, c, prompts[k], w))
    && forall k, x: Tri :: 0 <= k < |prompts| && Has(g, u, c, prompts[k], x) ==> x <= w
  }

  lemma {:induction false} PromptsGreatest(g: Config, u: User, c: Cache, prompts: seq<Expr>, vis: Tri)
    requires PromptVis(g, u, c, prompts, vis).Got?
    ensures var w := PromptVis(g, u, c, prompts, vis).value;
            && vis <= w && (w == vis || exists k :: 0 <= k < |prompts| && Has(g, u, c, prompts[k], w))
            && forall k, x: Tri :: 0 <= k < |prompts| && Has(g, u, c, prompts[k], x) ==> x <= w
  {
    hide ExprValue;
    if prompts != [] {
      var v := ExprValue(g, u, c, prompts[0]).value;
      assert Has(g, u, c, prompts[0], v);
      PromptsGreatest(g, u, c, prompts[1..], Max(vis, v));
      var w := PromptVis(g, u, c, prompts, vis).value;
      if exists k :: 0 <= k < |prompts[1..]| && Has(g, u, c, prompts[1..][k], w) {
        var k :| 0 <= k < |prompts[1..]| && Has(g, u, c, prompts[1..][k], w);
        assert Has(g, u, c, prompts[k + 1], w);
      }
      forall k, x: Tri | 0 <= k < |prompts| && Has(g, u, c, prompts[k], x) ensures x <= w {
        if k > 0 {
          assert prompts[k] == prompts[1..][k - 1];
        }
      }
    }
  }

  // Outside choices the visibility is that of the prompts, where m becomes y unless the item is tristate;
  // so an item is visible exactly if the condition of one of its prompts is not n.
  lemma VisibilityOfPrompts(g: Config, u: User, c: Cache, i: Id, vis: Tri) returns (w: Tri)
    requires Coherent(g, u, c) && CachedAs(c, Vis(i), vis) && (g.At(i).Symbol? ==> g.At(i).choice == None)
    ensures GreatestPrompt(g, u, c, g.At(i).prompts, w)
    ensures vis == if w == 1 && (g.At(i).kind != Tristate || CachedAs(c, TriVal(g.modules), 0)) then 2 else w
    ensures 0 < vis <==>
              exists k, x: Tri :: 0 <= k < |g.At(i).prompts| && Has(g, u, c, g.At(i).prompts[k], x) && 0 < x
  {
    hide Coherent, ExprValue, PromptVis;
    CachedIsGot(g, u, c, Vis(i));
    PromptsGreatest(g, u, c, g.At(i).prompts, 0);
    w := PromptVis(g, u, c, g.At(i).prompts, 0).value;
    if TriVal(g.modules) in c {
      var m := CachedTri(g, u, c, TriVal(g.modules));
    }
  }

  // ---------------------------------------------------------------- choices

  ghost predicate InMode(g: Config, u: User, c: Cache, ch: Id, mode: Tri) { ChoiceMode(g, u, c, ch) == Got(mode) }

  // The mode is what the user wants, at least m unless the choice is optional, cut to the visibility of the
  // choice; m becomes y in a choice that acts as a bool.
  lemma ModeIsWanted(g: Config, u: User, c: Cache, ch: Id, mode: Tri, vis: Tri) returns (w: Tri)
    requires Coherent(g, u, c) && g.At(ch).Choice? && InMode(g, u, c, ch, mode) && CachedAs(c, Vis(ch), vis)
    ensures var wanted := if UserGave(u, ch, 2) then 2 else if g.At(ch).isOptional && !UserGave(u, ch, 1) then 0 else 1;
            Lesser(w, wanted, vis)
    ensures mode == if w == 1 && ActsAsBool(g, u, c, ch) then 2 else w
  {
    hide Coherent;
    w := if UserGave(u, ch, 2) then 2 else if g.At(ch).isOptional && !UserGave(u, ch, 1) then 0 else 1;
    w := Min(w, vis);
    if TriVal(g.modules) in c {
      var m := CachedTri(g, u, c, TriVal(g.modules));
    }
  }

  // In a choice some symbols are hidden: those that are no tristates, unless a tristate choice is in y mode,
  // and those with m visibility if it is.
  ghost predicate Hidden(g: Config, u: User, c: Cache, i: Id, ch: Id, w: Tri) {
    || (g.At(ch).kind == Tristate && g.At(i).kind != Tristate && !InMode(g, u, c, ch, 2))
    || (g.At(i).kind == Tristate && w == 1 && InMode(g, u, c, ch, 2))
  }

  lemma VisibilityInChoice(g: Config, u: User, c: Cache, i: Id, ch: Id, vis: Tri) returns (w: Tri)
    requires Coherent(g, u, c) && CachedAs(c, Vis(i), vis) && g.At(i).Symbol? && g.At(i).choice == Some(ch)
    ensures GreatestPrompt(g, u, c, g.At(i).prompts, w)
    ensures vis == if Hidden(g, u, c, i, ch, w) then 0
                   else if w == 1 && (g.At(i).kind != Tristate || ActsAsBool(g, u, c, i)) then 2 else w
    ensures InMode(g, u, c, ch, 2) ==> vis != 1
  {
    hide Coherent, ExprValue, PromptVis, ChoiceMode;
    CachedIsGot(g, u, c, Vis(i));
    PromptsGreatest(g, u, c, g.At(i).prompts, 0);
    w := PromptVis(g, u, c, g.At(i).prompts, 0).value;
    if TriVal(g.modules) in c {
      var m := CachedTri(g, u, c, TriVal(g.modules));
    }
  }

  // The default at k is the first with a condition that is not n whose symbol is visible.
  ghost predicate FirstDefault(g: Config, u: User, c: Cache, picks: seq<ChoiceDefault>, k: nat) {
    && k < |picks| && Visible(c, picks[k].sym)
    && (Has(g, u, c, picks[k].cond, 1) || Has(g, u, c, picks[k].cond, 2))
    && forall j :: 0 <= j < k ==> Has(g, u, c, picks[j].cond, 0) || CachedAs(c, Vis(picks[j].sym), 0)
  }

  ghost predicate NoDefault(g: Config, u: User, c: Cache, picks: seq<ChoiceDefault>) {
    forall j :: 0 <= j < |picks| ==> Has(g, u, c, picks[j].cond, 0) || CachedAs(c, Vis(picks[j].sym), 0)
  }

  ghost predicate FirstShown(c: Cache, syms: seq<Id>, k: nat) {
    k < |syms| && Visible(c, syms[k]) && forall j :: 0 <= j < k ==> CachedAs(c, Vis(syms[j]), 0)
  }

  ghost predicate NoneShown(c: Cache, syms: seq<Id>) {
    forall j :: 0 <= j < |syms| ==> CachedAs(c, Vis(syms[j]), 0)
  }

  // In y mode the selection is the user's, if that symbol is visible, else the first default whose symbol
  // is, else the first visible symbol.  In other modes there is none.
  lemma SelectionIs(g: Config, u: User, c: Cache, ch: Id, pick: Option<Id>)
    requires Coherent(g, u, c) && g.At(ch).Choice? && Sel(ch) in c && c[Sel(ch)] == Pick(pick)
    ensures !InMode(g, u, c, ch, 2) ==> pick == None
    ensures InMode(g, u, c, ch, 2) ==>
      if ch in u.selections && Visible(c, u.selections[ch]) then pick == Some(u.selections[ch])
      else if NoDefault(g, u, c, g.At(ch).picks) then
        if NoneShown(c, g.At(ch).syms) then pick == None
        else exists k: nat :: FirstShown(c, g.At(ch).syms, k) && pick == Some(g.At(ch).syms[k])
      else exists k: nat :: FirstDefault(g, u, c, g.At(ch).picks, k) && pick == Some(g.At(ch).picks[k].sym)
  {
    hide Coherent, ExprValue, ChoiceMode, DefaultPick, FirstVisible;
    CachedIsGot(g, u, c, Sel(ch));
    if InMode(g, u, c, ch, 2) {
      if ch in u.selections {
        var vis := CachedTri(g, u, c, Vis(u.selections[ch]));
      }
      if !(ch in u.selections && Visible(c, u.selections[ch])) {
        DefaultPickIs(g, u, c, g.At(ch).picks);
        if DefaultPick(g, u, c, g.At(ch).picks) == Got(None) {
          FirstVisibleIs(g, u, c, g.At(ch).syms);
        }
      }
    }
  }

  lemma {:induction false} DefaultPickIs(g: Config, u: User, c: Cache, picks: seq<ChoiceDefault>)
    requires Coherent(g, u, c) && DefaultPick(g, u, c, picks).Got?
    ensures match DefaultPick(g, u, c, picks).value
            case None => NoDefault(g, u, c, picks)
            case Some(s) =>
              !NoDefault(g, u, c, picks) && exists k: nat :: FirstDefault(g, u, c, picks, k) && s == picks[k].sym
  {
    hide Coherent, ExprValue;
    if picks != [] {
      var on := ExprValue(g, u, c, picks[0].cond).value;
      assert Has(g, u, c, picks[0].cond, on);
      var vis: Tri := 0;
      if on != 0 {
        vis := CachedTri(g, u, c, Vis(picks[0].sym));
      }
      if vis != 0 {
        assert FirstDefault(g, u, c, picks, 0);
      } else {
        var rest := picks[1..];
        DefaultPickIs(g, u, c, rest);
        forall j | 0 <= j < |rest| ensures picks[j + 1] == rest[j] {}
        match DefaultPick(g, u, c, rest).value {
          case Some(s) =>
            var k: nat :| FirstDefault(g, u, c, rest, k) && s == rest[k].sym;
            forall j | 0 <= j < k + 1 ensures Has(g, u, c, picks[j].cond, 0) || CachedAs(c, Vis(picks[j].sym), 0) {
              assert j > 0 ==> picks[j] == rest[j - 1];
            }
            assert FirstDefault(g, u, c, picks, k + 1);
          case None =>
            forall j | 0 <= j < |picks| ensures Has(g, u, c, picks[j].cond, 0) || CachedAs(c, Vis(picks[j].sym), 0) {
              assert j > 0 ==> picks[j] == rest[j - 1];
            }
        }
      }
    }
  }

  lemma {:induction false} FirstVisibleIs(g: Config, u: User, c: Cache, syms: seq<Id>)
    requires Coherent(g, u, c) && FirstVisible(c, syms).Got?
    ensures match FirstVisible(c, syms).value
            case None => NoneShown(c, syms)
            case Some(s) => !NoneShown(c, syms) && exists k: nat :: FirstShown(c, syms, k) && s == syms[k]
  {
    hide Coherent;
    if syms != [] {
      var vis := CachedTri(g, u, c, Vis(syms[0]));
      if vis != 0 {
        assert FirstShown(c, syms, 0);
      } else {
        var rest := syms[1..];
        FirstVisibleIs(g, u, c, rest);
        match FirstVisible(c, rest).value {
          case Some(s) =>
            var k: nat :| FirstShown(c, rest, k) && s == rest[k];
            forall j | 0 <= j < k + 1 ensures CachedAs(c, Vis(syms[j]), 0) {
              assert j > 0 ==> syms[j] == rest[j - 1];
            }
            assert FirstShown(c, syms, k + 1);
          case None =>
            forall j | 0 <= j < |syms| ensures CachedAs(c, Vis(syms[j]), 0) {
              assert j > 0 ==> syms[j] == rest[j - 1];
            }
        }
      }
    }
  }

  // A selection is a visible symbol of the choice.
  lemma SelectionIsVisible(g: Config, u: User, c: Cache, ch: Id, s: Id)
    requires WellFormed(g) && UserOk(g, u) && Coherent(g, u, c)
    requires g.At(ch).Choice? && Sel(ch) in c && c[Sel(ch)] == Pick(Some(s))
    ensures s in g.At(ch).syms && Visible(c, s) && InMode(g, u, c, ch, 2)
  {
    hide Coherent, ChoiceMode, ExprValue;
    SelectionIs(g, u, c, ch, Some(s));
  }

  // In a choice in y mode exactly the selected symbol is y, and the others are n.  In m mode a symbol is m
  // exactly if it is visible and the user has set it to m or y.
  lemma ChoiceSymbolIs(g: Config, u: User, c: Cache, i: Id, ch: Id, v: Tri)
    requires WellFormed(g) && UserOk(g, u) && Coherent(g, u, c) && CachedAs(c, TriVal(i), v)
    requires g.At(i).Symbol? && g.At(i).choice == Some(ch) && Logical(g, i)
    ensures v == 2 <==> Sel(ch) in c && c[Sel(ch)] == Pick(Some(i)) && !CachedAs(c, Vis(i), 1)
    ensures v == 1 <==> CachedAs(c, Vis(i), 1) && (UserGave(u, i, 1) || UserGave(u, i, 2))
    ensures InMode(g, u, c, ch, 2) ==> v != 1 && (v == 2 <==> Sel(ch) in c && c[Sel(ch)] == Pick(Some(i)))
  {
    hide Coherent, ExprValue, ChoiceMode, Selection;
    CachedIsGot(g, u, c, TriVal(i));
    OwnChoiceIs(g, i);
    var vis := CachedTri(g, u, c, Vis(i));
    if InMode(g, u, c, ch, 2) {
      var w := VisibilityInChoice(g, u, c, i, ch, vis);
    }
    if Sel(ch) in c {
      CachedIsGot(g, u, c, Sel(ch));
      if c[Sel(ch)] == Pick(Some(i)) {
        SelectionIsVisible(g, u, c, ch, i);
      }
    }
  }

  lemma OwnChoiceIs(g: Config, i: Id)
    requires WellFormed(g) && g.At(i).Symbol? && g.At(i).choice.Some?
    ensures g.At(g.At(i).choice.value).Choice?
  {}

  // ---------------------------------------------------------------- texts and numbers

  predicate IsText(c: Cache, n: Node, text: string) { n in c && c[n] == S(text) }

  predicate GaveText(u: User, i: Id, text: string) { i in u.values && u.values[i] == S(text) }

  // The default at k is the first whose condition is not n, and has this text.
  ghost predicate ActiveText(g: Config, u: User, c: Cache, defaults: seq<Default>, k: nat, text: string) {
    && k < |defaults| && (forall j :: 0 <= j < k ==> Has(g, u, c, defaults[j].cond, 0))
    && (Has(g, u, c, defaults[k].cond, 1) || Has(g, u, c, defaults[k].cond, 2))
    && if defaults[k].value.Leaf? then AtomText(g, u, c, defaults[k].value.atom) == Got(text) else text == ""
  }

  ghost predicate NoActive(g: Config, u: User, c: Cache, defaults: seq<Default>) {
    forall j :: 0 <= j < |defaults| ==> Has(g, u, c, defaults[j].cond, 0)
  }

  ghost predicate DefaultTextIs(g: Config, u: User, c: Cache, defaults: seq<Default>, text: string) {
    || (NoActive(g, u, c, defaults) && text == "")
    || exists k: nat :: ActiveText(g, u, c, defaults, k, text)
  }

  lemma {:induction false} DefaultTextFound(g: Config, u: User, c: Cache, defaults: seq<Default>)
    requires DefaultText(g, u, c, defaults).Got?
    ensures match DefaultText(g, u, c, defaults).value
            case None => NoActive(g, u, c, defaults)
            case Some(text) => exists k: nat :: ActiveText(g, u, c, defaults, k, text)
  {
    hide ExprValue, AtomText;
    if defaults != [] {
      var rest := defaults[1..];
      var on := ExprValue(g, u, c, defaults[0].cond).value;
      assert Has(g, u, c, defaults[0].cond, on);
      if on != 0 {
        assert ActiveText(g, u, c, defaults, 0, DefaultText(g, u, c, defaults).value.value);
      } else {
        DefaultTextFound(g, u, c, rest);
        match DefaultText(g, u, c, rest).value {
          case Some(text) =>
            var k: nat :| ActiveText(g, u, c, rest, k, text);
            forall j | 0 <= j < k + 1 ensures Has(g, u, c, defaults[j].cond, 0) {
              assert j > 0 ==> defaults[j] == rest[j - 1];
            }
            assert ActiveText(g, u, c, defaults, k + 1, text);
          case None =>
            forall j | 0 <= j < |defaults| ensures Has(g, u, c, defaults[j].cond, 0) {
              assert j > 0 ==> defaults[j] == rest[j - 1];
            }
        }
      }
    }
  }

  // The text of a logical symbol is its value, that of a string the user's if the symbol is visible, else
  // that of the active default; a symbol without a type has its name for its text.
  lemma TextIs(g: Config, u: User, c: Cache, i: Id, text: string)
    requires Coherent(g, u, c) && IsText(c, StrVal(i), text) && g.At(i).Symbol?
    ensures Logical(g, i) ==>
      || (CachedAs(c, TriVal(i), 0) && text == "n") || (CachedAs(c, TriVal(i), 1) && text == "m")
      || (CachedAs(c, TriVal(i), 2) && text == "y")
    ensures g.At(i).kind == Unknown ==> text == g.At(i).name
    ensures g.At(i).kind == Text ==>
      if Visible(c, i) && i in u.values then text == TextOf(u.values[i])
      else DefaultTextIs(g, u, c, g.At(i).defaults, text)
    ensures g.At(i).kind == Text && Visible(c, i) ==> forall given :: GaveText(u, i, given) ==> text == given
  {
    hide Coherent, DefaultText, ActiveRange, Clamped;
    CachedIsGot(g, u, c, StrVal(i));
    if Logical(g, i) {
      var v := CachedTri(g, u, c, TriVal(i));
    } else if g.At(i).kind == Text {
      var vis := CachedTri(g, u, c, Vis(i));
      if !(Visible(c, i) && i in u.values) {
        DefaultTextFound(g, u, c, g.At(i).defaults);
      }
    }
  }

  // The number that a text stands for, 0 if it is none.
  function Number(g: Config, kind: Kind, text: string): int {
    match g.notation.parse(kind, text) case Some(n) => n case None => 0
  }

  // The range at k is the first whose condition is not n, and goes from low to high.
  ghost predicate RangeInForce(g: Config, u: User, c: Cache, kind: Kind, ranges: seq<Range>, k: nat,
            low: int, high: int)
  {
    && k < |ranges| && (forall j :: 0 <= j < k ==> Has(g, u, c, ranges[j].cond, 0))
    && (Has(g, u, c, ranges[k].cond, 1) || Has(g, u, c, ranges[k].cond, 2))
    && (exists x :: AtomText(g, u, c, ranges[k].low) == Got(x) && low == Number(g, kind, x))
    && (exists y :: AtomText(g, u, c, ranges[k].high) == Got(y) && high == Number(g, kind, y))
  }

  ghost predicate NoRange(g: Config, u: User, c: Cache, ranges: seq<Range>) {
    forall j :: 0 <= j < |ranges| ==> Has(g, u, c, ranges[j].cond, 0)
  }

  lemma {:induction false} RangeFound(g: Config, u: User, c: Cache, kind: Kind, ranges: seq<Range>)
    requires ActiveRange(g, u, c, kind, ranges).Got?
    ensures match ActiveRange(g, u, c, kind, ranges).value
            case None => NoRange(g, u, c, ranges)
            case Some(b) => exists k: nat :: RangeInForce(g, u, c, kind, ranges, k, b.low, b.high)
  {
    hide ExprValue, AtomText;
    if ranges != [] {
      var rest := ranges[1..];
      var on := ExprValue(g, u, c, ranges[0].cond).value;
      assert Has(g, u, c, ranges[0].cond, on);
      if on != 0 {
        var b := ActiveRange(g, u, c, kind, ranges).value.value;
        assert RangeInForce(g, u, c, kind, ranges, 0, b.low, b.high);
      } else {
        RangeFound(g, u, c, kind, rest);
        match ActiveRange(g, u, c, kind, rest).value {
          case Some(b) =>
            var k: nat :| RangeInForce(g, u, c, kind, rest, k, b.low, b.high);
            forall j | 0 <= j < k + 1 ensures Has(g, u, c, ranges[j].cond, 0) {
              assert j > 0 ==> ranges[j] == rest[j - 1];
            }
            assert RangeInForce(g, u, c, kind, ranges, k + 1, b.low, b.high);
          case None =>
            forall j | 0 <= j < |ranges| ensures Has(g, u, c, ranges[j].cond, 0) {
              assert j > 0 ==> ranges[j] == rest[j - 1];
            }
        }
      }
    }
  }

  lemma OneRange(g: Config, u: User, c: Cache, kind: Kind, ranges: seq<Range>, k: nat, b: Bounds, l: nat, d: Bounds)
    requires RangeInForce(g, u, c, kind, ranges, k, b.low, b.high)
    requires RangeInForce(g, u, c, kind, ranges, l, d.low, d.high)
    ensures b == d
  {
    hide ExprValue, AtomText;
  }

  // What is written is read back, and nothing is no number.
  ghost predicate ReadsBack(notation: Notation) {
    && (forall kind :: notation.parse(kind, "") == None)
    && forall kind, n: int :: notation.parse(kind, notation.render(kind, n)) == Some(n)
  }

  predicate InRange(range: Option<Bounds>, n: int) { range == None || range.value.low <= n <= range.value.high }

  // The text of an int or hex symbol is the user's if the symbol is visible and it lies in the range in
  // force; else the default's, moved into the range.
  lemma NumberTextIs(g: Config, u: User, c: Cache, i: Id, text: string) returns (range: Option<Bounds>, default: string)
    requires Coherent(g, u, c) && IsText(c, StrVal(i), text) && g.At(i).Symbol? && ReadsBack(g.notation)
    requires g.At(i).kind == Int || g.At(i).kind == Hex
    ensures match range
            case None => NoRange(g, u, c, g.At(i).ranges)
            case Some(b) => exists k: nat :: RangeInForce(g, u, c, g.At(i).kind, g.At(i).ranges, k, b.low, b.high)
    ensures || (Visible(c, i) && text != "" && GaveText(u, i, text) && InRange(range, Number(g, g.At(i).kind, text)))
            || (&& DefaultTextIs(g, u, c, g.At(i).defaults, default)
                && (forall given :: Visible(c, i) && GaveText(u, i, given) && given != "" ==>
                      !InRange(range, Number(g, g.At(i).kind, given)))
                && var n := Number(g, g.At(i).kind, default);
                   if range.Some? && n < range.value.low then Number(g, g.At(i).kind, text) == range.value.low
                   else if range.Some? && range.value.high < n then Number(g, g.At(i).kind, text) == range.value.high
                   else text == default)
  {
    hide Coherent, DefaultText, ActiveRange, ExprValue, AtomText;
    CachedIsGot(g, u, c, StrVal(i));
    var item := g.At(i);
    var vis := CachedTri(g, u, c, Vis(i));
    range := ActiveRange(g, u, c, item.kind, item.ranges).value;
    RangeFound(g, u, c, item.kind, item.ranges);
    default := "";
    if !(vis != 0 && UserText(u, i) != "" && Within(BoundOf(g, item.kind, UserText(u, i)), range)) {
      var d := DefaultText(g, u, c, item.defaults).value;
      DefaultTextFound(g, u, c, item.defaults);
      default := if d.Some? then d.value else "";
    }
  }

  // With a range in force an int or hex symbol has a number in the range, exactly if there is one.
  lemma NumberIsInRange(g: Config, u: User, c: Cache, i: Id, text: string, k: nat, b: Bounds)
    requires Coherent(g, u, c) && IsText(c, StrVal(i), text) && g.At(i).Symbol? && ReadsBack(g.notation)
    requires g.At(i).kind == Int || g.At(i).kind == Hex
    requires RangeInForce(g, u, c, g.At(i).kind, g.At(i).ranges, k, b.low, b.high)
    ensures InRange(Some(b), Number(g, g.At(i).kind, text)) <==> b.low <= b.high
  {
    hide Coherent, ExprValue, AtomText, DefaultTextIs;
    var range, default := NumberTextIs(g, u, c, i, text);
    if range.Some? {
      var l: nat :| RangeInForce(g, u, c, g.At(i).kind, g.At(i).ranges, l, range.value.low, range.value.high);
      OneRange(g, u, c, g.At(i).kind, g.At(i).ranges, k, b, l, range.value);
    }
  }
}
