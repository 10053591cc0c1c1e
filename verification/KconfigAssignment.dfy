/** What the user may set, and what comes of it. */
module KconfigAssignment {
  import opened Wrappers
  import opened KconfigModel
  import opened KconfigGetters
  import opened KconfigEvaluation
  import opened KconfigCache
  import opened KconfigValues

  // For a bool or tristate, "n", "m" and "y" are the same as the values, and no other text means anything.
  lemma TextsStandForValues(g: Config, kind: Kind, text: string)
    ensures kind == Bool || kind == Tristate ==>
      && Normalized(kind, S("n")) == Normalized(kind, T(0)) == T(0)
      && Normalized(kind, S("m")) == Normalized(kind, T(1)) == T(1)
      && Normalized(kind, S("y")) == Normalized(kind, T(2)) == T(2)
      && (text != "n" && text != "m" && text != "y" ==> !Acceptable(g, kind, Normalized(kind, S(text))))
    ensures kind != Bool && kind != Tristate ==> Normalized(kind, S(text)) == S(text)
  {}

  // What a type takes, whether it is given as a text or as a value.
  lemma TypesTake(g: Config, kind: Kind, text: string, v: Tri)
    ensures Acceptable(g, kind, Normalized(kind, S(text))) <==>
      || (kind == Bool && text in {"n", "y"})
      || (kind == Tristate && text in {"n", "m", "y"})
      || kind == Text
      || (kind == Int && exists n :: g.notation.parse(Int, text) == Some(n))
      || (kind == Hex && exists n :: g.notation.parse(Hex, text) == Some(n) && 0 <= n)
    ensures Acceptable(g, kind, Normalized(kind, T(v))) <==> (kind == Bool && v != 1) || kind == Tristate
  {
    match g.notation.parse(kind, text) {
      case Some(n) => assert g.notation.parse(kind, text) == Some(n);
      case None =>
    }
  }

  // A bool or tristate outside choices has the value that it was set to, if it is visible enough and no
  // select asks for more; only m becomes y where there is no m.
  lemma ValueIsReadBack(g: Config, u: User, c: Cache, i: Id, x: Tri, vis: Tri, v: Tri)
    requires Coherent(g, u, c) && CachedAs(c, TriVal(i), v)
    requires g.At(i).Symbol? && g.At(i).choice == None && Logical(g, i)
    requires UserGave(u, i, x) && CachedAs(c, Vis(i), vis) && 0 < vis && x <= vis
    requires exists rev: Tri :: Has(g, u, c, g.At(i).revDep, rev) && rev <= x
    ensures v == x || (x == 1 && v == 2)
    ensures x == 1 && v == 2 ==> ActsAsBool(g, u, c, i) || Has(g, u, c, g.At(i).weakRevDep, 2)
  {
    hide Coherent, ExprValue, ActiveDefault;
    var top := ValueIsGreatestSource(g, u, c, i, v);
    assert Source(g, u, c, i, x);
  }

  // A symbol of a choice that has been set to y is y if it is visible and the choice is in y mode, and then
  // all the others are n.
  lemma SelectionIsReadBack(g: Config, u: User, c: Cache, i: Id, ch: Id, j: Id, v: Tri)
    requires WellFormed(g) && UserOk(g, u) && Coherent(g, u, c) && CachedAs(c, TriVal(j), v)
    requires g.At(i).Symbol? && g.At(i).choice == Some(ch) && Logical(g, i)
    requires g.At(j).Symbol? && g.At(j).choice == Some(ch) && Logical(g, j)
    requires ch in u.selections && u.selections[ch] == i && Visible(c, i) && InMode(g, u, c, ch, 2) && Sel(ch) in c
    ensures v == if j == i then 2 else 0
  {
    hide Coherent, WellFormed, UserOk, ChoiceMode;
    OwnChoiceIs(g, i);
    PickIsCached(g, u, c, ch);
    SelectionIs(g, u, c, ch, c[Sel(ch)].sym);
    ChoiceSymbolIs(g, u, c, j, ch, v);
  }

  lemma PickIsCached(g: Config, u: User, c: Cache, ch: Id)
    requires Coherent(g, u, c) && Sel(ch) in c
    ensures c[Sel(ch)].Pick?
  {
    CachedIsGot(g, u, c, Sel(ch));
  }

  // A visible string has the text that it was set to; a visible int or hex too, if that is not empty and
  // lies in the range in force.
  lemma TextIsReadBack(g: Config, u: User, c: Cache, i: Id, given: string, text: string)
    requires Coherent(g, u, c) && IsText(c, StrVal(i), text) && g.At(i).Symbol? && ReadsBack(g.notation)
    requires GaveText(u, i, given) && Visible(c, i)
    ensures g.At(i).kind == Text ==> text == given
    ensures (g.At(i).kind == Int || g.At(i).kind == Hex) && given != ""
            && (NoRange(g, u, c, g.At(i).ranges)
                || exists k: nat, b: Bounds :: RangeInForce(g, u, c, g.At(i).kind, g.At(i).ranges, k, b.low, b.high)
                                       && InRange(Some(b), Number(g, g.At(i).kind, given)))
            ==> text == given
  {
    hide Coherent, ExprValue, AtomText, DefaultTextIs;
    TextIs(g, u, c, i, text);
    if (g.At(i).kind == Int || g.At(i).kind == Hex) && given != "" {
      var range, default := NumberTextIs(g, u, c, i, text);
    }
  }
}
