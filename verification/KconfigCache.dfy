/** The values that scripts/kconfiglib.py caches on demand, and which of them setting a user value throws
  * away.
  */
module KconfigCache {
  import opened Wrappers
  import opened KconfigModel
  import opened KconfigGetters
  import opened KconfigEvaluation

  // ---------------------------------------------------------------- invalidation

  // What invalidating item i recursively does to the cache: nothing of i is left; whole items are
  // thrown away; no item that depends on i or on an item thrown away has a visibility left; and if
  // MODULES is among them, no defined item has anything left.
  ghost predicate Swept(g: Config, c: Cache, c': Cache, i: Id) {
    SweptSoFar(g, c, c', i, {})
  }

  // The same, except that the dependents in `todo` have not been looked at yet.
  ghost predicate SweptSoFar(g: Config, c: Cache, c': Cache, i: Id, todo: set<Id>) {
    && (forall n :: n in c' ==> n in c && c'[n] == c[n] && n.id != i)
    && (forall n: Node, m: Node :: n in c && n !in c' && m.id == n.id ==> m !in c')
    && (forall n: Node, k: Id :: n in c && n !in c' && n.id != i && DependsOn(g, k, n.id) ==> Vis(k) !in c')
    && (forall k: Id :: DependsOn(g, k, i) && k !in todo ==> Vis(k) !in c')
    && ((i == g.modules || exists n :: n in c && n !in c' && n.id == g.modules) ==>
         forall n :: n in c' ==> !Defined(g, n.id))
  }

  lemma SweptMore(g: Config, c: Cache, c1: Cache, c2: Cache, i: Id, todo: set<Id>, d: Id)
    requires SweptSoFar(g, c, c1, i, todo) && Swept(g, c1, c2, d)
    ensures SweptSoFar(g, c, c2, i, todo - {d})
  {}

  // The user's values may differ at item i and at symbols that depend on it.
  ghost predicate Changes(g: Config, u: User, u': User, i: Id) {
    forall j: Id :: j != i ==>
      && SameEntry(u.selections, u'.selections, j)
      && (SameEntry(u.values, u'.values, j) || (g.At(j).Symbol? && DependsOn(g, j, i)))
  }

  // Nothing that the getter of n looks at has changed.
  ghost predicate Unaffected(g: Config, u: User, u': User, c: Cache, c': Cache, n: Node) {
    Fixed(g, n) || (Alike(g, u, u', c, c', n) && SameOwn(g, u, u', c, n))
  }

  // Values that a change of the user's values does not affect are still what their getters find, and
  // what an evaluation without any cache gives.
  lemma StillCoherent(g: Config, u: User, u': User, c: Cache, c': Cache)
    requires WellFormed(g) && UserOk(g, u) && UserOk(g, u') && Coherent(g, u, c) && Right(g, u, c)
    requires PartOf(c', c) && forall n :: n in c' ==> Unaffected(g, u, u', c, c', n)
    ensures Coherent(g, u', c') && Right(g, u', c')
  {
    hide WellFormed, UserOk, Getter, Fixed, Alike, SameOwn, All, Round;
    forall n | n in c' ensures Getter(g, u', c', n) == Got(c'[n]) {
      assert Getter(g, u, c, n) == Got(c[n]);
      assert Unaffected(g, u, u', c, c', n);
      if Fixed(g, n) {
        FixedGetter(g, u, u', c, c', n);
      } else {
        GetterSteady(g, u, u', c, c', n);
      }
    }
    forall n | n in c' ensures n in All(g, u') && All(g, u')[n] == c'[n] {
      InAll(g, u, n);
      var i: nat :| n in Round(g, u, i);
      StillRight(g, u, u', c, c', n, i);
    }
  }

  lemma {:induction false} StillRight(g: Config, u: User, u': User, c: Cache, c': Cache, n: Node, i: nat)
    requires WellFormed(g) && UserOk(g, u) && UserOk(g, u') && Coherent(g, u, c) && Right(g, u, c)
    requires PartOf(c', c) && forall m :: m in c' ==> Unaffected(g, u, u', c, c', m)
    requires n in c' && n in Round(g, u, i)
    ensures n in All(g, u') && All(g, u')[n] == c'[n]
    decreases i
  {
    hide WellFormed, UserOk, Getter, Fixed, All, Round, Fresh, HasValue, Alike, SameOwn;
    InAll(g, u, n);
    FreshSatisfiesGetters(g, u', n);
    CachedIsGot(g, u, c, n);
    assert Unaffected(g, u, u', c, c', n);
    if Fixed(g, n) {
      FixedGetter(g, u, u', c, All(g, u'), n);
    } else {
      var e := FoundBefore(g, u, c, n, i);
      forall m | m in e && m in c' ensures m in All(g, u') && All(g, u')[m] == e[m] {
        StillRight(g, u, u', c, c', m, i - 1);
      }
      StillAlike(g, u, u', c, c', e, n);
      GetterSteady(g, u, u', e, All(g, u'), n);
    }
    if HasValue(g, u', n) {
      AllHolds(g, u', n);
    }
  }

  // The part of the cache that was there before round i is enough for a field that has its value in
  // round i.
  lemma FoundBefore(g: Config, u: User, c: Cache, n: Node, i: nat) returns (e: Cache)
    requires WellFormed(g) && UserOk(g, u) && Coherent(g, u, c) && Right(g, u, c)
    requires n in c && n in Round(g, u, i)
    ensures i > 0 && PartOf(e, c) && (forall m :: m in e ==> m in Round(g, u, i - 1))
    ensures Getter(g, u, e, n) == Got(c[n])
  {
    hide WellFormed, UserOk, Getter, Nodes, All;
    var before := Round(g, u, i - 1);
    assert Getter(g, u, before, n).Got?;
    hide Round;
    RoundIsRight(g, u, i - 1);
    e := map m | m in c && m in before :: c[m];
    CommonIsEnough(g, u, c, before, e, n);
  }

  lemma StillAlike(g: Config, u: User, u': User, c: Cache, c': Cache, e: Cache, n: Node)
    requires PartOf(e, c) && PartOf(c', c) && Alike(g, u, u', c, c', n) && SameOwn(g, u, u', c, n)
    requires forall m :: m in e && m in c' ==> m in All(g, u') && All(g, u')[m] == e[m]
    ensures Alike(g, u, u', e, All(g, u'), n) && SameOwn(g, u, u', e, n)
  {
    hide WellFormed, SameUser, All, Reads;
  }

  // Main theorem: changing the user's values at i and invalidating i leaves only values that are
  // still right, although the invalidation stops at items whose visibility is not cached.
  lemma SweepKeepsCoherent(g: Config, u: User, u': User, c: Cache, c': Cache, i: Id)
    requires WellFormed(g) && UserOk(g, u) && UserOk(g, u') && Coherent(g, u, c) && Right(g, u, c)
    requires Changes(g, u, u', i) && Swept(g, c, c', i)
    ensures Coherent(g, u', c') && Right(g, u', c')
  {
    hide WellFormed, UserOk, Coherent, Right, Fixed, Alike, SameOwn;
    forall n | n in c' ensures Unaffected(g, u, u', c, c', n) {
      if !Fixed(g, n) {
        SurvivorIsAlike(g, u, u', c, c', i, n);
      }
    }
    StillCoherent(g, u, u', c, c');
  }

  // A value that is left was not computed from anything that is gone or changed: otherwise the
  // visibility of its item, which was cached, would have been thrown away, and the value with it.
  lemma SurvivorIsAlike(g: Config, u: User, u': User, c: Cache, c': Cache, i: Id, n: Node)
    requires WellFormed(g) && Coherent(g, u, c) && Changes(g, u, u', i) && Swept(g, c, c', i)
    requires n in c' && !Fixed(g, n)
    ensures Alike(g, u, u', c, c', n) && SameOwn(g, u, u', c, n)
  {
    hide WellFormed, Coherent, Reads, Dependent;
    VisibilityIsFlag(g, u, c, n);
    assert Vis(n.id) in c';
    assert !DependsOn(g, n.id, i);
    assert Defined(g, n.id);
    forall m | Reads(g, n, m) && m in c ensures m in c' && c'[m] == c[m] {
      ReadsAreDependencies(g, n, m);
    }
    forall j: Id | g.At(j).Choice? && Dependent(g, n.id, j) ensures SameEntry(u.values, u'.values, j) {
      assert DependsOn(g, n.id, j);
    }
  }

  lemma PromptlessIsInvisible(g: Config, u: User, c: Cache, i: Id)
    requires Coherent(g, u, c) && Vis(i) in c && g.At(i).Symbol? && g.At(i).prompts == []
    ensures c[Vis(i)] == T(0)
  {
    hide ChoiceMode;
    assert Getter(g, u, c, Vis(i)) == Got(c[Vis(i)]);
  }

  // A user value has no effect on a symbol without a prompt, so nothing needs to be thrown away.
  lemma PromptlessKeepsCoherent(g: Config, u: User, u': User, c: Cache, i: Id)
    requires WellFormed(g) && UserOk(g, u) && UserOk(g, u') && Coherent(g, u, c) && Right(g, u, c)
    requires g.At(i).Symbol? && g.At(i).prompts == [] && u'.selections == u.selections
    requires forall j: Id :: j != i ==> SameEntry(u.values, u'.values, j)
    ensures Coherent(g, u', c) && Right(g, u', c)
  {
    hide WellFormed, UserOk, Coherent, Right, Fixed;
    if Vis(i) in c {
      PromptlessIsInvisible(g, u, c, i);
    }
    forall n | n in c ensures Unaffected(g, u, u', c, c, n) {
    }
    StillCoherent(g, u, u', c, c);
  }

  // Storing what a getter found keeps the cache coherent.
  lemma StoreKeepsCoherent(g: Config, u: User, c: Cache, n: Node)
    requires WellFormed(g) && UserOk(g, u) && Coherent(g, u, c) && Right(g, u, c)
    requires n !in c && n.id < |g.items| && Getter(g, u, c, n).Got?
    ensures var c' := c[n := Getter(g, u, c, n).value]; Coherent(g, u, c') && Right(g, u, c')
  {
    hide WellFormed, UserOk, Getter, Reads, All;
    var c' := c[n := Getter(g, u, c, n).value];
    forall m | m in c' ensures Getter(g, u, c', m) == Got(c'[m]) {
      assert m != n ==> Getter(g, u, c, m) == Got(c[m]);
      LargerFindsSame(g, u, c, c', m);
    }
    FoundIsFresh(g, u, c, n);
  }

  predicate HasPrompt(g: Config, i: Id) { g.At(i).prompts != [] }

  // The values that set_value() accepts.
  predicate Acceptable(g: Config, kind: Kind, v: Value) {
    match kind
    case Bool => v == T(0) || v == T(2)
    case Tristate => v.T?
    case Text => v.S?
    case Int => v.S? && g.notation.parse(Int, v.text).Some?
    case Hex => v.S? && g.notation.parse(Hex, v.text).Some? && g.notation.parse(Hex, v.text).value >= 0
    case Unknown => false
  }

  // STR_TO_TRI
  function Normalized(kind: Kind, v: Value): Value {
    if v.S? && (kind == Bool || kind == Tristate) then
      if v.text == "n" then T(0) else if v.text == "m" then T(1) else if v.text == "y" then T(2) else v
    else v
  }

  class Kconfig {
    const g: Config
    var user: User
    var cache: Cache

    ghost predicate Valid()
      reads this
    {
      WellFormed(g) && UserOk(g, user) && Coherent(g, user, cache) && Right(g, user, cache)
    }

    constructor (g: Config)
      requires WellFormed(g)
      ensures Valid() && this.g == g && user == User(map[], map[]) && cache == map[]
    {
      this.g, user, cache := g, User(map[], map[]), map[];
    }

    // A cached property: computes the field if it is not cached, and the fields read on the way before
    // it.  The recursion ends for every field that has a value.
    method Read(n: Node) returns (v: Value)
      requires Valid() && HasValue(g, user, n)
      modifies this`cache
      ensures Valid() && n in cache && v == cache[n] == Fresh(g, user, n)
      ensures forall m :: m in old(cache) ==> m in cache && cache[m] == old(cache)[m]
      ensures forall m :: m in cache <==> m in old(cache) || Involves(g, user, n, m)
      decreases Depth(g, user, n)
    {
      hide WellFormed, UserOk, Getter, Reads, Coherent, Right, Nodes, Involves, HasValue, All, Fresh;
      InAll(g, user, n);
      InvolvesItself(g, user, n);
      while n !in cache
        invariant Coherent(g, user, cache) && Right(g, user, cache)
        invariant forall m :: m in old(cache) ==> m in cache && cache[m] == old(cache)[m]
        invariant forall m :: m in cache ==> m in old(cache) || Involves(g, user, n, m)
        decreases All(g, user).Keys - cache.Keys
      {
        ghost var missing := All(g, user).Keys - cache.Keys;
        match Getter(g, user, cache, n) {
          case Got(value) =>
            StoreKeepsCoherent(g, user, cache, n);
            assert n in missing;
            cache := cache[n := value];
          case Need(m) =>
            MissingIsRead(g, user, cache, n);
            MissIsEarlier(g, user, cache, n);
            DemandInvolves(g, user, cache, n);
            InAll(g, user, m);
            assert m in missing;
            var _ := Read(m);
            assert m !in All(g, user).Keys - cache.Keys;
        }
      }
      CachedIsRight(g, user, cache, n);
      AllInvolvedCached(g, user, cache, n);
      v := cache[n];
    }

    // Symbol._invalidate, Choice._invalidate
    method Invalidate(i: Id)
      modifies this`cache
      ensures forall n :: n in cache <==> n in old(cache) && n.id != i
      ensures forall n :: n in cache ==> cache[n] == old(cache)[n]
    {
      cache := cache - {Vis(i), Sel(i), TriVal(i), StrVal(i)};
    }

    // _invalidate_all
    method InvalidateAll()
      modifies this`cache
      ensures forall n :: n in cache <==> n in old(cache) && !(n.id < |g.items| && Defined(g, n.id))
      ensures forall n :: n in cache ==> cache[n] == old(cache)[n]
    {
      for i := 0 to |g.items|
        invariant forall n :: n in cache <==> n in old(cache) && !(n.id < i && Defined(g, n.id))
        invariant forall n :: n in cache ==> cache[n] == old(cache)[n]
      {
        if Defined(g, i) {
          Invalidate(i);
        }
      }
    }

    // _rec_invalidate
    method RecInvalidate(i: Id)
      requires WellFormed(g) && i < |g.items| && Defined(g, i)
      requires forall n :: n in cache ==> n.id < |g.items|
      modifies this`cache
      ensures Swept(g, old(cache), cache, i)
      decreases cache.Keys, if Vis(i) in cache then 0 else 1
    {
      hide WellFormed, Dependents, DependsOn, Defined;
      if i == g.modules {
        InvalidateAll();
        AllSwept(g, old(cache), cache, i);
      } else {
        Invalidate(i);
        var todo := Dependents(g, i);
        OneSwept(g, old(cache), cache, i);
        while todo != {}
          invariant SweptSoFar(g, old(cache), cache, i, todo)
          invariant forall d :: d in todo ==> DependsOn(g, d, i) && d < |g.items|
          decreases todo
        {
          var d :| d in todo;
          ghost var before := cache;
          if Vis(d) in cache {
            DependentIsDefined(g, d, i);
            assert cache.Keys <= old(cache).Keys;
            RecInvalidate(d);
            SweptMore(g, old(cache), before, cache, i, todo, d);
          } else {
            SweptPast(g, old(cache), cache, i, todo, d);
          }
          todo := todo - {d};
        }
      }
    }

    // _rec_invalidate_if_has_prompt
    method RecInvalidateIfHasPrompt(i: Id)
      requires WellFormed(g) && i < |g.items|
      requires forall n :: n in cache ==> n.id < |g.items|
      modifies this`cache
      ensures if HasPrompt(g, i) then Swept(g, old(cache), cache, i) else cache == old(cache)
    {
      if HasPrompt(g, i) {
        PromptedIsDefined(g, i);
        RecInvalidate(i);
      }
    }

    // Symbol.set_value: the value is stored if it is valid for the type; a symbol of a choice that is
    // set to y becomes the user selection of the choice.
    method SetValue(i: Id, value: Value) returns (ok: bool)
      requires Valid() && i < |g.items| && g.At(i).Symbol?
      modifies this`user, this`cache
      ensures Valid()
      ensures var v := Normalized(g.At(i).kind, value);
              var choice := g.At(i).choice;
              var repeated := choice == None && i in old(user).values && old(user).values[i] == v;
              && (ok <==> repeated || Acceptable(g, g.At(i).kind, v))
              && (!ok || repeated ==> user == old(user) && cache == old(cache))
              && (ok && !repeated ==>
                   && user.values == old(user).values[i := v]
                   && user.selections == if choice.Some? && v == T(2) then old(user).selections[choice.value := i]
                                         else old(user).selections)
    {
      hide WellFormed, Coherent, UserOk, Right;
      RightIsInside(g, user, cache);
      var kind, choice := g.At(i).kind, g.At(i).choice;
      var v := Normalized(kind, value);
      if choice == None && i in user.values && user.values[i] == v {
        return true;
      }
      if !Acceptable(g, kind, v) {
        return false;
      }
      ghost var was := user;
      user := user.(values := user.values[i := v]);
      if choice.Some? && v == T(2) {
        ChoiceOfSymbol(g, i);
        user := user.(selections := user.selections[choice.value := i]);
        RecInvalidate(choice.value);
        SelectionOk(g, was, user, i);
        SweepKeepsCoherent(g, was, user, old(cache), cache, choice.value);
      } else {
        RecInvalidateIfHasPrompt(i);
        SameSelectionsOk(g, was, user);
        if HasPrompt(g, i) {
          SweepKeepsCoherent(g, was, user, old(cache), cache, i);
        } else {
          PromptlessKeepsCoherent(g, was, user, cache, i);
        }
      }
      ok := true;
    }

    // Symbol.unset_value
    method UnsetValue(i: Id)
      requires Valid() && i < |g.items| && g.At(i).Symbol?
      modifies this`user, this`cache
      ensures Valid() && user == old(user).(values := old(user).values - {i})
    {
      hide WellFormed, Coherent, UserOk, Right;
      RightIsInside(g, user, cache);
      if i in user.values {
        ghost var was := user;
        user := user.(values := user.values - {i});
        RecInvalidateIfHasPrompt(i);
        SameSelectionsOk(g, was, user);
        if HasPrompt(g, i) {
          SweepKeepsCoherent(g, was, user, old(cache), cache, i);
        } else {
          PromptlessKeepsCoherent(g, was, user, cache, i);
        }
      }
      assert user.values == old(user).values - {i};
    }

    // Choice.set_value
    method SetMode(i: Id, value: Value) returns (ok: bool)
      requires Valid() && i < |g.items| && g.At(i).Choice?
      modifies this`user, this`cache
      ensures Valid()
      ensures var v := Normalized(Tristate, value);
              var repeated := i in old(user).values && old(user).values[i] == v;
              && (ok <==> || repeated
                          || ((g.At(i).kind == Bool || g.At(i).kind == Tristate) && Acceptable(g, g.At(i).kind, v)))
              && user == if ok then old(user).(values := old(user).values[i := v]) else old(user)
    {
      hide WellFormed, Coherent, UserOk, Right;
      RightIsInside(g, user, cache);
      var kind, v := g.At(i).kind, Normalized(Tristate, value);
      if i in user.values && user.values[i] == v {
        assert user.values == user.values[i := v];
        return true;
      }
      if (kind != Bool && kind != Tristate) || !Acceptable(g, kind, v) {
        return false;
      }
      ghost var was := user;
      user := user.(values := user.values[i := v]);
      RecInvalidate(i);
      SameSelectionsOk(g, was, user);
      SweepKeepsCoherent(g, was, user, old(cache), cache, i);
      ok := true;
    }

    // Choice.unset_value
    method UnsetMode(i: Id)
      requires Valid() && i < |g.items| && g.At(i).Choice?
      modifies this`user, this`cache
      ensures Valid() && user == User(old(user).values - {i}, old(user).selections - {i})
    {
      hide WellFormed, Coherent, UserOk, Right;
      RightIsInside(g, user, cache);
      if i in user.values || i in user.selections {
        ghost var was := user;
        user := User(user.values - {i}, user.selections - {i});
        RecInvalidate(i);
        FewerSelectionsOk(g, was, user, i);
        SweepKeepsCoherent(g, was, user, old(cache), cache, i);
      }
      assert user.values == old(user).values - {i} && user.selections == old(user).selections - {i};
    }
  }

  lemma PromptedIsDefined(g: Config, i: Id)
    requires WellFormed(g) && HasPrompt(g, i)
    ensures Defined(g, i)
  {}

  lemma ChoiceOfSymbol(g: Config, i: Id)
    requires WellFormed(g) && g.At(i).Symbol? && g.At(i).choice.Some?
    ensures var ch := g.At(i).choice.value;
            g.At(ch).Choice? && ch < |g.items| && i in g.At(ch).syms && DependsOn(g, i, ch)
  {}

  lemma SelectionOk(g: Config, u: User, u': User, i: Id)
    requires WellFormed(g) && UserOk(g, u) && g.At(i).Symbol? && g.At(i).choice.Some?
    requires u'.selections == u.selections[g.At(i).choice.value := i]
    ensures UserOk(g, u')
  {}

  lemma SameSelectionsOk(g: Config, u: User, u': User)
    requires UserOk(g, u) && u'.selections == u.selections
    ensures UserOk(g, u')
  {}

  lemma FewerSelectionsOk(g: Config, u: User, u': User, i: Id)
    requires UserOk(g, u) && u'.selections == u.selections - {i}
    ensures UserOk(g, u')
  {}

  lemma AllSwept(g: Config, c: Cache, c': Cache, i: Id)
    requires WellFormed(g) && i == g.modules && i < |g.items| && Defined(g, i)
    requires forall n :: n in c ==> n.id < |g.items|
    requires forall n :: n in c' <==> n in c && !(n.id < |g.items| && Defined(g, n.id))
    requires forall n :: n in c' ==> c'[n] == c[n]
    ensures Swept(g, c, c', i)
  {
    hide WellFormed;
    forall k: Id, j: Id | DependsOn(g, k, j) ensures Vis(k) !in c' {
      DependentIsDefined(g, k, j);
    }
  }

  lemma OneSwept(g: Config, c: Cache, c': Cache, i: Id)
    requires i != g.modules && WellFormed(g)
    requires forall n :: n in c' <==> n in c && n.id != i
    requires forall n :: n in c' ==> c'[n] == c[n]
    ensures SweptSoFar(g, c, c', i, Dependents(g, i))
    ensures forall d :: d in Dependents(g, i) ==> DependsOn(g, d, i) && d < |g.items|
  {
    hide WellFormed, DependsOn;
    forall k: Id | DependsOn(g, k, i) ensures k in Dependents(g, i) {
      DependentIsListed(g, k, i);
    }
  }

  lemma SweptPast(g: Config, c: Cache, c': Cache, i: Id, todo: set<Id>, d: Id)
    requires SweptSoFar(g, c, c', i, todo) && Vis(d) !in c'
    ensures SweptSoFar(g, c, c', i, todo - {d})
  {}
}
