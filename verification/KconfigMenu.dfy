/** The last steps on a level of the menu tree in scripts/kconfiglib.py: _flatten moves the children of
  * promptless nodes up behind them, _remove_ifs takes the `if` nodes out.
  */
module KconfigMenu {
  import opened Wrappers
  import opened Lists

  type Id = nat

  datatype Item = IfNode | ChoiceItem | OtherItem     // MenuNode.item; None for an `if`
  datatype Info = Info(item: Item, prompted: bool)

  // ---------------------------------------------------------------- menu trees

  datatype Tree = Tree(id: Id, kids: seq<Tree>)

  function Size(f: seq<Tree>): nat {
    if f == [] then 0 else 1 + Size(f[0].kids) + Size(f[1..])
  }

  // The nodes of a forest in the order in which they are displayed.
  function PreOrder(f: seq<Tree>): seq<Id> {
    if f == [] then [] else [f[0].id] + PreOrder(f[0].kids) + PreOrder(f[1..])
  }

  function InfoOf(k: map<Id, Info>, x: Id): Info { if x in k then k[x] else Info(OtherItem, true) }

  // A node whose children _flatten moves up.
  predicate Opens(k: map<Id, Info>, x: Id) { !InfoOf(k, x).prompted && InfoOf(k, x).item != ChoiceItem }

  predicate IsIf(k: map<Id, Info>, x: Id) { InfoOf(k, x).item == IfNode }

  lemma {:induction false} SizeAppend(a: seq<Tree>, b: seq<Tree>)
    ensures Size(a + b) == Size(a) + Size(b)
  {
    if a == [] {
      assert a + b == b;
    } else {
      assert (a + b)[1..] == a[1..] + b;
      SizeAppend(a[1..], b);
    }
  }

  lemma {:induction false} PreOrderAppend(a: seq<Tree>, b: seq<Tree>)
    ensures PreOrder(a + b) == PreOrder(a) + PreOrder(b)
  {
    if a == [] {
      assert a + b == b;
    } else {
      assert (a + b)[1..] == a[1..] + b;
      PreOrderAppend(a[1..], b);
      assert [a[0].id] + PreOrder(a[0].kids) + (PreOrder(a[1..]) + PreOrder(b)) == PreOrder(a) + PreOrder(b);
    }
  }

  // _flatten
  function Flattened(k: map<Id, Info>, f: seq<Tree>): seq<Tree>
    decreases Size(f)
  {
    if f == [] then []
    else if f[0].kids != [] && Opens(k, f[0].id) then
      SizeAppend(f[0].kids, f[1..]);
      [Tree(f[0].id, [])] + Flattened(k, f[0].kids + f[1..])
    else [f[0]] + Flattened(k, f[1..])
  }

  // _remove_ifs
  function Kept(k: map<Id, Info>, f: seq<Tree>): seq<Tree> {
    if f == [] then [] else if IsIf(k, f[0].id) then Kept(k, f[1..]) else [f[0]] + Kept(k, f[1..])
  }

  function WithoutIfs(k: map<Id, Info>, ids: seq<Id>): seq<Id> {
    if ids == [] then [] else if IsIf(k, ids[0]) then WithoutIfs(k, ids[1..]) else [ids[0]] + WithoutIfs(k, ids[1..])
  }

  // Flattening keeps the order of all nodes.
  lemma {:induction false} FlatteningKeepsOrder(k: map<Id, Info>, f: seq<Tree>)
    ensures PreOrder(Flattened(k, f)) == PreOrder(f)
    decreases Size(f)
  {
    hide PreOrder;
    if f != [] {
      var t, rest := f[0], f[1..];
      PreOrderCons(t, rest);
      assert [t] + rest == f;
      if t.kids != [] && Opens(k, t.id) {
        SizeAppend(t.kids, rest);
        FlatteningKeepsOrder(k, t.kids + rest);
        PreOrderAppend(t.kids, rest);
        PreOrderCons(Tree(t.id, []), Flattened(k, t.kids + rest));
        NoPreOrder();
        assert [t.id] + (PreOrder(t.kids) + PreOrder(rest)) == [t.id] + PreOrder(t.kids) + PreOrder(rest);
      } else {
        FlatteningKeepsOrder(k, rest);
        PreOrderCons(t, Flattened(k, rest));
      }
    }
  }

  lemma NoPreOrder()
    ensures PreOrder([]) == []
  {}

  // No node of a flattened level has children that should have been moved up.
  lemma {:induction false} FlatteningIsComplete(k: map<Id, Info>, f: seq<Tree>)
    ensures forall t :: t in Flattened(k, f) ==> t.kids == [] || !Opens(k, t.id)
    decreases Size(f)
  {
    if f != [] {
      if f[0].kids != [] && Opens(k, f[0].id) {
        SizeAppend(f[0].kids, f[1..]);
        FlatteningIsComplete(k, f[0].kids + f[1..]);
      } else {
        FlatteningIsComplete(k, f[1..]);
      }
    }
  }

  lemma PreOrderCons(t: Tree, f: seq<Tree>)
    ensures PreOrder([t] + f) == [t.id] + PreOrder(t.kids) + PreOrder(f)
  {
    assert ([t] + f)[1..] == f;
  }

  lemma {:induction false} WithoutIfsAppend(k: map<Id, Info>, a: seq<Id>, b: seq<Id>)
    ensures WithoutIfs(k, a + b) == WithoutIfs(k, a) + WithoutIfs(k, b)
  {
    if a == [] {
      assert a + b == b;
    } else {
      assert (a + b)[1..] == a[1..] + b;
      WithoutIfsAppend(k, a[1..], b);
    }
  }

  // Removing `if` nodes without children keeps the order of the other nodes.
  lemma {:induction false} RemovingKeepsOrder(k: map<Id, Info>, f: seq<Tree>)
    requires forall t :: t in f && IsIf(k, t.id) ==> t.kids == []
    ensures WithoutIfs(k, PreOrder(Kept(k, f))) == WithoutIfs(k, PreOrder(f))
    ensures forall t :: t in Kept(k, f) ==> t in f && !IsIf(k, t.id)
  {
    if f != [] {
      var t, rest := f[0], f[1..];
      RemovingKeepsOrder(k, rest);
      var front := [t.id] + PreOrder(t.kids);
      WithoutIfsAppend(k, front, PreOrder(rest));
      if IsIf(k, t.id) {
        assert front == [t.id] && WithoutIfs(k, front) == [];
      } else {
        PreOrderCons(t, Kept(k, rest));
        WithoutIfsAppend(k, front, PreOrder(Kept(k, rest)));
      }
    }
  }

  // Main theorem about the menu: flattening a level and removing its `if` nodes changes neither the
  // other nodes nor their order, and leaves no `if` node on the level.
  lemma LevelKeepsOrder(k: map<Id, Info>, f: seq<Tree>)
    requires forall x :: IsIf(k, x) ==> Opens(k, x)
    ensures var g := Kept(k, Flattened(k, f));
            && WithoutIfs(k, PreOrder(g)) == WithoutIfs(k, PreOrder(f))
            && forall t :: t in g ==> !IsIf(k, t.id) && (t.kids == [] || !Opens(k, t.id))
  {
    FlatteningKeepsOrder(k, f);
    FlatteningIsComplete(k, f);
    RemovingKeepsOrder(k, Flattened(k, f));
  }

  // ---------------------------------------------------------------- what is on the level

  // Tree t is on the level, or below it with only nodes above it whose children are moved up.
  ghost predicate Surfaces(k: map<Id, Info>, f: seq<Tree>, t: Tree)
    decreases f
  {
    exists i :: 0 <= i < |f| && (f[i] == t || (Opens(k, f[i].id) && Surfaces(k, f[i].kids, t)))
  }

  function Shown(k: map<Id, Info>, t: Tree): Tree { if Opens(k, t.id) then Tree(t.id, []) else t }

  lemma SurfacesCons(k: map<Id, Info>, f: seq<Tree>, t: Tree)
    requires f != []
    ensures Surfaces(k, f, t)
            <==> f[0] == t || (Opens(k, f[0].id) && Surfaces(k, f[0].kids, t)) || Surfaces(k, f[1..], t)
  {
    if Surfaces(k, f, t) {
      var i :| 0 <= i < |f| && (f[i] == t || (Opens(k, f[i].id) && Surfaces(k, f[i].kids, t)));
      assert i > 0 ==> f[i] == f[1..][i - 1];
    }
    if Surfaces(k, f[1..], t) {
      var i :| 0 <= i < |f| - 1
               && (f[1..][i] == t || (Opens(k, f[1..][i].id) && Surfaces(k, f[1..][i].kids, t)));
      assert f[i + 1] == f[1..][i];
    }
  }

  lemma {:induction false} SurfacesAppend(k: map<Id, Info>, a: seq<Tree>, b: seq<Tree>, t: Tree)
    ensures Surfaces(k, a + b, t) <==> Surfaces(k, a, t) || Surfaces(k, b, t)
  {
    hide Surfaces;
    if a == [] {
      assert a + b == b;
      NothingSurfaces(k, t);
    } else {
      assert (a + b)[1..] == a[1..] + b;
      SurfacesCons(k, a + b, t);
      SurfacesCons(k, a, t);
      SurfacesAppend(k, a[1..], b, t);
    }
  }

  lemma NothingSurfaces(k: map<Id, Info>, t: Tree)
    ensures !Surfaces(k, [], t)
  {}

  lemma {:induction false} FlattenedHas(k: map<Id, Info>, f: seq<Tree>, u: Tree)
    ensures u in Flattened(k, f) <==> exists t :: Surfaces(k, f, t) && u == Shown(k, t)
    decreases Size(f)
  {
    hide Surfaces, Opens;
    if f == [] {
      forall t ensures !Surfaces(k, f, t) {
        NothingSurfaces(k, t);
      }
    } else {
      var more := if f[0].kids != [] && Opens(k, f[0].id) then f[0].kids + f[1..] else f[1..];
      SizeAppend(f[0].kids, f[1..]);
      FlattenedHas(k, more, u);
      forall t ensures Surfaces(k, f, t) <==> t == f[0] || Surfaces(k, more, t) {
        SurfacesCons(k, f, t);
        SurfacesAppend(k, f[0].kids, f[1..], t);
        NothingSurfaces(k, t);
      }
      assert Flattened(k, f) == [Shown(k, f[0])] + Flattened(k, more);
    }
  }

  lemma {:induction false} KeptHas(k: map<Id, Info>, f: seq<Tree>, u: Tree)
    ensures u in Kept(k, f) <==> u in f && !IsIf(k, u.id)
  {
    if f != [] {
      KeptHas(k, f[1..], u);
      assert f == [f[0]] + f[1..];
    }
  }

  // The level then has exactly the nodes that are no `if` and that were on it, or below it with only
  // promptless nodes above them; each has kept its children if those are not moved up.
  lemma LevelHas(k: map<Id, Info>, f: seq<Tree>, u: Tree)
    ensures u in Kept(k, Flattened(k, f)) <==> exists t :: Surfaces(k, f, t) && u == Shown(k, t) && !IsIf(k, t.id)
  {
    hide Surfaces, Opens, IsIf, Kept, Flattened;
    KeptHas(k, Flattened(k, f), u);
    FlattenedHas(k, f, u);
  }

  // ---------------------------------------------------------------- the tree in memory

  // MenuNode.next and MenuNode.list of all nodes.
  datatype Links = Links(next: map<Id, Option<Id>>, list: map<Id, Option<Id>>)

  function First(f: seq<Tree>, after: Option<Id>): Option<Id> { if f == [] then after else Some(f[0].id) }

  // Following `next` from `start` goes through the nodes of the forest and then to `after`, and the
  // children of each node are linked in the same way from its `list`.
  predicate Linked(l: Links, start: Option<Id>, f: seq<Tree>, after: Option<Id>)
    decreases Size(f)
  {
    if f == [] then start == after else
      var x := f[0].id;
      && start == Some(x) && x in l.next && x in l.list
      && Linked(l, l.list[x], f[0].kids, None)
      && Linked(l, l.next[x], f[1..], after)
  }

  lemma {:induction false} LinkedAppend(l: Links, start: Option<Id>, a: seq<Tree>, b: seq<Tree>, after: Option<Id>)
    ensures Linked(l, start, a + b, after)
            <==> Linked(l, start, a, First(b, after)) && Linked(l, First(b, after), b, after)
    decreases |a|
  {
    if a == [] {
      assert a + b == b;
      LinkedStart(l, start, b, after);
    } else {
      assert (a + b)[1..] == a[1..] + b && (a + b)[0] == a[0];
      var x := a[0].id;
      if x in l.next {
        LinkedAppend(l, l.next[x], a[1..], b, after);
      }
    }
  }

  lemma LinkedStart(l: Links, start: Option<Id>, f: seq<Tree>, after: Option<Id>)
    ensures Linked(l, start, f, after) <==> start == First(f, after) && Linked(l, First(f, after), f, after)
  {}

  // Changes to other nodes leave a forest linked as it is.
  lemma {:induction false} LinkedFrame(l: Links, l': Links, start: Option<Id>, f: seq<Tree>, after: Option<Id>)
    requires Linked(l, start, f, after)
    requires forall x :: x in PreOrder(f) ==>
               && (x in l.next ==> x in l'.next && l'.next[x] == l.next[x])
               && (x in l.list ==> x in l'.list && l'.list[x] == l.list[x])
    ensures Linked(l', start, f, after)
    decreases Size(f)
  {
    if f != [] {
      var x := f[0].id;
      assert x in PreOrder(f);
      assert forall y :: y in PreOrder(f[0].kids) || y in PreOrder(f[1..]) ==> y in PreOrder(f);
      LinkedFrame(l, l', l.list[x], f[0].kids, None);
      LinkedFrame(l, l', l.next[x], f[1..], after);
    }
  }

  // Redirecting the last node of a forest.
  lemma {:induction false} LinkedRelink(l: Links, l': Links, start: Option<Id>, f: seq<Tree>, after: Option<Id>,
            to: Option<Id>)
    requires Linked(l, start, f, after) && f != [] && Distinct(PreOrder(f))
    requires var last := f[|f| - 1].id; last in l'.next && l'.next[last] == to
    requires forall x :: x in PreOrder(f) ==>
               && (x != f[|f| - 1].id && x in l.next ==> x in l'.next && l'.next[x] == l.next[x])
               && (x in l.list ==> x in l'.list && l'.list[x] == l.list[x])
    ensures Linked(l', start, f, to)
    decreases |f|
  {
    hide Distinct, PreOrder;
    var x := f[0].id;
    PreOrderParts(f);
    LinkedFrame(l, l', l.list[x], f[0].kids, None);
    if |f| > 1 {
      LinkedRelink(l, l', l.next[x], f[1..], after, to);
    }
  }

  // The nodes of a forest without repetition: the first one, its children's, and the others' are apart.
  lemma PreOrderParts(f: seq<Tree>)
    requires f != [] && Distinct(PreOrder(f))
    ensures Distinct(PreOrder(f[0].kids)) && Distinct(PreOrder(f[1..]))
    ensures f[0].id !in PreOrder(f[0].kids) && f[0].id !in PreOrder(f[1..])
    ensures forall x :: x in PreOrder(f[0].kids) ==> x !in PreOrder(f[1..])
    ensures forall x :: x in PreOrder(f) <==> x == f[0].id || x in PreOrder(f[0].kids) || x in PreOrder(f[1..])
    ensures f[|f| - 1].id in PreOrder(f) && (|f| > 1 ==> f[|f| - 1].id in PreOrder(f[1..]))
  {
    hide Distinct, PreOrder;
    PreOrderSplit(f);
    ThreeParts(f[0].id, PreOrder(f[0].kids), PreOrder(f[1..]));
    LastListed(f);
  }

  lemma PreOrderSplit(f: seq<Tree>)
    requires f != []
    ensures PreOrder(f) == [f[0].id] + PreOrder(f[0].kids) + PreOrder(f[1..])
  {}

  lemma ThreeParts(x: Id, a: seq<Id>, b: seq<Id>)
    requires Distinct([x] + a + b)
    ensures Distinct(a) && Distinct(b) && x !in a && x !in b
    ensures forall y :: y in a ==> y !in b
    ensures forall y :: y in [x] + a + b <==> y == x || y in a || y in b
  {
    hide Distinct;
    DistinctParts([x] + a, b);
    DistinctParts([x], a);
    assert x in [x] + a;
  }

  lemma LastListed(f: seq<Tree>)
    requires f != []
    ensures f[|f| - 1].id in PreOrder(f) && (|f| > 1 ==> f[|f| - 1].id in PreOrder(f[1..]))
  {
    hide PreOrder;
    RootsListed(f);
    if |f| > 1 {
      RootsListed(f[1..]);
      assert f[1..][|f| - 2] == f[|f| - 1];
    }
  }

  lemma DistinctParts(a: seq<Id>, b: seq<Id>)
    requires Distinct(a + b)
    ensures Distinct(a) && Distinct(b) && forall x :: x in a ==> x !in b
  {
    var c := a + b;
    assert forall i :: 0 <= i < |a| ==> a[i] == c[i];
    assert forall i :: 0 <= i < |b| ==> b[i] == c[|a| + i];
  }

  lemma {:induction false} RootsListed(f: seq<Tree>)
    ensures forall t :: t in f ==> t.id in PreOrder(f)
  {
    if f != [] {
      RootsListed(f[1..]);
      assert f == [f[0]] + f[1..];
    }
  }

  // Each node's parent is the node it is a child of.
  predicate ParentsOk(parent: map<Id, Option<Id>>, f: seq<Tree>, p: Option<Id>)
    decreases Size(f)
  {
    f != [] ==>
      && f[0].id in parent && parent[f[0].id] == p
      && ParentsOk(parent, f[0].kids, Some(f[0].id)) && ParentsOk(parent, f[1..], p)
  }

  lemma {:induction false} ParentsAppend(parent: map<Id, Option<Id>>, a: seq<Tree>, b: seq<Tree>, p: Option<Id>)
    ensures ParentsOk(parent, a + b, p) <==> ParentsOk(parent, a, p) && ParentsOk(parent, b, p)
  {
    if a == [] {
      assert a + b == b;
    } else {
      assert (a + b)[1..] == a[1..] + b && (a + b)[0] == a[0];
      ParentsAppend(parent, a[1..], b, p);
    }
  }

  lemma {:induction false} ParentsFrame(parent: map<Id, Option<Id>>, parent': map<Id, Option<Id>>, f: seq<Tree>,
            p: Option<Id>)
    requires ParentsOk(parent, f, p)
    requires forall x :: x in PreOrder(f) && x in parent ==> x in parent' && parent'[x] == parent[x]
    ensures ParentsOk(parent', f, p)
    decreases Size(f)
  {
    if f != [] {
      assert f[0].id in PreOrder(f);
      assert forall y :: y in PreOrder(f[0].kids) || y in PreOrder(f[1..]) ==> y in PreOrder(f);
      ParentsFrame(parent, parent', f[0].kids, Some(f[0].id));
      ParentsFrame(parent, parent', f[1..], p);
    }
  }

  function Roots(f: seq<Tree>): set<Id> { set t | t in f :: t.id }

  // The roots of a forest get another parent.
  lemma {:induction false} ParentsReset(parent: map<Id, Option<Id>>, parent': map<Id, Option<Id>>, f: seq<Tree>,
            q: Option<Id>, p: Option<Id>)
    requires ParentsOk(parent, f, q) && Distinct(PreOrder(f))
    requires forall x :: x in PreOrder(f) && x in parent ==>
               x in parent' && parent'[x] == if x in Roots(f) then p else parent[x]
    ensures ParentsOk(parent', f, p)
    decreases |f|
  {
    hide Distinct;
    if f != [] {
      PreOrderParts(f);
      RootsListed(f[1..]);
      assert f[0] in f && forall t :: t in f <==> t == f[0] || t in f[1..];
      assert forall x :: x in PreOrder(f[0].kids) ==> x !in Roots(f);
      ParentsFrame(parent, parent', f[0].kids, Some(f[0].id));
      ParentsReset(parent, parent', f[1..], q, p);
    }
  }

  function FlattenedAt(l: Links, t: Tree): Links
    requires t.kids != [] && t.id in l.next && t.id in l.list
  {
    var last := t.kids[|t.kids| - 1].id;
    Links(l.next[last := l.next[t.id]][t.id := l.list[t.id]], l.list[t.id := None])
  }

  // What _flatten does at one node: the children are linked in between the node and the next one.
  lemma FlattenTail(l: Links, t: Tree, rest: seq<Tree>)
    requires Linked(l, Some(t.id), [t] + rest, None) && Distinct(PreOrder([t] + rest)) && t.kids != []
    ensures t.id in l.next && t.id in l.list && l.list[t.id] == Some(t.kids[0].id)
    ensures Linked(FlattenedAt(l, t), Some(t.id), [Tree(t.id, [])] + (t.kids + rest), None)
  {
    hide Distinct, PreOrder;
    var all := [t] + rest;
    assert all[1..] == rest;
    PreOrderParts(all);
    RootsListed(t.kids);
    assert t.kids[|t.kids| - 1] in t.kids;
    var l' := FlattenedAt(l, t);
    LinkedRelink(l, l', l.list[t.id], t.kids, None, l.next[t.id]);
    LinkedFrame(l, l', l.next[t.id], rest, None);
    LinkedStart(l', l.next[t.id], rest, None);
    LinkedAppend(l', l.list[t.id], t.kids, rest, None);
    assert ([Tree(t.id, [])] + (t.kids + rest))[1..] == t.kids + rest;
  }

  lemma FlattenLinks(l: Links, start: Option<Id>, done: seq<Tree>, t: Tree, rest: seq<Tree>)
    requires Linked(l, start, done + ([t] + rest), None) && Distinct(PreOrder(done + ([t] + rest))) && t.kids != []
    ensures t.id in l.next && t.id in l.list && l.list[t.id] == Some(t.kids[0].id)
    ensures Linked(FlattenedAt(l, t), start, done + ([Tree(t.id, [])] + (t.kids + rest)), None)
  {
    hide Distinct, PreOrder, Linked;
    var all, moved := [t] + rest, [Tree(t.id, [])] + (t.kids + rest);
    LinkedAppend(l, start, done, all, None);
    PreOrderAppend(done, all);
    DistinctParts(PreOrder(done), PreOrder(all));
    FlattenTail(l, t, rest);
    PreOrderParts(all);
    RootsListed(t.kids);
    assert t.kids[|t.kids| - 1] in t.kids;
    LinkedFrame(l, FlattenedAt(l, t), start, done, Some(t.id));
    LinkedAppend(FlattenedAt(l, t), start, done, moved, None);
  }

  lemma FlattenParents(parent: map<Id, Option<Id>>, parent': map<Id, Option<Id>>, done: seq<Tree>, t: Tree,
            rest: seq<Tree>, p: Option<Id>)
    requires ParentsOk(parent, done + ([t] + rest), p) && Distinct(PreOrder(done + ([t] + rest)))
    requires forall x :: x in parent ==> x in parent' && parent'[x] == if x in Roots(t.kids) then p else parent[x]
    ensures ParentsOk(parent', done + ([Tree(t.id, [])] + (t.kids + rest)), p)
  {
    hide Distinct;
    var all, first := [t] + rest, Tree(t.id, []);
    assert all[1..] == rest;
    ParentsAppend(parent, done, all, p);
    PreOrderAppend(done, all);
    DistinctParts(PreOrder(done), PreOrder(all));
    PreOrderParts(all);
    RootsListed(t.kids);
    assert forall x :: x in Roots(t.kids) ==> x in PreOrder(t.kids);
    ParentsFrame(parent, parent', done, p);
    ParentsReset(parent, parent', t.kids, Some(t.id), p);
    ParentsFrame(parent, parent', rest, p);
    ParentsAppend(parent', t.kids, rest, p);
    assert ([first] + (t.kids + rest))[1..] == t.kids + rest;
    ParentsAppend(parent', done, [first] + (t.kids + rest), p);
  }

  lemma FlattenOrder(done: seq<Tree>, t: Tree, rest: seq<Tree>)
    ensures PreOrder(done + ([Tree(t.id, [])] + (t.kids + rest))) == PreOrder(done + ([t] + rest))
    ensures Size(t.kids + rest) < Size([t] + rest)
  {
    hide PreOrder;
    PreOrderAppend(done, [t] + rest);
    PreOrderAppend(done, [Tree(t.id, [])] + (t.kids + rest));
    PreOrderCons(t, rest);
    PreOrderCons(Tree(t.id, []), t.kids + rest);
    PreOrderAppend(t.kids, rest);
    NoPreOrder();
    Shifted(t.id, PreOrder(t.kids), PreOrder(rest));
    SizeAppend(t.kids, rest);
    assert ([t] + rest)[1..] == rest;
  }

  lemma Shifted(x: Id, a: seq<Id>, b: seq<Id>)
    ensures [x] + a + b == [x] + [] + (a + b)
  {}

  lemma LinkedFirst(l: Links, start: Option<Id>, f: seq<Tree>)
    requires Linked(l, start, f, None)
    ensures start == First(f, None)
  {}

  // The node at the head of the rest of a level.
  lemma NodeIsLinked(l: Links, start: Option<Id>, done: seq<Tree>, t: Tree, rest: seq<Tree>)
    requires Linked(l, start, done + ([t] + rest), None)
    ensures t.id in l.next && t.id in l.list
    ensures l.list[t.id] == First(t.kids, None) && l.next[t.id] == First(rest, None)
    ensures Linked(l, l.list[t.id], t.kids, None)
  {
    LinkedAppend(l, start, done, [t] + rest, None);
    assert ([t] + rest)[1..] == rest;
    LinkedFirst(l, l.list[t.id], t.kids);
    LinkedFirst(l, l.next[t.id], rest);
  }

  lemma NodeParent(parent: map<Id, Option<Id>>, done: seq<Tree>, t: Tree, rest: seq<Tree>, p: Option<Id>)
    requires ParentsOk(parent, done + ([t] + rest), p)
    ensures t.id in parent && parent[t.id] == p
  {
    ParentsAppend(parent, done, [t] + rest, p);
  }

  lemma NextKid(l: Links, start: Option<Id>, kids: seq<Tree>, i: nat)
    requires Linked(l, start, kids, None) && i < |kids|
    ensures kids[i].id in l.next && l.next[kids[i].id] == if i + 1 < |kids| then Some(kids[i + 1].id) else None
  {
    assert kids == kids[..i] + ([kids[i]] + kids[i + 1..]);
    NodeIsLinked(l, start, kids[..i], kids[i], kids[i + 1..]);
  }

  lemma Shift(done: seq<Tree>, t: Tree, rest: seq<Tree>)
    ensures (done + [t]) + rest == done + ([t] + rest)
  {}

  lemma OneMoreRoot(f: seq<Tree>, i: nat)
    requires i < |f|
    ensures forall x :: x in Roots(f[..i + 1]) <==> x in Roots(f[..i]) || x == f[i].id
  {
    assert f[..i + 1] == f[..i] + [f[i]];
    assert f[i] in f[..i + 1];
  }

  // The nodes from `start` on are this forest of children of node p, with consistent parents.
  ghost predicate HoldsIn(l: Links, parent: map<Id, Option<Id>>, start: Option<Id>, f: seq<Tree>, p: Option<Id>) {
    Linked(l, start, f, None) && Distinct(PreOrder(f)) && ParentsOk(parent, f, p)
  }

  // One step of _flatten at a node whose children are moved up.
  lemma FlattenStep(l: Links, parent: map<Id, Option<Id>>, parent': map<Id, Option<Id>>, start: Option<Id>,
                    done: seq<Tree>, t: Tree, rest: seq<Tree>, p: Option<Id>)
    requires HoldsIn(l, parent, start, done + ([t] + rest), p) && t.kids != []
    requires forall x :: x in parent ==> x in parent' && parent'[x] == if x in Roots(t.kids) then p else parent[x]
    ensures t.id in l.next && t.id in l.list
    ensures HoldsIn(FlattenedAt(l, t), parent', start, (done + [Tree(t.id, [])]) + (t.kids + rest), p)
    ensures Size(t.kids + rest) < Size([t] + rest)
    ensures PreOrder((done + [Tree(t.id, [])]) + (t.kids + rest)) == PreOrder(done + ([t] + rest))
    ensures t.id in FlattenedAt(l, t).next && FlattenedAt(l, t).next[t.id] == First(t.kids + rest, None)
  {
    hide Distinct, Linked, ParentsOk, PreOrder;
    var first := Tree(t.id, []);
    FlattenLinks(l, start, done, t, rest);
    FlattenOrder(done, t, rest);
    FlattenParents(parent, parent', done, t, rest, p);
    Shift(done, first, t.kids + rest);
    NodeIsLinked(FlattenedAt(l, t), start, done, first, t.kids + rest);
  }

  // The other nodes are passed over.
  lemma NodeHeld(l: Links, parent: map<Id, Option<Id>>, start: Option<Id>, done: seq<Tree>, t: Tree, rest: seq<Tree>,
            p: Option<Id>)
    requires HoldsIn(l, parent, start, done + ([t] + rest), p)
    ensures HoldsIn(l, parent, start, (done + [t]) + rest, p)
    ensures (done + [t]) + rest == done + ([t] + rest) && t.id in PreOrder(done + ([t] + rest))
    ensures t.id in l.next && t.id in l.list && t.id in parent && parent[t.id] == p
    ensures l.list[t.id] == First(t.kids, None) && l.next[t.id] == First(rest, None)
    ensures Linked(l, l.list[t.id], t.kids, None) && Size(rest) < Size([t] + rest)
  {
    hide Distinct, Linked, ParentsOk, PreOrder;
    NodeIsLinked(l, start, done, t, rest);
    NodeParent(parent, done, t, rest, p);
    Shift(done, t, rest);
    RootsListed(done + ([t] + rest));
    assert (done + ([t] + rest))[|done|] == t;
    assert ([t] + rest)[1..] == rest;
  }

  // The nodes of a level from the first one on that is no `if`.
  function DropIfs(k: map<Id, Info>, f: seq<Tree>): seq<Tree> {
    if f != [] && IsIf(k, f[0].id) then DropIfs(k, f[1..]) else f
  }

  lemma Grouped(t: Tree, a: seq<Tree>, b: seq<Tree>)
    ensures [t] + (a + b) == ([t] + a) + b
  {}

  lemma {:induction false} DropIfsIsSuffix(k: map<Id, Info>, f: seq<Tree>) returns (dropped: seq<Tree>)
    ensures f == dropped + DropIfs(k, f) && Kept(k, f) == Kept(k, DropIfs(k, f))
  {
    if f != [] && IsIf(k, f[0].id) {
      var d := DropIfsIsSuffix(k, f[1..]);
      dropped := [f[0]] + d;
      Grouped(f[0], d, DropIfs(k, f[1..]));
      assert f == [f[0]] + f[1..];
    } else {
      dropped := [];
    }
  }

  // Taking a stretch of nodes out of a level by redirecting the start of the list.
  lemma CutStart(l: Links, l': Links, parent: map<Id, Option<Id>>, start: Option<Id>, dropped: seq<Tree>,
            rest: seq<Tree>, p: Option<Id>)
    requires HoldsIn(l, parent, start, dropped + rest, p)
    requires forall x :: x in PreOrder(rest) ==>
               && (x in l.next ==> x in l'.next && l'.next[x] == l.next[x])
               && (x in l.list ==> x in l'.list && l'.list[x] == l.list[x])
    ensures HoldsIn(l', parent, First(rest, None), rest, p)
  {
    hide Linked, ParentsOk, PreOrder, Distinct;
    LinkedAppend(l, start, dropped, rest, None);
    ParentsAppend(parent, dropped, rest, p);
    PreOrderAppend(dropped, rest);
    DistinctParts(PreOrder(dropped), PreOrder(rest));
    LinkedFrame(l, l', First(rest, None), rest, None);
  }

  lemma DistinctOuter(a: seq<Id>, b: seq<Id>, c: seq<Id>)
    requires Distinct(a + (b + c))
    ensures Distinct(a + c)
  {
    var all, less := a + (b + c), a + c;
    forall i, j | 0 <= i < j < |less| ensures less[i] != less[j] {
      var i', j' := if i < |a| then i else i + |b|, if j < |a| then j else j + |b|;
      assert less[i] == all[i'] && less[j] == all[j'];
    }
  }

  lemma WithoutMiddle(a: seq<Tree>, b: seq<Tree>, c: seq<Tree>)
    requires Distinct(PreOrder(a + (b + c)))
    ensures Distinct(PreOrder(a + c))
  {
    hide Distinct, PreOrder;
    PreOrderAppend(a, b + c);
    PreOrderAppend(b, c);
    PreOrderAppend(a, c);
    DistinctOuter(PreOrder(a), PreOrder(b), PreOrder(c));
  }

  // Taking a stretch of nodes out of a level by redirecting the node t before it.
  lemma CutAfter(l: Links, parent: map<Id, Option<Id>>, start: Option<Id>, done: seq<Tree>, t: Tree,
                 dropped: seq<Tree>, rest: seq<Tree>, p: Option<Id>)
    requires HoldsIn(l, parent, start, (done + [t]) + (dropped + rest), p)
    ensures HoldsIn(l.(next := l.next[t.id := First(rest, None)]), parent, start, (done + [t]) + rest, p)
  {
    hide Linked, ParentsOk, PreOrder, Distinct;
    var front, l' := done + [t], l.(next := l.next[t.id := First(rest, None)]);
    WithoutMiddle(front, dropped, rest);
    LinkedAppend(l, start, front, dropped + rest, None);
    LinkedAppend(l, First(dropped + rest, None), dropped, rest, None);
    ParentsAppend(parent, front, dropped + rest, p);
    ParentsAppend(parent, dropped, rest, p);
    ParentsAppend(parent, front, rest, p);
    PreOrderAppend(front, rest);
    DistinctParts(PreOrder(front), PreOrder(rest));
    RootsListed(front);
    assert front[|front| - 1] == t && t in front;
    LinkedRelink(l, l', start, front, First(dropped + rest, None), First(rest, None));
    LinkedFrame(l, l', First(rest, None), rest, None);
    LinkedAppend(l', start, front, rest, None);
  }

  lemma KeptNext(k: map<Id, Info>, done: seq<Tree>, t: Tree, rest: seq<Tree>)
    requires !IsIf(k, t.id)
    ensures done + Kept(k, [t] + rest) == (done + [t]) + Kept(k, rest)
  {
    assert ([t] + rest)[1..] == rest;
  }

  // ---------------------------------------------------------------- the code

  class Menu {
    const info: map<Id, Info>            // item and prompt of the nodes
    var next: map<Id, Option<Id>>
    var list: map<Id, Option<Id>>
    var parent: map<Id, Option<Id>>

    function NodeLinks(): Links
      reads this
    {
      Links(next, list)
    }

    ghost predicate Holds(start: Option<Id>, f: seq<Tree>, p: Option<Id>)
      reads this
    {
      HoldsIn(NodeLinks(), parent, start, f, p)
    }

    constructor (info: map<Id, Info>, next: map<Id, Option<Id>>, list: map<Id, Option<Id>>, parent: map<Id, Option<Id>>)
      ensures this.info == info && this.next == next && this.list == list && this.parent == parent
    {
      this.info, this.next, this.list, this.parent := info, next, list, parent;
    }

    // The inner loop of _flatten: the children get a new parent; returns the last of them.
    method Reparent(first: Id, p: Option<Id>, ghost kids: seq<Tree>) returns (last: Id)
      requires kids != [] && kids[0].id == first && Linked(NodeLinks(), Some(first), kids, None)
      modifies this`parent
      ensures last == kids[|kids| - 1].id
      ensures forall x :: x in old(parent) ==>
                x in parent && parent[x] == if x in Roots(kids) then p else old(parent)[x]
    {
      last := first;
      ghost var i := 0;
      parent := parent[last := p];
      OneMoreRoot(kids, 0);
      NextKid(NodeLinks(), Some(first), kids, 0);
      while next[last] != None
        invariant i < |kids| && last == kids[i].id && last in next
        invariant next[last] == if i + 1 < |kids| then Some(kids[i + 1].id) else None
        invariant forall x :: x in old(parent) ==>
          x in parent && parent[x] == if x in Roots(kids[..i + 1]) then p else old(parent)[x]
        decreases |kids| - i
      {
        last := next[last].value;
        i := i + 1;
        parent := parent[last := p];
        NextKid(NodeLinks(), Some(first), kids, i);
        OneMoreRoot(kids, i);
      }
      assert kids[..i + 1] == kids;
    }

    // What _flatten does at one node.
    method MoveUp(x: Id, ghost start: Option<Id>, ghost done: seq<Tree>, ghost t: Tree, ghost more: seq<Tree>,
              ghost p: Option<Id>)
      requires Holds(start, done + ([t] + more), p) && t.id == x && x in list && list[x] != None && t.kids != []
      modifies this`next, this`list, this`parent
      ensures Holds(start, (done + [Tree(x, [])]) + (t.kids + more), p)
      ensures x in next && next[x] == First(t.kids + more, None) && Size(t.kids + more) < Size([t] + more)
      ensures PreOrder((done + [Tree(x, [])]) + (t.kids + more)) == PreOrder(done + ([t] + more))
      ensures forall y :: y in old(list) && y != x ==> y in list && list[y] == old(list)[y]
    {
      hide HoldsIn, Size, Linked, PreOrder, Roots;
      NodeHeld(NodeLinks(), parent, start, done, t, more, p);
      ghost var l, before := NodeLinks(), parent;
      var last := Reparent(list[x].value, parent[x], t.kids);
      FlattenStep(l, before, parent, start, done, t, more, p);
      next := next[last := next[x]];
      next := next[x := list[x]];
      list := list[x := None];
    }

    // _flatten
    method Flatten(start: Option<Id>, ghost f: seq<Tree>, ghost p: Option<Id>)
      requires Holds(start, f, p)
      modifies this`next, this`list, this`parent
      ensures Holds(start, Flattened(info, f), p)
      ensures forall x :: x in old(list) && x !in PreOrder(f) ==> x in list && list[x] == old(list)[x]
    {
      hide HoldsIn, Size, Linked, PreOrder, Flattened, Roots, Opens;
      var node := start;
      ghost var done: seq<Tree>, rest := [], f;
      assert [] + f == f;
      HeldFirst(NodeLinks(), parent, start, f, p);
      while node != None
        invariant Holds(start, done + rest, p) && node == First(rest, None)
        invariant done + Flattened(info, rest) == Flattened(info, f)
        invariant PreOrder(done + rest) == PreOrder(f)
        invariant forall y :: y in old(list) && y !in PreOrder(f) ==> y in list && list[y] == old(list)[y]
        decreases Size(rest)
      {
        var x := node.value;
        ghost var t, more := rest[0], rest[1..];
        assert rest == [t] + more;
        FlattenedNext(info, done, t, more);
        NodeHeld(NodeLinks(), parent, start, done, t, more, p);
        if list[x] != None && Opens(info, x) {
          MoveUp(x, start, done, t, more, p);
          done, rest := done + [Tree(t.id, [])], t.kids + more;
        } else {
          done, rest := done + [t], more;
        }
        node := next[x];
      }
      FlattenedNone(info);
      assert rest == [] && done + rest == done && done + [] == done;
    }

    // The loops of _remove_ifs that pass over `if` nodes.
    method SkipIfs(start: Option<Id>, ghost f: seq<Tree>) returns (node: Option<Id>)
      requires Linked(NodeLinks(), start, f, None)
      ensures node == First(DropIfs(info, f), None)
    {
      node := start;
      ghost var rest := f;
      while node != None && IsIf(info, node.value)
        invariant Linked(NodeLinks(), node, rest, None) && DropIfs(info, rest) == DropIfs(info, f)
        decreases Size(rest)
      {
        node := next[node.value];
        rest := rest[1..];
      }
      LinkedFirst(NodeLinks(), node, rest);
    }

    // _remove_ifs, for the children f of a node
    method RemoveIfs(node: Id, ghost f: seq<Tree>)
      requires node in list && Holds(list[node], f, Some(node)) && node !in PreOrder(f)
      modifies this`next, this`list
      ensures node in list && Holds(list[node], Kept(info, f), Some(node))
    {
      hide HoldsIn, Linked, Size, Kept, DropIfs, PreOrder;
      ghost var p := Some(node);
      DropIfsTwice(info, f);
      HeldLinks(NodeLinks(), parent, list[node], f, p);
      var cur := SkipIfs(list[node], f);
      ghost var dropped := DropIfsIsSuffix(info, f);
      ghost var before, start := NodeLinks(), list[node];
      list := list[node := cur];
      PreOrderAppend(dropped, DropIfs(info, f));
      CutStart(before, NodeLinks(), parent, start, dropped, DropIfs(info, f), p);
      ghost var done: seq<Tree>, rest := [], DropIfs(info, f);
      assert done + rest == rest;
      while cur != None
        invariant node in list && Holds(list[node], done + rest, p) && cur == First(rest, None)
        invariant done + Kept(info, rest) == Kept(info, f) && DropIfs(info, rest) == rest
        decreases Size(rest)
      {
        ghost var t, more := rest[0], rest[1..];
        assert rest == [t] + more;
        RemoveStep(info, NodeLinks(), parent, list[node], done, t, more, p);
        var following := SkipIfs(next[cur.value], more);
        next := next[cur.value := following];
        cur := following;
        done, rest := done + [t], DropIfs(info, more);
      }
      NoneKept(info);
      assert rest == [] && done + rest == done && done + [] == done;
    }

    // What _finalize_node does at the end with a node that has children.
    method FinishLevel(node: Id, ghost f: seq<Tree>)
      requires node in list && Holds(list[node], f, Some(node)) && node !in PreOrder(f)
      modifies this`next, this`list, this`parent
      ensures node in list && Holds(list[node], Kept(info, Flattened(info, f)), Some(node))
    {
      hide HoldsIn, PreOrder;
      FlatteningKeepsOrder(info, f);
      Flatten(list[node], f, Some(node));
      RemoveIfs(node, Flattened(info, f));
    }
  }

  lemma NoneKept(k: map<Id, Info>)
    ensures Kept(k, []) == []
  {}

  lemma HeldLinks(l: Links, parent: map<Id, Option<Id>>, start: Option<Id>, f: seq<Tree>, p: Option<Id>)
    requires HoldsIn(l, parent, start, f, p)
    ensures Linked(l, start, f, None)
  {}

  lemma TailLinked(l: Links, parent: map<Id, Option<Id>>, start: Option<Id>, done: seq<Tree>, t: Tree,
            rest: seq<Tree>, p: Option<Id>)
    requires HoldsIn(l, parent, start, (done + [t]) + rest, p)
    ensures Linked(l, First(rest, None), rest, None)
  {
    hide Linked, PreOrder, Distinct, ParentsOk;
    LinkedAppend(l, start, done + [t], rest, None);
  }

  lemma HeadIsKept(k: map<Id, Info>, t: Tree, rest: seq<Tree>)
    requires DropIfs(k, [t] + rest) == [t] + rest
    ensures !IsIf(k, t.id)
  {
    var d := DropIfsIsSuffix(k, rest);
    assert ([t] + rest)[1..] == rest;
  }

  // One round of the second loop of _remove_ifs.
  lemma RemoveStep(k: map<Id, Info>, l: Links, parent: map<Id, Option<Id>>, start: Option<Id>,
                   done: seq<Tree>, t: Tree, more: seq<Tree>, p: Option<Id>)
    requires HoldsIn(l, parent, start, done + ([t] + more), p) && DropIfs(k, [t] + more) == [t] + more
    ensures t.id in l.next && l.next[t.id] == First(more, None) && Linked(l, First(more, None), more, None)
    ensures HoldsIn(l.(next := l.next[t.id := First(DropIfs(k, more), None)]), parent, start,
                    (done + [t]) + DropIfs(k, more), p)
    ensures done + Kept(k, [t] + more) == (done + [t]) + Kept(k, DropIfs(k, more))
    ensures Size(DropIfs(k, more)) < Size([t] + more) && DropIfs(k, DropIfs(k, more)) == DropIfs(k, more)
  {
    hide HoldsIn, Linked, Size, Kept, DropIfs, PreOrder;
    NodeHeld(l, parent, start, done, t, more, p);
    HeadIsKept(k, t, more);
    KeptNext(k, done, t, more);
    TailLinked(l, parent, start, done, t, more, p);
    var out := DropIfsIsSuffix(k, more);
    CutAfter(l, parent, start, done, t, out, DropIfs(k, more), p);
    DropIfsTwice(k, more);
    SizeAppend(out, DropIfs(k, more));
  }

  lemma {:induction false} DropIfsTwice(k: map<Id, Info>, f: seq<Tree>)
    ensures DropIfs(k, DropIfs(k, f)) == DropIfs(k, f)
  {
    if f != [] && IsIf(k, f[0].id) {
      DropIfsTwice(k, f[1..]);
    }
  }

  lemma HeldFirst(l: Links, parent: map<Id, Option<Id>>, start: Option<Id>, f: seq<Tree>, p: Option<Id>)
    requires HoldsIn(l, parent, start, f, p)
    ensures start == First(f, None)
  {}

  lemma FlattenedNone(k: map<Id, Info>)
    ensures Flattened(k, []) == []
  {}

  lemma FlattenedNext(k: map<Id, Info>, done: seq<Tree>, t: Tree, rest: seq<Tree>)
    ensures done + Flattened(k, [t] + rest) ==
              if t.kids != [] && Opens(k, t.id) then (done + [Tree(t.id, [])]) + Flattened(k, t.kids + rest)
              else (done + [t]) + Flattened(k, rest)
  {
    assert ([t] + rest)[1..] == rest;
  }
}
