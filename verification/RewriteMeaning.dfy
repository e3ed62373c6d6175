/** What applying rewrites does to a tree: nothing where no label is a target, and the rewrite's own
    result in the node's place where one is. */
module RewriteMeaning {
  import opened Rewrites

  // ---------------------------------------------------------------- trees without a target

  predicate Untargeted(rewrites: seq<Labeled>, t: set<nat>) {
    forall i :: 0 <= i < |rewrites| ==> rewrites[i].lbl !in t
  }

  /** No node of the subtree carries a label of `t` or an identifier of `x`. */
  predicate Quiet(n: Node, t: set<nat>, x: set<int>)
    decreases n
  {
    n.uid !in x && Untargeted(n.rewrites, t) && forall i :: 0 <= i < |n.fields| ==> QuietField(n.fields[i], t, x)
  }

  predicate QuietField(f: Field, t: set<nat>, x: set<int>)
    decreases f
  {
    match f
    case Absent => true
    case Single(item) => QuietItem(item, t, x)
    case Items(items) => forall i :: 0 <= i < |items| ==> QuietItem(items[i], t, x)
  }

  predicate QuietItem(item: Item, t: set<nat>, x: set<int>)
    decreases item
  {
    item.Ast? ==> Quiet(item.node, t, x)
  }

  /** Nothing was applied, and nothing of `x` was visited for the first time. */
  predicate Idle(m: Memo, m': Memo, x: set<int>) {
    m'.applied == m.applied && m.visited <= m'.visited && (m.visited !! x ==> m'.visited !! x)
  }

  /** A subtree without a target comes out as it is. */
  lemma {:induction false} Unchanged(r: Rules, t: set<nat>, u: set<int>, m: Memo, n: Node, inList: bool, x: set<int>)
    requires Closed(r, u) && UidsIn(n, u) && Quiet(n, t, x)
    ensures var o := Visit(r, t, u, m, n, inList); o.0 == One(n) && Idle(m, o.1, x)
    decreases n
  {
    var m' := if n.uid in m.visited then m else Memo(m.visited + {n.uid}, m.applied);
    UnchangedFields(r, t, u, m', n.fields, x);
    assert n.(fields := n.fields) == n;
  }

  lemma {:induction false} UnchangedFields(r: Rules, t: set<nat>, u: set<int>, m: Memo, fs: seq<Field>, x: set<int>)
    requires Closed(r, u) && forall i :: 0 <= i < |fs| ==> FieldUidsIn(fs[i], u)
    requires forall i :: 0 <= i < |fs| ==> QuietField(fs[i], t, x)
    ensures var o := VisitFields(r, t, u, m, fs); o.0 == fs && Idle(m, o.1, x)
    decreases fs
  {
    hide Closed, QuietField, FieldUidsIn, VisitField;
    if fs != [] {
      var k := |fs| - 1;
      UnchangedFields(r, t, u, m, fs[..k], x);
      UnchangedField(r, t, u, VisitFields(r, t, u, m, fs[..k]).1, fs[k], x);
      assert fs[..k] + [fs[k]] == fs;
    }
  }

  lemma {:induction false} UnchangedField(r: Rules, t: set<nat>, u: set<int>, m: Memo, f: Field, x: set<int>)
    requires Closed(r, u) && FieldUidsIn(f, u) && QuietField(f, t, x)
    ensures var o := VisitField(r, t, u, m, f); o.0 == f && Idle(m, o.1, x)
    decreases f
  {
    hide Closed, Visit, VisitItems;
    match f {
      case Absent =>
      case Single(Value(_)) =>
      case Single(Ast(n)) => Unchanged(r, t, u, m, n, false, x);
      case Items(items) => UnchangedItems(r, t, u, m, items, x);
    }
  }

  lemma {:induction false} UnchangedItems(r: Rules, t: set<nat>, u: set<int>, m: Memo, items: seq<Item>, x: set<int>)
    requires Closed(r, u) && forall i :: 0 <= i < |items| ==> ItemUidsIn(items[i], u)
    requires forall i :: 0 <= i < |items| ==> QuietItem(items[i], t, x)
    ensures var o := VisitItems(r, t, u, m, items); o.0 == items && Idle(m, o.1, x)
    decreases items
  {
    hide Closed, QuietItem, ItemUidsIn, VisitItem;
    if items != [] {
      var k := |items| - 1;
      UnchangedItems(r, t, u, m, items[..k], x);
      UnchangedItem(r, t, u, VisitItems(r, t, u, m, items[..k]).1, items[k], x);
      assert items[..k] + [items[k]] == items;
    }
  }

  lemma {:induction false} UnchangedItem(r: Rules, t: set<nat>, u: set<int>, m: Memo, item: Item, x: set<int>)
    requires Closed(r, u) && ItemUidsIn(item, u) && QuietItem(item, t, x)
    ensures var o := VisitItem(r, t, u, m, item); o.0 == [item] && Idle(m, o.1, x)
    decreases item
  {
    hide Closed, Visit;
    if item.Ast? { Unchanged(r, t, u, m, item.node, true, x); }
  }

  lemma {:induction false} UnchangedNodes(r: Rules, t: set<nat>, u: set<int>, m: Memo, ns: seq<Node>, inList: bool)
    requires Closed(r, u) && forall i :: 0 <= i < |ns| ==> UidsIn(ns[i], u) && Quiet(ns[i], t, {})
    ensures var o := VisitNodes(r, t, u, m, ns, inList); o.0 == ns && o.1.applied == m.applied
    decreases ns
  {
    hide Closed, Quiet, UidsIn, Visit;
    if ns != [] {
      var k := |ns| - 1;
      UnchangedNodes(r, t, u, m, ns[..k], inList);
      Unchanged(r, t, u, VisitNodes(r, t, u, m, ns[..k], inList).1, ns[k], inList, {});
      assert ns[..k] + [ns[k]] == ns;
    }
  }

  /** Without a target in the tree, applying changes nothing and applies nothing. */
  lemma ApplyNothing(r: Rules, u: set<int>, tree: Node, targets: set<nat>)
    requires Closed(r, u) && UidsIn(tree, u) && Quiet(tree, targets, {})
    ensures Apply(r, u, tree, targets) == (One(tree), {})
  {
    Unchanged(r, targets, u, Memo({}, {}), tree, false, {});
  }

  // ---------------------------------------------------------------- one target

  /** One step down a tree: a field, and an element of it when it is a list. */
  datatype Hop = Hop(field: nat, item: nat)

  predicate HopIn(n: Node, h: Hop) {
    && h.field < |n.fields| && !n.fields[h.field].Absent?
    && (n.fields[h.field].Items? ==> h.item < |n.fields[h.field].items|)
    && ItemAt(n, h).Ast?
  }

  function ItemAt(n: Node, h: Hop): Item
    requires h.field < |n.fields| && !n.fields[h.field].Absent?
    requires n.fields[h.field].Items? ==> h.item < |n.fields[h.field].items|
  {
    var f := n.fields[h.field];
    if f.Single? then f.item else f.items[h.item]
  }

  predicate PathIn(n: Node, path: seq<Hop>)
    decreases |path|
  {
    path == [] || (HopIn(n, path[0]) && PathIn(ItemAt(n, path[0]).node, path[1..]))
  }

  function NodeAt(n: Node, path: seq<Hop>): Node
    requires PathIn(n, path)
    decreases |path|
  {
    if path == [] then n else NodeAt(ItemAt(n, path[0]).node, path[1..])
  }

  /** Is the node at the path an element of a list? */
  predicate InListAt(n: Node, path: seq<Hop>, inList: bool)
    requires PathIn(n, path)
    decreases |path|
  {
    if path == [] then inList
    else InListAt(ItemAt(n, path[0]).node, path[1..], n.fields[path[0].field].Items?)
  }

  /** The tree with the subtree at the path dropped, replaced, or replaced by several. */
  function Replaced(n: Node, path: seq<Hop>, res: Result): Result
    requires PathIn(n, path)
    decreases |path|
  {
    if path == [] then res
    else
      var h := path[0];
      var sub := Replaced(ItemAt(n, h).node, path[1..], res);
      One(n.(fields := n.fields[h.field := Exchanged(n.fields[h.field], h.item, sub)]))
  }

  function Exchanged(f: Field, j: nat, sub: Result): Field
    requires !f.Absent? && (f.Items? ==> j < |f.items|)
  {
    match f
    case Single(_) => (match sub case Gone => Absent case One(n) => Single(Ast(n)) case Many(ns) => Items(Listed(ns)))
    case Items(items) =>
      var sub' := match sub case Gone => [] case One(n) => [Ast(n)] case Many(ns) => Listed(ns);
      Items(items[..j] + sub' + items[j + 1..])
  }

  function Listed(ns: seq<Node>): seq<Item> { seq(|ns|, i requires 0 <= i < |ns| => Ast(ns[i])) }

  /** Beside the node at the path, no node carries a target or identifier `x`. */
  predicate OnlyAt(n: Node, path: seq<Hop>, t: set<nat>, x: int)
    requires PathIn(n, path)
    decreases |path|
  {
    if path == [] then n.uid == x
    else
      var h := path[0];
      && n.uid != x && Untargeted(n.rewrites, t)
      && (forall i :: 0 <= i < |n.fields| && i != h.field ==> QuietField(n.fields[i], t, {x}))
      && (n.fields[h.field].Items? ==> QuietBut(n.fields[h.field].items, h.item, t, x))
      && OnlyAt(ItemAt(n, h).node, path[1..], t, x)
  }

  predicate QuietBut(items: seq<Item>, j: nat, t: set<nat>, x: int) {
    forall i :: 0 <= i < |items| && i != j ==> QuietItem(items[i], t, {x})
  }

  /** Visiting what the rewrite returned meets no further target. */
  predicate Settled(res: Result, t: set<nat>) {
    match res
    case Gone => true
    case One(k) => forall i :: 0 <= i < |k.fields| ==> QuietField(k.fields[i], t, {})
    case Many(ns) => forall i :: 0 <= i < |ns| ==> Quiet(ns[i], t, {})
  }

  /** The node carries a target, and its rewrite's result is settled. */
  predicate Ready(r: Rules, t: set<nat>, n: Node, inList: bool) {
    var i := FirstTarget(n.rewrites, t);
    i < |n.rewrites| && Settled(r.rewrite(n.rewrites[i].rule, n, inList), t)
  }

  function TargetOf(n: Node, t: set<nat>): Labeled
    requires FirstTarget(n.rewrites, t) < |n.rewrites|
  {
    n.rewrites[FirstTarget(n.rewrites, t)]
  }

  /** The tree with the rewrite's own result at the path. */
  function Placed(r: Rules, t: set<nat>, n: Node, inList: bool, path: seq<Hop>): Result
    requires PathIn(n, path) && Ready(r, t, NodeAt(n, path), InListAt(n, path, inList))
  {
    var k := NodeAt(n, path);
    Replaced(n, path, r.rewrite(TargetOf(k, t).rule, k, InListAt(n, path, inList)))
  }

  lemma TargetItself(r: Rules, t: set<nat>, u: set<int>, m: Memo, n: Node, inList: bool)
    requires Closed(r, u) && UidsIn(n, u) && n.uid !in m.visited && Ready(r, t, n, inList)
    ensures var o := Visit(r, t, u, m, n, inList);
            && o.0 == r.rewrite(TargetOf(n, t).rule, n, inList)
            && o.1.applied == m.applied + {TargetOf(n, t).lbl}
  {
    var m2 := Memo(m.visited + {n.uid}, m.applied + {TargetOf(n, t).lbl});
    match r.rewrite(TargetOf(n, t).rule, n, inList)
    case Gone =>
    case One(k) => UnchangedFields(r, t, u, m2, k.fields, {}); assert k.(fields := k.fields) == k;
    case Many(ns) => UnchangedNodes(r, t, u, m2, ns, inList);
  }

  /** A visit of a tree with one targeted node puts that node's rewrite result in its place. */
  lemma {:induction false} SingleTarget(r: Rules, t: set<nat>, u: set<int>, m: Memo, n: Node, inList: bool,
                                        path: seq<Hop>, x: int)
    requires Closed(r, u) && UidsIn(n, u) && PathIn(n, path) && OnlyAt(n, path, t, x) && x !in m.visited
    requires Ready(r, t, NodeAt(n, path), InListAt(n, path, inList))
    ensures var o := Visit(r, t, u, m, n, inList);
            && o.0 == Placed(r, t, n, inList, path)
            && o.1.applied == m.applied + {TargetOf(NodeAt(n, path), t).lbl}
    decreases |path|, 2, 0
  {
    hide Ready;
    if path == [] {
      TargetItself(r, t, u, m, n, inList);
    } else {
      hide VisitFields, Closed;
      var m' := if n.uid in m.visited then m else Memo(m.visited + {n.uid}, m.applied);
      var h, c := path[0], ItemAt(n, path[0]).node;
      FieldsTarget(r, t, u, m', n.fields, h.field, h.item, c, path[1..], x, |n.fields|);
      assert n.fields[..|n.fields|] == n.fields;
    }
  }

  /** The field holds node `c`, at `j` when it is a list, beside nothing but quiet nodes. */
  predicate Holds(f: Field, j: nat, c: Node, t: set<nat>, x: int) {
    f == Single(Ast(c)) || (f.Items? && j < |f.items| && f.items[j] == Ast(c) && QuietBut(f.items, j, t, x))
  }

  /** The first `i` fields after the visit: the one on the path exchanged, the others as they were. */
  lemma {:induction false} FieldsTarget(r: Rules, t: set<nat>, u: set<int>, m: Memo, fs: seq<Field>, k: nat, j: nat,
                                        c: Node, path: seq<Hop>, x: int, i: nat)
    requires Closed(r, u) && forall l :: 0 <= l < |fs| ==> FieldUidsIn(fs[l], u)
    requires x !in m.visited && PathIn(c, path) && OnlyAt(c, path, t, x)
    requires k < |fs| && Holds(fs[k], j, c, t, x) && i <= |fs|
    requires forall l :: 0 <= l < |fs| && l != k ==> QuietField(fs[l], t, {x})
    requires Ready(r, t, NodeAt(c, path), InListAt(c, path, fs[k].Items?))
    ensures var o := VisitFields(r, t, u, m, fs[..i]);
            if i <= k then o.0 == fs[..i] && Idle(m, o.1, {x})
            else
              && o.0 == fs[..i][k := Exchanged(fs[k], j, Placed(r, t, c, fs[k].Items?, path))]
              && o.1.applied == m.applied + {TargetOf(NodeAt(c, path), t).lbl}
    decreases |path|, 5, i
  {
    hide Closed, QuietField, FieldUidsIn, VisitField, Ready, Exchanged, Placed, FirstTarget, OnlyAt, PathIn, TargetOf;
    if i > 0 {
      FieldsTarget(r, t, u, m, fs, k, j, c, path, x, i - 1);
      assert fs[..i][..i - 1] == fs[..i - 1];
      var m1 := VisitFields(r, t, u, m, fs[..i - 1]).1;
      if i - 1 == k {
        FieldTarget(r, t, u, m1, fs[k], j, c, path, x);
      } else {
        UnchangedField(r, t, u, m1, fs[i - 1], {x});
      }
    }
  }

  lemma {:induction false} FieldTarget(r: Rules, t: set<nat>, u: set<int>, m: Memo, f: Field, j: nat, c: Node,
                                       path: seq<Hop>, x: int)
    requires Closed(r, u) && FieldUidsIn(f, u) && x !in m.visited && PathIn(c, path) && OnlyAt(c, path, t, x)
    requires Holds(f, j, c, t, x) && Ready(r, t, NodeAt(c, path), InListAt(c, path, f.Items?))
    ensures var o := VisitField(r, t, u, m, f);
            && o.0 == Exchanged(f, j, Placed(r, t, c, f.Items?, path))
            && o.1.applied == m.applied + {TargetOf(NodeAt(c, path), t).lbl}
    decreases |path|, 4, 0
  {
    hide Closed, Visit, Ready, Placed, FirstTarget, OnlyAt, PathIn, VisitItems, TargetOf;
    if f.Single? {
      SingleTarget(r, t, u, m, c, false, path, x);
    } else {
      ItemsTarget(r, t, u, m, f.items, j, c, path, x, |f.items|);
      assert f.items[..|f.items|] == f.items;
    }
  }

  lemma {:induction false} ItemsTarget(r: Rules, t: set<nat>, u: set<int>, m: Memo, items: seq<Item>, j: nat, c: Node,
                                       path: seq<Hop>, x: int, i: nat)
    requires Closed(r, u) && forall k :: 0 <= k < |items| ==> ItemUidsIn(items[k], u)
    requires x !in m.visited && PathIn(c, path) && OnlyAt(c, path, t, x)
    requires j < |items| && items[j] == Ast(c) && QuietBut(items, j, t, x) && i <= |items|
    requires Ready(r, t, NodeAt(c, path), InListAt(c, path, true))
    ensures var o := VisitItems(r, t, u, m, items[..i]);
            if i <= j then o.0 == items[..i] && Idle(m, o.1, {x})
            else
              && o.0 == items[..j] + Splice(Placed(r, t, c, true, path)) + items[j + 1..i]
              && o.1.applied == m.applied + {TargetOf(NodeAt(c, path), t).lbl}
    decreases |path|, 3, i
  {
    hide Closed, Visit, Ready, Placed, FirstTarget, OnlyAt, PathIn, TargetOf, Splice, QuietItem;
    if i > 0 {
      ItemsTarget(r, t, u, m, items, j, c, path, x, i - 1);
      assert items[..i][..i - 1] == items[..i - 1];
      var m1 := VisitItems(r, t, u, m, items[..i - 1]).1;
      if i - 1 == j {
        SingleTarget(r, t, u, m1, c, true, path, x);
        assert items[j + 1..i] == [];
      } else {
        UnchangedItem(r, t, u, m1, items[i - 1], {x});
        assert i <= j ==> items[..i] == items[..i - 1] + [items[i - 1]];
        assert i > j ==> items[j + 1..i] == items[j + 1..i - 1] + [items[i - 1]];
      }
    }
  }

  /** With one targeted node in the tree, applying gives the tree with that node dropped, replaced
      or replaced by several, as its rewrite says, and reports its label. */
  lemma ApplyOne(r: Rules, u: set<int>, tree: Node, targets: set<nat>, path: seq<Hop>)
    requires Closed(r, u) && UidsIn(tree, u) && PathIn(tree, path)
    requires OnlyAt(tree, path, targets, NodeAt(tree, path).uid)
    requires Ready(r, targets, NodeAt(tree, path), InListAt(tree, path, false))
    ensures var k := NodeAt(tree, path);
            var lr := TargetOf(k, targets);
            Apply(r, u, tree, targets) ==
              (Replaced(tree, path, r.rewrite(lr.rule, k, InListAt(tree, path, false))), {lr.lbl})
  {
    SingleTarget(r, targets, u, Memo({}, {}), tree, false, path, NodeAt(tree, path).uid);
    var lbl := TargetOf(NodeAt(tree, path), targets).lbl;
    assert {} + {lbl} == {lbl};
  }

  // ---------------------------------------------------------------- any number of targets

  /** All nodes of the subtree are in `s`. */
  predicate AllIn(n: Node, s: iset<Node>)
    decreases n
  {
    n in s && forall i :: 0 <= i < |n.fields| ==> AllInField(n.fields[i], s)
  }

  predicate AllInField(f: Field, s: iset<Node>)
    decreases f
  {
    match f
    case Absent => true
    case Single(item) => AllInItem(item, s)
    case Items(items) => forall i :: 0 <= i < |items| ==> AllInItem(items[i], s)
  }

  predicate AllInItem(item: Item, s: iset<Node>)
    decreases item
  {
    item.Ast? ==> AllIn(item.node, s)
  }

  predicate AllInResult(res: Result, s: iset<Node>) {
    match res
    case Gone => true
    case One(n) => AllIn(n, s)
    case Many(ns) => forall i :: 0 <= i < |ns| ==> AllIn(ns[i], s)
  }

  /** `d` holds what rewrites make of its nodes. */
  ghost predicate Sown(r: Rules, d: iset<Node>) {
    forall rule, n, inList :: n in d ==> AllInResult(r.rewrite(rule, n, inList), d)
  }

  /** The node's first target is `l`, and what its rewrite returned, its parts visited, is in `s`. */
  ghost predicate Stands(r: Rules, t: set<nat>, u: set<int>, l: nat, s: iset<Node>, n: Node, inList: bool, m: Memo) {
    && Closed(r, u) && UidsIn(n, u)
    && FirstTarget(n.rewrites, t) < |n.rewrites| && TargetOf(n, t).lbl == l
    && match r.rewrite(TargetOf(n, t).rule, n, inList)
       case Gone => true
       case One(k) => k.(fields := VisitFields(r, t, u, m, k.fields).0) in s
       case Many(ns) =>
         var out := VisitNodes(r, t, u, m, ns, inList).0;
         forall i :: 0 <= i < |out| ==> out[i] in s
  }

  ghost predicate Site(r: Rules, t: set<nat>, u: set<int>, l: nat, d: iset<Node>, s: iset<Node>) {
    exists n, inList, m :: n in d && Stands(r, t, u, l, s, n, inList, m)
  }

  lemma {:induction false} VisitSites(r: Rules, t: set<nat>, u: set<int>, m: Memo, n: Node, inList: bool,
                                      l: nat, d: iset<Node>, s: iset<Node>)
    requires Closed(r, u) && UidsIn(n, u) && Sown(r, d) && AllIn(n, d)
    requires var o := Visit(r, t, u, m, n, inList); AllInResult(o.0, s) && l in o.1.applied - m.applied
    ensures Site(r, t, u, l, d, s)
    decreases u - m.visited, n, 1
  {
    hide Site;
    if n.uid in m.visited {
      FieldsSites(r, t, u, m, n.fields, l, d, s);
    } else if FirstTarget(n.rewrites, t) == |n.rewrites| {
      FieldsSites(r, t, u, Memo(m.visited + {n.uid}, m.applied), n.fields, l, d, s);
    } else {
      var lr := TargetOf(n, t);
      var m2 := Memo(m.visited + {n.uid}, m.applied + {lr.lbl});
      if lr.lbl == l {
        SiteHere(r, t, u, m2, n, inList, l, d, s);
      } else {
        match r.rewrite(lr.rule, n, inList)
        case Gone =>
        case One(k) => FieldsSites(r, t, u, m2, k.fields, l, d, s);
        case Many(ns) => NodesSites(r, t, u, m2, ns, inList, l, d, s);
      }
    }
  }

  lemma SiteHere(r: Rules, t: set<nat>, u: set<int>, m: Memo, n: Node, inList: bool,
                 l: nat, d: iset<Node>, s: iset<Node>)
    requires n in d && Stands(r, t, u, l, s, n, inList, m)
    ensures Site(r, t, u, l, d, s)
  {
  }

  lemma {:induction false} FieldsSites(r: Rules, t: set<nat>, u: set<int>, m: Memo, fs: seq<Field>,
                                       l: nat, d: iset<Node>, s: iset<Node>)
    requires Closed(r, u) && forall i :: 0 <= i < |fs| ==> FieldUidsIn(fs[i], u) && AllInField(fs[i], d)
    requires var o := VisitFields(r, t, u, m, fs);
             (forall i :: 0 <= i < |o.0| ==> AllInField(o.0[i], s)) && l in o.1.applied - m.applied
    requires Sown(r, d)
    ensures Site(r, t, u, l, d, s)
    decreases u - m.visited, fs
  {
    hide Site, AllInField, FieldUidsIn, Sown, Closed, VisitField;
    if fs != [] {
      var k := |fs| - 1;
      var (front, m1) := VisitFields(r, t, u, m, fs[..k]);
      var (f, m2) := VisitField(r, t, u, m1, fs[k]);
      var out := front + [f];
      assert out == VisitFields(r, t, u, m, fs).0;
      assert out[|out| - 1] == f && forall i :: 0 <= i < |front| ==> front[i] == out[i];
      if l in m1.applied {
        FieldsSites(r, t, u, m, fs[..k], l, d, s);
      } else {
        FieldSites(r, t, u, m1, fs[k], l, d, s);
      }
    }
  }

  lemma {:induction false} FieldSites(r: Rules, t: set<nat>, u: set<int>, m: Memo, f: Field,
                                      l: nat, d: iset<Node>, s: iset<Node>)
    requires Closed(r, u) && FieldUidsIn(f, u) && Sown(r, d) && AllInField(f, d)
    requires var o := VisitField(r, t, u, m, f); AllInField(o.0, s) && l in o.1.applied - m.applied
    ensures Site(r, t, u, l, d, s)
    decreases u - m.visited, f
  {
    hide Site, Sown, Closed, Visit, VisitItems;
    match f {
      case Absent =>
      case Single(Value(_)) =>
      case Single(Ast(n)) =>
        var res := Visit(r, t, u, m, n, false).0;
        if res.Many? { ListedIn(res.nodes, s); }
        VisitSites(r, t, u, m, n, false, l, d, s);
      case Items(items) => ItemsSites(r, t, u, m, items, l, d, s);
    }
  }

  lemma ListedIn(ns: seq<Node>, s: iset<Node>)
    requires forall i :: 0 <= i < |ns| ==> AllInItem(AsItems(ns)[i], s)
    ensures forall i :: 0 <= i < |ns| ==> AllIn(ns[i], s)
  {
    forall i | 0 <= i < |ns| ensures AllIn(ns[i], s) { assert AsItems(ns)[i] == Ast(ns[i]); }
  }

  lemma {:induction false} ItemsSites(r: Rules, t: set<nat>, u: set<int>, m: Memo, items: seq<Item>,
                                      l: nat, d: iset<Node>, s: iset<Node>)
    requires Closed(r, u) && forall i :: 0 <= i < |items| ==> ItemUidsIn(items[i], u) && AllInItem(items[i], d)
    requires var o := VisitItems(r, t, u, m, items);
             (forall i :: 0 <= i < |o.0| ==> AllInItem(o.0[i], s)) && l in o.1.applied - m.applied
    requires Sown(r, d)
    ensures Site(r, t, u, l, d, s)
    decreases u - m.visited, items
  {
    hide Site, Sown, Closed, VisitItem, AllInItem, ItemUidsIn;
    if items != [] {
      var k := |items| - 1;
      var (front, m1) := VisitItems(r, t, u, m, items[..k]);
      var (back, m2) := VisitItem(r, t, u, m1, items[k]);
      var out := front + back;
      assert out == VisitItems(r, t, u, m, items).0;
      assert forall i :: 0 <= i < |front| ==> front[i] == out[i];
      assert forall i :: 0 <= i < |back| ==> back[i] == out[|front| + i];
      if l in m1.applied {
        ItemsSites(r, t, u, m, items[..k], l, d, s);
      } else {
        ItemSites(r, t, u, m1, items[k], l, d, s);
      }
    }
  }

  lemma {:induction false} ItemSites(r: Rules, t: set<nat>, u: set<int>, m: Memo, item: Item,
                                     l: nat, d: iset<Node>, s: iset<Node>)
    requires Closed(r, u) && ItemUidsIn(item, u) && Sown(r, d) && AllInItem(item, d)
    requires var o := VisitItem(r, t, u, m, item);
             (forall i :: 0 <= i < |o.0| ==> AllInItem(o.0[i], s)) && l in o.1.applied - m.applied
    ensures Site(r, t, u, l, d, s)
    decreases u - m.visited, item
  {
    hide Site, Sown, Closed, Visit, AllIn, UidsIn;
    if item.Ast? {
      var res := Visit(r, t, u, m, item.node, true).0;
      if res.Many? { ListedIn(res.nodes, s); }
      if res.One? { assert Splice(res)[0] == Ast(res.node); }
      VisitSites(r, t, u, m, item.node, true, l, d, s);
    }
  }

  lemma {:induction false} NodesSites(r: Rules, t: set<nat>, u: set<int>, m: Memo, ns: seq<Node>, inList: bool,
                                      l: nat, d: iset<Node>, s: iset<Node>)
    requires Closed(r, u) && forall i :: 0 <= i < |ns| ==> UidsIn(ns[i], u) && AllIn(ns[i], d)
    requires var o := VisitNodes(r, t, u, m, ns, inList);
             (forall i :: 0 <= i < |o.0| ==> AllIn(o.0[i], s)) && l in o.1.applied - m.applied
    requires Sown(r, d)
    ensures Site(r, t, u, l, d, s)
    decreases u - m.visited, ns
  {
    hide Site, Sown, Closed, Visit, AllIn, UidsIn;
    if ns != [] {
      var k := |ns| - 1;
      var (front, m1) := VisitNodes(r, t, u, m, ns[..k], inList);
      var (res, m2) := Visit(r, t, u, m1, ns[k], inList);
      var out := front + Flat(res);
      assert out == VisitNodes(r, t, u, m, ns, inList).0;
      assert forall i :: 0 <= i < |front| ==> front[i] == out[i];
      assert forall i :: 0 <= i < |Flat(res)| ==> Flat(res)[i] == out[|front| + i];
      if l in m1.applied {
        NodesSites(r, t, u, m, ns[..k], inList, l, d, s);
      } else {
        if res.One? { assert Flat(res)[0] == res.node; }
        VisitSites(r, t, u, m1, ns[k], inList, l, d, s);
      }
    }
  }

  /** Every label reported belongs to a node of the tree, or of what rewrites make of it, whose own
      rewrite result stands in the output: `d` is any set that holds the one, `s` any that holds the other. */
  lemma AppliedStand(r: Rules, u: set<int>, tree: Node, targets: set<nat>, l: nat, d: iset<Node>, s: iset<Node>)
    requires Closed(r, u) && UidsIn(tree, u) && Sown(r, d) && AllIn(tree, d)
    requires var o := Apply(r, u, tree, targets); AllInResult(o.0, s) && l in o.1
    ensures Site(r, targets, u, l, d, s)
  {
    VisitSites(r, targets, u, Memo({}, {}), tree, false, l, d, s);
  }
}
