/** Attaching labelled rewrites to a tree, and why frozen subtrees survive their application. */
module Freeze {
  import opened Rewrites

  // ---------------------------------------------------------------- frozen subtrees

  /** The outermost frozen subtrees, in source order. */
  function Frozen(n: Node): seq<Node>
    decreases n
  {
    if Boundary(n.kind) then [n] else FrozenFields(n.fields)
  }

  function FrozenFields(fs: seq<Field>): seq<Node>
    decreases fs
  {
    if fs == [] then [] else FrozenFields(fs[..|fs| - 1]) + FrozenField(fs[|fs| - 1])
  }

  function FrozenField(f: Field): seq<Node>
    decreases f
  {
    match f
    case Absent => []
    case Single(item) => FrozenItem(item)
    case Items(items) => FrozenItems(items)
  }

  function FrozenItems(items: seq<Item>): seq<Node>
    decreases items
  {
    if items == [] then [] else FrozenItems(items[..|items| - 1]) + FrozenItem(items[|items| - 1])
  }

  function FrozenItem(item: Item): seq<Node>
    decreases item
  {
    if item.Ast? then Frozen(item.node) else []
  }

  function FrozenNodes(ns: seq<Node>): seq<Node> {
    if ns == [] then [] else FrozenNodes(ns[..|ns| - 1]) + Frozen(ns[|ns| - 1])
  }

  function FrozenResult(r: Result): seq<Node> {
    match r case Gone => [] case One(n) => Frozen(n) case Many(ns) => FrozenNodes(ns)
  }

  lemma {:induction false} FrozenConcat(a: seq<Item>, b: seq<Item>)
    ensures FrozenItems(a + b) == FrozenItems(a) + FrozenItems(b)
    decreases |b|
  {
    if b == [] {
      assert a + b == a;
    } else {
      var k := |b| - 1;
      assert (a + b)[..|a + b| - 1] == a + b[..k];
      FrozenConcat(a, b[..k]);
    }
  }

  lemma {:induction false} FrozenNodesConcat(a: seq<Node>, b: seq<Node>)
    ensures FrozenNodes(a + b) == FrozenNodes(a) + FrozenNodes(b)
    decreases |b|
  {
    if b == [] {
      assert a + b == a;
    } else {
      var k := |b| - 1;
      assert (a + b)[..|a + b| - 1] == a + b[..k];
      FrozenNodesConcat(a, b[..k]);
    }
  }

  lemma {:induction false} FrozenAsItems(ns: seq<Node>)
    ensures FrozenItems(AsItems(ns)) == FrozenNodes(ns)
  {
    if ns != [] {
      assert AsItems(ns)[..|ns| - 1] == AsItems(ns[..|ns| - 1]);
      FrozenAsItems(ns[..|ns| - 1]);
    }
  }

  /** However a visited child is put back, its frozen subtrees are those of the visit's result. */
  lemma PutBack(res: Result)
    ensures FrozenField(AsField(res)) == FrozenResult(res)
    ensures FrozenItems(Splice(res)) == FrozenResult(res)
    ensures FrozenNodes(Flat(res)) == FrozenResult(res)
  {
    match res {
      case Gone =>
      case One(n) =>
        assert [n][..0] == [] && [Ast(n)][..0] == [];
        assert FrozenItems([Ast(n)]) == FrozenItem(Ast(n));
      case Many(ns) => FrozenAsItems(ns);
    }
  }

  // ---------------------------------------------------------------- plain and guarded trees

  /** No rewrite anywhere in the subtree. */
  predicate Plain(n: Node)
    decreases n
  {
    n.rewrites == [] && forall i :: 0 <= i < |n.fields| ==> PlainField(n.fields[i])
  }

  predicate PlainField(f: Field)
    decreases f
  {
    match f
    case Absent => true
    case Single(item) => item.Ast? ==> Plain(item.node)
    case Items(items) => forall i :: 0 <= i < |items| ==> PlainItem(items[i])
  }

  predicate PlainItem(item: Item)
    decreases item
  {
    item.Ast? ==> Plain(item.node)
  }

  /** A subtree is free of frozen parts, or is frozen and plain, or has no rewrite of its own
      and guarded children. */
  predicate Guarded(n: Node)
    decreases n
  {
    Frozen(n) == [] ||
    (if Boundary(n.kind) then Plain(n)
     else n.rewrites == [] && forall i :: 0 <= i < |n.fields| ==> GuardedField(n.fields[i]))
  }

  predicate GuardedField(f: Field)
    decreases f
  {
    match f
    case Absent => true
    case Single(item) => item.Ast? ==> Guarded(item.node)
    case Items(items) => forall i :: 0 <= i < |items| ==> GuardedItem(items[i])
  }

  predicate GuardedItem(item: Item)
    decreases item
  {
    item.Ast? ==> Guarded(item.node)
  }

  lemma {:induction false} FreeItems(items: seq<Item>)
    requires FrozenItems(items) == []
    ensures forall i :: 0 <= i < |items| ==> GuardedItem(items[i])
  {
    if items != [] {
      var k := |items| - 1;
      FreeItems(items[..k]);
      assert GuardedItem(items[k]);
      forall i | 0 <= i < k ensures GuardedItem(items[i]) { assert items[i] == items[..k][i]; }
    }
  }

  lemma {:induction false} FreeFields(fs: seq<Field>)
    requires FrozenFields(fs) == []
    ensures forall i :: 0 <= i < |fs| ==> GuardedField(fs[i])
  {
    if fs != [] {
      var k := |fs| - 1;
      FreeFields(fs[..k]);
      assert GuardedField(fs[k]) by {
        match fs[k] {
          case Absent =>
          case Single(item) => if item.Ast? { assert FrozenItem(item) == Frozen(item.node); }
          case Items(items) => FreeItems(items);
        }
      }
      forall i | 0 <= i < k ensures GuardedField(fs[i]) { assert fs[i] == fs[..k][i]; }
    }
  }

  lemma {:induction false} FreeNodes(ns: seq<Node>)
    requires FrozenNodes(ns) == []
    ensures forall i :: 0 <= i < |ns| ==> Frozen(ns[i]) == []
  {
    if ns != [] {
      var k := |ns| - 1;
      FreeNodes(ns[..k]);
      forall i | 0 <= i < k ensures Frozen(ns[i]) == [] { assert ns[i] == ns[..k][i]; }
    }
  }

  // ---------------------------------------------------------------- application keeps frozen subtrees

  /** Rewriting something without a frozen part does not create one. */
  ghost predicate FreezeSafe(r: Rules) {
    forall rule, n, inList :: Frozen(n) == [] ==> FrozenResult(r.rewrite(rule, n, inList)) == []
  }

  lemma {:induction false} PlainUntouched(r: Rules, t: set<nat>, u: set<int>, m: Memo, n: Node, inList: bool)
    requires Closed(r, u) && UidsIn(n, u) && Plain(n)
    ensures Visit(r, t, u, m, n, inList).0 == One(n)
    decreases n, 1
  {
    var m1 := if n.uid in m.visited then m else Memo(m.visited + {n.uid}, m.applied);
    PlainFields(r, t, u, m1, n.fields);
  }

  lemma {:induction false} PlainFields(r: Rules, t: set<nat>, u: set<int>, m: Memo, fs: seq<Field>)
    requires Closed(r, u) && forall i :: 0 <= i < |fs| ==> FieldUidsIn(fs[i], u) && PlainField(fs[i])
    ensures VisitFields(r, t, u, m, fs).0 == fs
    decreases fs
  {
    if fs != [] {
      var k := |fs| - 1;
      PlainFields(r, t, u, m, fs[..k]);
      PlainFieldKept(r, t, u, VisitFields(r, t, u, m, fs[..k]).1, fs[k]);
    }
  }

  lemma {:induction false} PlainFieldKept(r: Rules, t: set<nat>, u: set<int>, m: Memo, f: Field)
    requires Closed(r, u) && FieldUidsIn(f, u) && PlainField(f)
    ensures VisitField(r, t, u, m, f).0 == f
    decreases f
  {
    match f {
      case Absent =>
      case Single(Value(_)) =>
      case Single(Ast(n)) => PlainUntouched(r, t, u, m, n, false);
      case Items(items) => PlainItems(r, t, u, m, items);
    }
  }

  lemma {:induction false} PlainItems(r: Rules, t: set<nat>, u: set<int>, m: Memo, items: seq<Item>)
    requires Closed(r, u) && forall i :: 0 <= i < |items| ==> ItemUidsIn(items[i], u) && PlainItem(items[i])
    ensures VisitItems(r, t, u, m, items).0 == items
    decreases items
  {
    if items != [] {
      var k := |items| - 1;
      PlainItems(r, t, u, m, items[..k]);
      PlainItemKept(r, t, u, VisitItems(r, t, u, m, items[..k]).1, items[k]);
    }
  }

  lemma {:induction false} PlainItemKept(r: Rules, t: set<nat>, u: set<int>, m: Memo, item: Item)
    requires Closed(r, u) && ItemUidsIn(item, u) && PlainItem(item)
    ensures VisitItem(r, t, u, m, item).0 == [item]
    decreases item
  {
    if item.Ast? { PlainUntouched(r, t, u, m, item.node, true); }
  }

  lemma {:induction false} VisitKeeps(r: Rules, t: set<nat>, u: set<int>, m: Memo, n: Node, inList: bool)
    requires Closed(r, u) && FreezeSafe(r) && UidsIn(n, u) && Guarded(n)
    ensures FrozenResult(Visit(r, t, u, m, n, inList).0) == Frozen(n)
    decreases u - m.visited, n, 1
  {
    if Boundary(n.kind) {
      PlainUntouched(r, t, u, m, n, inList);
    } else {
      if Frozen(n) == [] { FreeFields(n.fields); }
      var m1 := Memo(m.visited + {n.uid}, m.applied);
      var i := FirstTarget(n.rewrites, t);
      if n.uid in m.visited {
        FieldsKeep(r, t, u, m, n.fields);
      } else if i == |n.rewrites| {
        FieldsKeep(r, t, u, m1, n.fields);
      } else {
        var m2 := Memo(m1.visited, m1.applied + {n.rewrites[i].lbl});
        var res := r.rewrite(n.rewrites[i].rule, n, inList);
        assert FrozenResult(res) == [];
        match res {
          case Gone =>
          case One(k) =>
            FreeFields(k.fields);
            FieldsKeep(r, t, u, m2, k.fields);
          case Many(ns) => NodesKeep(r, t, u, m2, ns, inList);
        }
      }
    }
  }

  lemma {:induction false} FieldsKeep(r: Rules, t: set<nat>, u: set<int>, m: Memo, fs: seq<Field>)
    requires Closed(r, u) && FreezeSafe(r)
    requires forall i :: 0 <= i < |fs| ==> FieldUidsIn(fs[i], u) && GuardedField(fs[i])
    ensures FrozenFields(VisitFields(r, t, u, m, fs).0) == FrozenFields(fs)
    decreases u - m.visited, fs
  {
    if fs != [] {
      var k := |fs| - 1;
      FieldsKeep(r, t, u, m, fs[..k]);
      var (front, m1) := VisitFields(r, t, u, m, fs[..k]);
      FieldKeeps(r, t, u, m1, fs[k]);
      var f := VisitField(r, t, u, m1, fs[k]).0;
      assert (front + [f])[..|front|] == front;
    }
  }

  lemma {:induction false} FieldKeeps(r: Rules, t: set<nat>, u: set<int>, m: Memo, f: Field)
    requires Closed(r, u) && FreezeSafe(r) && FieldUidsIn(f, u) && GuardedField(f)
    ensures FrozenField(VisitField(r, t, u, m, f).0) == FrozenField(f)
    decreases u - m.visited, f
  {
    match f {
      case Absent =>
      case Single(Value(_)) =>
      case Single(Ast(n)) =>
        VisitKeeps(r, t, u, m, n, false);
        PutBack(Visit(r, t, u, m, n, false).0);
      case Items(items) => ItemsKeep(r, t, u, m, items);
    }
  }

  lemma {:induction false} ItemsKeep(r: Rules, t: set<nat>, u: set<int>, m: Memo, items: seq<Item>)
    requires Closed(r, u) && FreezeSafe(r)
    requires forall i :: 0 <= i < |items| ==> ItemUidsIn(items[i], u) && GuardedItem(items[i])
    ensures FrozenItems(VisitItems(r, t, u, m, items).0) == FrozenItems(items)
    decreases u - m.visited, items
  {
    if items != [] {
      var k := |items| - 1;
      ItemsKeep(r, t, u, m, items[..k]);
      var (front, m1) := VisitItems(r, t, u, m, items[..k]);
      ItemKeeps(r, t, u, m1, items[k]);
      FrozenConcat(front, VisitItem(r, t, u, m1, items[k]).0);
    }
  }

  lemma {:induction false} ItemKeeps(r: Rules, t: set<nat>, u: set<int>, m: Memo, item: Item)
    requires Closed(r, u) && FreezeSafe(r) && ItemUidsIn(item, u) && GuardedItem(item)
    ensures FrozenItems(VisitItem(r, t, u, m, item).0) == FrozenItem(item)
    decreases u - m.visited, item
  {
    if item.Ast? {
      VisitKeeps(r, t, u, m, item.node, true);
      PutBack(Visit(r, t, u, m, item.node, true).0);
    } else {
      assert [item][..0] == [];
    }
  }

  lemma {:induction false} NodesKeep(r: Rules, t: set<nat>, u: set<int>, m: Memo, ns: seq<Node>, inList: bool)
    requires Closed(r, u) && FreezeSafe(r) && FrozenNodes(ns) == []
    requires forall i :: 0 <= i < |ns| ==> UidsIn(ns[i], u)
    ensures FrozenNodes(VisitNodes(r, t, u, m, ns, inList).0) == []
    decreases u - m.visited, ns
  {
    if ns != [] {
      var k := |ns| - 1;
      FreeNodes(ns);
      NodesKeep(r, t, u, m, ns[..k], inList);
      var (front, m1) := VisitNodes(r, t, u, m, ns[..k], inList);
      VisitKeeps(r, t, u, m1, ns[k], inList);
      var res := Visit(r, t, u, m1, ns[k], inList).0;
      PutBack(res);
      FrozenNodesConcat(front, Flat(res));
    }
  }

  // ---------------------------------------------------------------- attaching labels

  /** Identifiers and labels handed out so far. */
  datatype Counters = Counters(uid: nat, lbl: nat)

  /** Rewrites `i..` that match a node, with consecutive labels. */
  function Matching(r: Rules, n: Node, inList: bool, i: nat, lbl: nat): (seq<Labeled>, nat)
    decreases r.count - i
  {
    if i >= r.count then ([], lbl)
    else if r.matches(i, n, inList) then
      var (rest, lbl') := Matching(r, n, inList, i + 1, lbl + 1);
      ([Labeled(lbl, i)] + rest, lbl')
    else Matching(r, n, inList, i + 1, lbl)
  }

  /** Number the nodes in pre-order, label matching rewrites outside frozen regions, and drop the
      rewrites of a statement with a frozen part inside -- after their labels were handed out. */
  function Attach(r: Rules, n: Node, inList: bool, frozen: bool, c: Counters): (o: (Node, Counters))
    decreases n
  {
    var inside := frozen || Boundary(n.kind);
    var (rws, lbl) := if inside then ([], c.lbl) else Matching(r, n, inList, 0, c.lbl);
    var (fs, c') := AttachFields(r, n.fields, inside, Counters(c.uid + 1, lbl));
    var wiped := IsStmt(n.kind) && FrozenFields(n.fields) != [];
    (Node(n.kind, c.uid, if wiped then [] else rws, fs), c')
  }

  function AttachFields(r: Rules, fs: seq<Field>, frozen: bool, c: Counters): (o: (seq<Field>, Counters))
    decreases fs
  {
    if fs == [] then ([], c)
    else
      var k := |fs| - 1;
      var (front, c1) := AttachFields(r, fs[..k], frozen, c);
      var (f, c2) := AttachField(r, fs[k], frozen, c1);
      (front + [f], c2)
  }

  function AttachField(r: Rules, f: Field, frozen: bool, c: Counters): (o: (Field, Counters))
    decreases f
  {
    match f
    case Absent => (f, c)
    case Single(item) => var (item', c') := AttachItem(r, item, false, frozen, c); (Single(item'), c')
    case Items(items) => var (items', c') := AttachItems(r, items, frozen, c); (Items(items'), c')
  }

  function AttachItems(r: Rules, items: seq<Item>, frozen: bool, c: Counters): (o: (seq<Item>, Counters))
    decreases items
  {
    if items == [] then ([], c)
    else
      var k := |items| - 1;
      var (front, c1) := AttachItems(r, items[..k], frozen, c);
      var (item, c2) := AttachItem(r, items[k], true, frozen, c1);
      (front + [item], c2)
  }

  function AttachItem(r: Rules, item: Item, inList: bool, frozen: bool, c: Counters): (o: (Item, Counters))
    decreases item
  {
    if item.Ast? then var (n, c') := Attach(r, item.node, inList, frozen, c); (Ast(n), c') else (item, c)
  }

  // ---------------------------------------------------------------- what attaching establishes

  /** Only statements match, as in the `fast_reducers` set. */
  ghost predicate StatementRules(r: Rules) {
    forall i, n, inList :: r.matches(i, n, inList) ==> IsStmt(n.kind)
  }

  lemma {:induction false} NoMatch(r: Rules, n: Node, inList: bool, i: nat, lbl: nat)
    requires StatementRules(r) && !IsStmt(n.kind)
    ensures Matching(r, n, inList, i, lbl) == ([], lbl)
    decreases r.count - i
  {
    if i < r.count { NoMatch(r, n, inList, i + 1, lbl); }
  }

  /** The tree without identifiers and rewrites. */
  function Strip(n: Node): Node
    decreases n
  {
    Node(n.kind, -1, [], StripFields(n.fields))
  }

  function StripFields(fs: seq<Field>): seq<Field>
    decreases fs
  {
    if fs == [] then [] else StripFields(fs[..|fs| - 1]) + [StripField(fs[|fs| - 1])]
  }

  function StripField(f: Field): Field
    decreases f
  {
    match f
    case Absent => f
    case Single(item) => Single(StripItem(item))
    case Items(items) => Items(StripItems(items))
  }

  function StripItems(items: seq<Item>): seq<Item>
    decreases items
  {
    if items == [] then [] else StripItems(items[..|items| - 1]) + [StripItem(items[|items| - 1])]
  }

  function StripItem(item: Item): Item
    decreases item
  {
    if item.Ast? then Ast(Strip(item.node)) else item
  }

  function StripAll(ns: seq<Node>): seq<Node> {
    seq(|ns|, i requires 0 <= i < |ns| => Strip(ns[i]))
  }

  lemma StripConcat(a: seq<Node>, b: seq<Node>)
    ensures StripAll(a + b) == StripAll(a) + StripAll(b)
  {
  }

  /** What attaching a tree promises about the labelled tree. */
  ghost predicate Attached(n: Node, n': Node, frozen: bool) {
    && Strip(n') == Strip(n) && StripAll(Frozen(n')) == StripAll(Frozen(n))
    && Guarded(n') && (frozen ==> Plain(n'))
  }

  lemma {:induction false} AttachCorrect(r: Rules, n: Node, inList: bool, frozen: bool, c: Counters)
    requires StatementRules(r)
    ensures Attached(n, Attach(r, n, inList, frozen, c).0, frozen)
    decreases n
  {
    hide AttachFields, Matching, StatementRules;
    var inside := frozen || Boundary(n.kind);
    var (rws, lbl) := if inside then ([], c.lbl) else Matching(r, n, inList, 0, c.lbl);
    if !IsStmt(n.kind) { NoMatch(r, n, inList, 0, c.lbl); }
    FieldsAttached(r, n.fields, inside, Counters(c.uid + 1, lbl));
    var n' := Attach(r, n, inList, frozen, c).0;
    assert FrozenFields(n'.fields) == [] <==> FrozenFields(n.fields) == [] by {
      assert |StripAll(FrozenFields(n'.fields))| == |StripAll(FrozenFields(n.fields))|;
    }
    if Boundary(n.kind) {
      assert StripAll([n']) == [Strip(n')] && StripAll([n]) == [Strip(n)];
    }
  }

  lemma {:induction false} FieldsAttached(r: Rules, fs: seq<Field>, frozen: bool, c: Counters)
    requires StatementRules(r)
    ensures var fs' := AttachFields(r, fs, frozen, c).0;
            && |fs'| == |fs| && StripFields(fs') == StripFields(fs)
            && StripAll(FrozenFields(fs')) == StripAll(FrozenFields(fs))
            && (forall i :: 0 <= i < |fs'| ==> GuardedField(fs'[i]) && (frozen ==> PlainField(fs'[i])))
    decreases fs
  {
    if fs != [] {
      var k := |fs| - 1;
      FieldsAttached(r, fs[..k], frozen, c);
      var (front, c1) := AttachFields(r, fs[..k], frozen, c);
      FieldAttached(r, fs[k], frozen, c1);
      var f := AttachField(r, fs[k], frozen, c1).0;
      assert (front + [f])[..k] == front;
      StripConcat(FrozenFields(front), FrozenField(f));
      StripConcat(FrozenFields(fs[..k]), FrozenField(fs[k]));
    }
  }

  lemma {:induction false} FieldAttached(r: Rules, f: Field, frozen: bool, c: Counters)
    requires StatementRules(r)
    ensures var f' := AttachField(r, f, frozen, c).0;
            && StripField(f') == StripField(f) && StripAll(FrozenField(f')) == StripAll(FrozenField(f))
            && GuardedField(f') && (frozen ==> PlainField(f'))
    decreases f
  {
    match f {
      case Absent =>
      case Single(item) => ItemAttached(r, item, false, frozen, c);
      case Items(items) => ItemsAttached(r, items, frozen, c);
    }
  }

  lemma {:induction false} ItemsAttached(r: Rules, items: seq<Item>, frozen: bool, c: Counters)
    requires StatementRules(r)
    ensures var items' := AttachItems(r, items, frozen, c).0;
            && |items'| == |items| && StripItems(items') == StripItems(items)
            && StripAll(FrozenItems(items')) == StripAll(FrozenItems(items))
            && (forall i :: 0 <= i < |items'| ==> GuardedItem(items'[i]) && (frozen ==> PlainItem(items'[i])))
    decreases items
  {
    if items != [] {
      var k := |items| - 1;
      ItemsAttached(r, items[..k], frozen, c);
      var (front, c1) := AttachItems(r, items[..k], frozen, c);
      ItemAttached(r, items[k], true, frozen, c1);
      var item := AttachItem(r, items[k], true, frozen, c1).0;
      assert (front + [item])[..k] == front;
      StripConcat(FrozenItems(front), FrozenItem(item));
      StripConcat(FrozenItems(items[..k]), FrozenItem(items[k]));
    }
  }

  lemma {:induction false} ItemAttached(r: Rules, item: Item, inList: bool, frozen: bool, c: Counters)
    requires StatementRules(r)
    ensures var item' := AttachItem(r, item, inList, frozen, c).0;
            && StripItem(item') == StripItem(item) && StripAll(FrozenItem(item')) == StripAll(FrozenItem(item))
            && GuardedItem(item') && (frozen ==> PlainItem(item'))
    decreases item
  {
    if item.Ast? { AttachCorrect(r, item.node, inList, frozen, c); }
  }

  // ---------------------------------------------------------------- identifiers are consecutive

  ghost predicate Range(c: Counters, c': Counters, u: set<int>) {
    forall i :: c.uid <= i < c'.uid ==> i in u
  }

  lemma {:induction false} AttachUids(r: Rules, n: Node, inList: bool, frozen: bool, c: Counters, u: set<int>)
    requires Range(c, Attach(r, n, inList, frozen, c).1, u)
    ensures UidsIn(Attach(r, n, inList, frozen, c).0, u)
    decreases n
  {
    var inside := frozen || Boundary(n.kind);
    var lbl := if inside then c.lbl else Matching(r, n, inList, 0, c.lbl).1;
    NodeCount(r, n, inList, frozen, c);
    var (fs, c') := AttachFields(r, n.fields, inside, Counters(c.uid + 1, lbl));
    var (n', c'') := Attach(r, n, inList, frozen, c);
    assert n'.fields == fs && c'' == c';
    FieldsUids(r, n.fields, inside, Counters(c.uid + 1, lbl), u);
    assert AllUidsIn(fs, u);
  }

  predicate AllUidsIn(fs: seq<Field>, u: set<int>) {
    forall i :: 0 <= i < |fs| ==> FieldUidsIn(fs[i], u)
  }

  lemma {:induction false} FieldsUids(r: Rules, fs: seq<Field>, frozen: bool, c: Counters, u: set<int>)
    requires Range(c, AttachFields(r, fs, frozen, c).1, u)
    ensures AllUidsIn(AttachFields(r, fs, frozen, c).0, u)
    decreases fs
  {
    if fs != [] {
      var k := |fs| - 1;
      var (front, c1) := AttachFields(r, fs[..k], frozen, c);
      FieldsCount(r, fs[..k], frozen, c);
      FieldCount(r, fs[k], frozen, c1);
      FieldsUids(r, fs[..k], frozen, c, u);
      FieldUids(r, fs[k], frozen, c1, u);
    }
  }

  lemma {:induction false} FieldUids(r: Rules, f: Field, frozen: bool, c: Counters, u: set<int>)
    requires Range(c, AttachField(r, f, frozen, c).1, u)
    ensures FieldUidsIn(AttachField(r, f, frozen, c).0, u)
    decreases f
  {
    match f {
      case Absent =>
      case Single(item) => ItemUids(r, item, false, frozen, c, u);
      case Items(items) => ItemsUids(r, items, frozen, c, u);
    }
  }

  lemma {:induction false} ItemsUids(r: Rules, items: seq<Item>, frozen: bool, c: Counters, u: set<int>)
    requires Range(c, AttachItems(r, items, frozen, c).1, u)
    ensures forall i :: 0 <= i < |AttachItems(r, items, frozen, c).0| ==>
              ItemUidsIn(AttachItems(r, items, frozen, c).0[i], u)
    decreases items
  {
    if items != [] {
      var k := |items| - 1;
      var (front, c1) := AttachItems(r, items[..k], frozen, c);
      ItemsCount(r, items[..k], frozen, c);
      ItemCount(r, items[k], true, frozen, c1);
      ItemsUids(r, items[..k], frozen, c, u);
      ItemUids(r, items[k], true, frozen, c1, u);
    }
  }

  lemma {:induction false} ItemUids(r: Rules, item: Item, inList: bool, frozen: bool, c: Counters, u: set<int>)
    requires Range(c, AttachItem(r, item, inList, frozen, c).1, u)
    ensures ItemUidsIn(AttachItem(r, item, inList, frozen, c).0, u)
    decreases item
  {
    if item.Ast? { AttachUids(r, item.node, inList, frozen, c, u); }
  }

  lemma {:induction false} NodeCount(r: Rules, n: Node, inList: bool, frozen: bool, c: Counters)
    ensures c.uid < Attach(r, n, inList, frozen, c).1.uid
    decreases n
  {
    var inside := frozen || Boundary(n.kind);
    var lbl := if inside then c.lbl else Matching(r, n, inList, 0, c.lbl).1;
    FieldsCount(r, n.fields, inside, Counters(c.uid + 1, lbl));
  }

  lemma {:induction false} FieldsCount(r: Rules, fs: seq<Field>, frozen: bool, c: Counters)
    ensures c.uid <= AttachFields(r, fs, frozen, c).1.uid
    decreases fs
  {
    if fs != [] {
      var k := |fs| - 1;
      FieldsCount(r, fs[..k], frozen, c);
      FieldCount(r, fs[k], frozen, AttachFields(r, fs[..k], frozen, c).1);
    }
  }

  lemma {:induction false} FieldCount(r: Rules, f: Field, frozen: bool, c: Counters)
    ensures c.uid <= AttachField(r, f, frozen, c).1.uid
    decreases f
  {
    match f {
      case Absent =>
      case Single(item) => ItemCount(r, item, false, frozen, c);
      case Items(items) => ItemsCount(r, items, frozen, c);
    }
  }

  lemma {:induction false} ItemsCount(r: Rules, items: seq<Item>, frozen: bool, c: Counters)
    ensures c.uid <= AttachItems(r, items, frozen, c).1.uid
    decreases items
  {
    if items != [] {
      var k := |items| - 1;
      ItemsCount(r, items[..k], frozen, c);
      ItemCount(r, items[k], true, frozen, AttachItems(r, items[..k], frozen, c).1);
    }
  }

  lemma {:induction false} ItemCount(r: Rules, item: Item, inList: bool, frozen: bool, c: Counters)
    ensures c.uid <= AttachItem(r, item, inList, frozen, c).1.uid
    decreases item
  {
    if item.Ast? { NodeCount(r, item.node, inList, frozen, c); }
  }

  // ---------------------------------------------------------------- the property

  const START := Counters(0, 0)

  /** Freeze preservation: with statement-level rewrites, every frozen subtree of the source is in
      the rewritten tree, unchanged and in order, whatever labels are selected. */
  lemma FreezePreserved(r: Rules, u: set<int>, source: Node, targets: set<nat>)
    requires StatementRules(r) && FreezeSafe(r) && Closed(r, u)
    requires Range(START, Attach(r, source, false, false, START).1, u)
    ensures UidsIn(Attach(r, source, false, false, START).0, u)
    ensures var tree := Attach(r, source, false, false, START).0;
            var output := Apply(r, u, tree, targets).0;
            FrozenResult(output) == Frozen(tree) && StripAll(FrozenResult(output)) == StripAll(Frozen(source))
  {
    var tree := Attach(r, source, false, false, START).0;
    AttachUids(r, source, false, false, START, u);
    AttachCorrect(r, source, false, false, START);
    VisitKeeps(r, targets, u, Memo({}, {}), tree, false);
  }
}
