/** Labelled rewriting of syntax trees: the applier as a function, its termination, and the
    stability of its result. */
module Rewrites {

  // ---------------------------------------------------------------- trees

  datatype Kind = FreezeWith | FreezeCall | Stmt(tag: nat) | Other(tag: nat)

  predicate IsStmt(k: Kind) { k.FreezeWith? || k.Stmt? }

  /** `with __freeze__:` and `__freeze__(expr)`. */
  predicate Boundary(k: Kind) { k.FreezeWith? || k.FreezeCall? }

  datatype Labeled = Labeled(lbl: nat, rule: nat)

  /** A syntax node; `uid` is -1 for nodes a rewrite created. */
  datatype Node = Node(kind: Kind, uid: int, rewrites: seq<Labeled>, fields: seq<Field>)
  datatype Field = Single(item: Item) | Absent | Items(items: seq<Item>)
  datatype Item = Value(v: int) | Ast(node: Node)

  /** What a rewrite or a visit yields: nothing, a node, or a list of nodes. */
  datatype Result = Gone | One(node: Node) | Many(nodes: seq<Node>)

  datatype Rules = Rules(count: nat, matches: (nat, Node, bool) -> bool, rewrite: (nat, Node, bool) -> Result)

  // ---------------------------------------------------------------- identifiers

  predicate UidsIn(n: Node, u: set<int>)
    decreases n
  {
    n.uid in u && forall i :: 0 <= i < |n.fields| ==> FieldUidsIn(n.fields[i], u)
  }

  predicate FieldUidsIn(f: Field, u: set<int>)
    decreases f
  {
    match f
    case Single(item) => item.Ast? ==> UidsIn(item.node, u)
    case Absent => true
    case Items(items) => forall i :: 0 <= i < |items| ==> ItemUidsIn(items[i], u)
  }

  predicate ItemUidsIn(item: Item, u: set<int>)
    decreases item
  {
    item.Ast? ==> UidsIn(item.node, u)
  }

  predicate ResultUidsIn(r: Result, u: set<int>) {
    match r
    case Gone => true
    case One(n) => UidsIn(n, u)
    case Many(ns) => forall i :: 0 <= i < |ns| ==> UidsIn(ns[i], u)
  }

  /** Rewrites rearrange nodes and create nodes without identifier; they invent no identifiers. */
  ghost predicate Closed(r: Rules, u: set<int>) {
    forall rule, n, inList :: UidsIn(n, u) ==> ResultUidsIn(r.rewrite(rule, n, inList), u)
  }

  // ---------------------------------------------------------------- the applier

  /** The applier's fields: identifiers visited and labels applied. */
  datatype Memo = Memo(visited: set<int>, applied: set<nat>)

  predicate Grows(a: Memo, b: Memo, targets: set<nat>) {
    a.visited <= b.visited && a.applied <= b.applied <= a.applied + targets
  }

  /** Position of the first labelled rewrite that is a target. */
  function FirstTarget(rewrites: seq<Labeled>, targets: set<nat>): (i: nat)
    ensures i <= |rewrites|
    ensures forall j :: 0 <= j < i ==> rewrites[j].lbl !in targets
    ensures i < |rewrites| ==> rewrites[i].lbl in targets
  {
    if rewrites == [] || rewrites[0].lbl in targets then 0 else 1 + FirstTarget(rewrites[1..], targets)
  }

  function Visit(r: Rules, t: set<nat>, u: set<int>, m: Memo, n: Node, inList: bool): (o: (Result, Memo))
    requires Closed(r, u) && UidsIn(n, u)
    ensures Grows(m, o.1, t)
    decreases u - m.visited, n, 1
  {
    if n.uid in m.visited then
      var (fs, m') := VisitFields(r, t, u, m, n.fields);
      (One(n.(fields := fs)), m')
    else
      var m1 := Memo(m.visited + {n.uid}, m.applied);
      var i := FirstTarget(n.rewrites, t);
      if i == |n.rewrites| then
        var (fs, m') := VisitFields(r, t, u, m1, n.fields);
        (One(n.(fields := fs)), m')
      else
        var m2 := Memo(m1.visited, m1.applied + {n.rewrites[i].lbl});
        match r.rewrite(n.rewrites[i].rule, n, inList)
        case Gone => (Gone, m2)
        case One(k) =>
          var (fs, m') := VisitFields(r, t, u, m2, k.fields);
          (One(k.(fields := fs)), m')
        case Many(ns) =>
          var (ns', m') := VisitNodes(r, t, u, m2, ns, inList);
          (Many(ns'), m')
  }

  function VisitFields(r: Rules, t: set<nat>, u: set<int>, m: Memo, fs: seq<Field>): (o: (seq<Field>, Memo))
    requires Closed(r, u) && forall i :: 0 <= i < |fs| ==> FieldUidsIn(fs[i], u)
    ensures Grows(m, o.1, t)
    decreases u - m.visited, fs
  {
    if fs == [] then ([], m)
    else
      var k := |fs| - 1;
      var (front, m1) := VisitFields(r, t, u, m, fs[..k]);
      var (f, m2) := VisitField(r, t, u, m1, fs[k]);
      (front + [f], m2)
  }

  function VisitField(r: Rules, t: set<nat>, u: set<int>, m: Memo, f: Field): (o: (Field, Memo))
    requires Closed(r, u) && FieldUidsIn(f, u)
    ensures Grows(m, o.1, t)
    decreases u - m.visited, f
  {
    match f
    case Absent => (f, m)
    case Single(Value(_)) => (f, m)
    case Single(Ast(n)) => var (res, m') := Visit(r, t, u, m, n, false); (AsField(res), m')
    case Items(items) => var (items', m') := VisitItems(r, t, u, m, items); (Items(items'), m')
  }

  /** A visited single child: deleted, replaced, or replaced by a list. */
  function AsField(res: Result): Field {
    match res
    case Gone => Absent
    case One(n) => Single(Ast(n))
    case Many(ns) => Items(AsItems(ns))
  }

  function AsItems(ns: seq<Node>): seq<Item> {
    seq(|ns|, i requires 0 <= i < |ns| => Ast(ns[i]))
  }

  /** A visited list element: dropped, replaced, or spliced in. */
  function Splice(res: Result): seq<Item> {
    match res case Gone => [] case One(n) => [Ast(n)] case Many(ns) => AsItems(ns)
  }

  function VisitItems(r: Rules, t: set<nat>, u: set<int>, m: Memo, items: seq<Item>): (o: (seq<Item>, Memo))
    requires Closed(r, u) && forall i :: 0 <= i < |items| ==> ItemUidsIn(items[i], u)
    ensures Grows(m, o.1, t)
    decreases u - m.visited, items
  {
    if items == [] then ([], m)
    else
      var k := |items| - 1;
      var (front, m1) := VisitItems(r, t, u, m, items[..k]);
      var (back, m2) := VisitItem(r, t, u, m1, items[k]);
      (front + back, m2)
  }

  function VisitItem(r: Rules, t: set<nat>, u: set<int>, m: Memo, item: Item): (o: (seq<Item>, Memo))
    requires Closed(r, u) && ItemUidsIn(item, u)
    ensures Grows(m, o.1, t)
    decreases u - m.visited, item
  {
    if item.Value? then ([item], m)
    else
      var (res, m') := Visit(r, t, u, m, item.node, true);
      (Splice(res), m')
  }

  /** The nodes a rewrite returned, each visited in turn. */
  function VisitNodes(r: Rules, t: set<nat>, u: set<int>, m: Memo, ns: seq<Node>, inList: bool): (o: (seq<Node>, Memo))
    requires Closed(r, u) && forall i :: 0 <= i < |ns| ==> UidsIn(ns[i], u)
    ensures Grows(m, o.1, t)
    decreases u - m.visited, ns
  {
    if ns == [] then ([], m)
    else
      var k := |ns| - 1;
      var (front, m1) := VisitNodes(r, t, u, m, ns[..k], inList);
      var (res, m2) := Visit(r, t, u, m1, ns[k], inList);
      (front + Flat(res), m2)
  }

  function Flat(res: Result): seq<Node> {
    match res case Gone => [] case One(n) => [n] case Many(ns) => ns
  }

  /** `apply_rewrites`: the new tree and the labels that were applied. */
  function Apply(r: Rules, u: set<int>, tree: Node, targets: set<nat>): (o: (Result, set<nat>))
    requires Closed(r, u) && UidsIn(tree, u)
    ensures o.1 <= targets
  {
    var (res, m) := Visit(r, targets, u, Memo({}, {}), tree, false);
    (res, m.applied)
  }

  // ---------------------------------------------------------------- stability

  lemma SameFirstTarget(rewrites: seq<Labeled>, t: set<nat>, s: set<nat>)
    requires s <= t
    requires var i := FirstTarget(rewrites, t); i < |rewrites| ==> rewrites[i].lbl in s
    ensures FirstTarget(rewrites, s) == FirstTarget(rewrites, t)
  {
    var i, j := FirstTarget(rewrites, t), FirstTarget(rewrites, s);
    assert j < |rewrites| ==> rewrites[j].lbl in t;
    assert i < |rewrites| ==> rewrites[i].lbl in s;
  }

  lemma {:induction false} VisitStable(r: Rules, t: set<nat>, s: set<nat>, u: set<int>, m: Memo, n: Node, inList: bool)
    requires Closed(r, u) && UidsIn(n, u) && Visit(r, t, u, m, n, inList).1.applied <= s <= t
    ensures Visit(r, s, u, m, n, inList) == Visit(r, t, u, m, n, inList)
    decreases u - m.visited, n, 1
  {
    if n.uid in m.visited {
      FieldsStable(r, t, s, u, m, n.fields);
    } else {
      var m1 := Memo(m.visited + {n.uid}, m.applied);
      var i := FirstTarget(n.rewrites, t);
      SameFirstTarget(n.rewrites, t, s);
      if i == |n.rewrites| {
        FieldsStable(r, t, s, u, m1, n.fields);
      } else {
        var m2 := Memo(m1.visited, m1.applied + {n.rewrites[i].lbl});
        match r.rewrite(n.rewrites[i].rule, n, inList) {
          case Gone =>
          case One(k) => FieldsStable(r, t, s, u, m2, k.fields);
          case Many(ns) => NodesStable(r, t, s, u, m2, ns, inList);
        }
      }
    }
  }

  lemma {:induction false} FieldsStable(r: Rules, t: set<nat>, s: set<nat>, u: set<int>, m: Memo, fs: seq<Field>)
    requires Closed(r, u) && forall i :: 0 <= i < |fs| ==> FieldUidsIn(fs[i], u)
    requires VisitFields(r, t, u, m, fs).1.applied <= s <= t
    ensures VisitFields(r, s, u, m, fs) == VisitFields(r, t, u, m, fs)
    decreases u - m.visited, fs
  {
    if fs != [] {
      var k := |fs| - 1;
      FieldsStable(r, t, s, u, m, fs[..k]);
      FieldStable(r, t, s, u, VisitFields(r, t, u, m, fs[..k]).1, fs[k]);
    }
  }

  lemma {:induction false} FieldStable(r: Rules, t: set<nat>, s: set<nat>, u: set<int>, m: Memo, f: Field)
    requires Closed(r, u) && FieldUidsIn(f, u) && VisitField(r, t, u, m, f).1.applied <= s <= t
    ensures VisitField(r, s, u, m, f) == VisitField(r, t, u, m, f)
    decreases u - m.visited, f
  {
    match f {
      case Absent =>
      case Single(Value(_)) =>
      case Single(Ast(n)) => VisitStable(r, t, s, u, m, n, false);
      case Items(items) => ItemsStable(r, t, s, u, m, items);
    }
  }

  lemma {:induction false} ItemsStable(r: Rules, t: set<nat>, s: set<nat>, u: set<int>, m: Memo, items: seq<Item>)
    requires Closed(r, u) && forall i :: 0 <= i < |items| ==> ItemUidsIn(items[i], u)
    requires VisitItems(r, t, u, m, items).1.applied <= s <= t
    ensures VisitItems(r, s, u, m, items) == VisitItems(r, t, u, m, items)
    decreases u - m.visited, items
  {
    if items != [] {
      var k := |items| - 1;
      ItemsStable(r, t, s, u, m, items[..k]);
      ItemStable(r, t, s, u, VisitItems(r, t, u, m, items[..k]).1, items[k]);
    }
  }

  lemma {:induction false} ItemStable(r: Rules, t: set<nat>, s: set<nat>, u: set<int>, m: Memo, item: Item)
    requires Closed(r, u) && ItemUidsIn(item, u) && VisitItem(r, t, u, m, item).1.applied <= s <= t
    ensures VisitItem(r, s, u, m, item) == VisitItem(r, t, u, m, item)
    decreases u - m.visited, item
  {
    if item.Ast? { VisitStable(r, t, s, u, m, item.node, true); }
  }

  lemma {:induction false} NodesStable(r: Rules, t: set<nat>, s: set<nat>, u: set<int>, m: Memo, ns: seq<Node>,
                                       inList: bool)
    requires Closed(r, u) && forall i :: 0 <= i < |ns| ==> UidsIn(ns[i], u)
    requires VisitNodes(r, t, u, m, ns, inList).1.applied <= s <= t
    ensures VisitNodes(r, s, u, m, ns, inList) == VisitNodes(r, t, u, m, ns, inList)
    decreases u - m.visited, ns
  {
    if ns != [] {
      var k := |ns| - 1;
      NodesStable(r, t, s, u, m, ns[..k], inList);
      VisitStable(r, t, s, u, VisitNodes(r, t, u, m, ns[..k], inList).1, ns[k], inList);
    }
  }

  /** Re-running with only the labels that were applied gives the same tree and the same labels:
      the emitted source is the one the selection was scored on. */
  lemma ApplyStable(r: Rules, u: set<int>, tree: Node, targets: set<nat>)
    requires Closed(r, u) && UidsIn(tree, u)
    ensures Apply(r, u, tree, Apply(r, u, tree, targets).1) == Apply(r, u, tree, targets)
  {
    VisitStable(r, targets, Apply(r, u, tree, targets).1, u, Memo({}, {}), tree, false);
  }

  /** Any set between the applied labels and the targets gives that tree too. */
  lemma ApplyBetween(r: Rules, u: set<int>, tree: Node, targets: set<nat>, s: set<nat>)
    requires Closed(r, u) && UidsIn(tree, u) && Apply(r, u, tree, targets).1 <= s <= targets
    ensures Apply(r, u, tree, s) == Apply(r, u, tree, targets)
  {
    VisitStable(r, targets, s, u, Memo({}, {}), tree, false);
  }
}
