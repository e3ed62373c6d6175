/** Which rewrites the attacher hangs on which nodes, and how it numbers nodes and labels. */
module AttachLabels {
  import opened Rewrites
  import opened Freeze

  // ---------------------------------------------------------------- one node

  /** One rewrite for every rule that matches the node, and none besides, in the order of the rules. */
  ghost predicate Exactly(r: Rules, n: Node, inList: bool, from: nat, rws: seq<Labeled>) {
    && (forall j :: 0 <= j < |rws| ==> from <= rws[j].rule < r.count && r.matches(rws[j].rule, n, inList))
    && (forall j, k :: 0 <= j < k < |rws| ==> rws[j].rule < rws[k].rule)
    && (forall rule: nat :: from <= rule < r.count && r.matches(rule, n, inList) ==> Carries(rws, rule))
  }

  ghost predicate Carries(rws: seq<Labeled>, rule: nat) { exists j :: 0 <= j < |rws| && rws[j].rule == rule }

  lemma OneMore(r: Rules, n: Node, inList: bool, i: nat, lbl: nat, rest: seq<Labeled>)
    requires i < r.count && r.matches(i, n, inList) && Exactly(r, n, inList, i + 1, rest)
    ensures Exactly(r, n, inList, i, [Labeled(lbl, i)] + rest)
  {
    var rws := [Labeled(lbl, i)] + rest;
    assert rws[0].rule == i && forall j :: 0 < j < |rws| ==> rws[j] == rest[j - 1];
    forall rule: nat | i <= rule < r.count && r.matches(rule, n, inList) ensures Carries(rws, rule) {
      if rule > i {
        assert Carries(rest, rule);
        var j :| 0 <= j < |rest| && rest[j].rule == rule;
        assert rws[j + 1].rule == rule;
      }
    }
  }

  lemma OneLess(r: Rules, n: Node, inList: bool, i: nat, rws: seq<Labeled>)
    requires i < r.count && !r.matches(i, n, inList) && Exactly(r, n, inList, i + 1, rws)
    ensures Exactly(r, n, inList, i, rws)
  {
  }

  /** The rewrites of a node are exactly the matching ones, with consecutive labels. */
  lemma {:induction false} MatchingExact(r: Rules, n: Node, inList: bool, i: nat, lbl: nat)
    ensures var (rws, lbl') := Matching(r, n, inList, i, lbl);
            && Exactly(r, n, inList, i, rws) && lbl' == lbl + |rws|
            && (forall j :: 0 <= j < |rws| ==> rws[j].lbl == lbl + j)
    decreases r.count - i
  {
    if i >= r.count {
    } else if r.matches(i, n, inList) {
      hide Exactly;
      MatchingExact(r, n, inList, i + 1, lbl + 1);
      OneMore(r, n, inList, i, lbl, Matching(r, n, inList, i + 1, lbl + 1).0);
    } else {
      hide Exactly;
      MatchingExact(r, n, inList, i + 1, lbl);
      OneLess(r, n, inList, i, Matching(r, n, inList, i + 1, lbl).0);
    }
  }

  // ---------------------------------------------------------------- the whole tree

  /** `out` is `n` with the rewrites it should have: inside frozen regions none, on a statement with a frozen part
      inside none, and on every other node one for every matching rule. */
  ghost predicate Labelled(r: Rules, n: Node, out: Node, inList: bool, frozen: bool)
    decreases n
  {
    var inside := frozen || Boundary(n.kind);
    && out.kind == n.kind && |out.fields| == |n.fields|
    && (if inside || (IsStmt(n.kind) && FrozenFields(n.fields) != []) then out.rewrites == []
        else Exactly(r, n, inList, 0, out.rewrites))
    && forall i :: 0 <= i < |n.fields| ==> LabelledField(r, n.fields[i], out.fields[i], inside)
  }

  ghost predicate LabelledField(r: Rules, f: Field, out: Field, frozen: bool)
    decreases f
  {
    match f
    case Absent => out == f
    case Single(item) => out.Single? && LabelledItem(r, item, out.item, false, frozen)
    case Items(items) =>
      && out.Items? && |out.items| == |items|
      && forall i :: 0 <= i < |items| ==> LabelledItem(r, items[i], out.items[i], true, frozen)
  }

  ghost predicate LabelledItem(r: Rules, item: Item, out: Item, inList: bool, frozen: bool)
    decreases item
  {
    match item
    case Value(_) => out == item
    case Ast(n) => out.Ast? && Labelled(r, n, out.node, inList, frozen)
  }

  // The labels and the identifiers of a tree, in pre-order.
  function Labels(rws: seq<Labeled>): seq<int> { seq(|rws|, i requires 0 <= i < |rws| => rws[i].lbl) }

  function LabelsOf(n: Node): seq<int>
    decreases n
  {
    Labels(n.rewrites) + LabelsOfFields(n.fields)
  }

  function LabelsOfFields(fs: seq<Field>): seq<int>
    decreases fs
  {
    if fs == [] then [] else LabelsOfFields(fs[..|fs| - 1]) + LabelsOfField(fs[|fs| - 1])
  }

  function LabelsOfField(f: Field): seq<int>
    decreases f
  {
    match f
    case Absent => []
    case Single(item) => LabelsOfItem(item)
    case Items(items) => LabelsOfItems(items)
  }

  function LabelsOfItems(items: seq<Item>): seq<int>
    decreases items
  {
    if items == [] then [] else LabelsOfItems(items[..|items| - 1]) + LabelsOfItem(items[|items| - 1])
  }

  function LabelsOfItem(item: Item): seq<int>
    decreases item
  {
    if item.Ast? then LabelsOf(item.node) else []
  }

  function UidsOf(n: Node): seq<int>
    decreases n
  {
    [n.uid] + UidsOfFields(n.fields)
  }

  function UidsOfFields(fs: seq<Field>): seq<int>
    decreases fs
  {
    if fs == [] then [] else UidsOfFields(fs[..|fs| - 1]) + UidsOfField(fs[|fs| - 1])
  }

  function UidsOfField(f: Field): seq<int>
    decreases f
  {
    match f
    case Absent => []
    case Single(item) => UidsOfItem(item)
    case Items(items) => UidsOfItems(items)
  }

  function UidsOfItems(items: seq<Item>): seq<int>
    decreases items
  {
    if items == [] then [] else UidsOfItems(items[..|items| - 1]) + UidsOfItem(items[|items| - 1])
  }

  function UidsOfItem(item: Item): seq<int>
    decreases item
  {
    if item.Ast? then UidsOf(item.node) else []
  }

  /** Distinct values of [lo, hi) in ascending order, and all of them. */
  ghost predicate Rising(s: seq<int>, lo: int, hi: int) {
    && lo <= hi && (forall i :: 0 <= i < |s| ==> lo <= s[i] < hi)
    && forall i, j :: 0 <= i < j < |s| ==> s[i] < s[j]
  }

  ghost predicate Consecutive(s: seq<int>, lo: int, hi: int) {
    |s| == hi - lo && forall i :: 0 <= i < |s| ==> s[i] == lo + i
  }

  /** Labels and identifiers between two states of the counters. */
  ghost predicate Between(labels: seq<int>, uids: seq<int>, c: Counters, c': Counters) {
    Rising(labels, c.lbl, c'.lbl) && Consecutive(uids, c.uid, c'.uid)
  }

  lemma Joined(labels: seq<int>, uids: seq<int>, labels': seq<int>, uids': seq<int>, c: Counters, c1: Counters,
               c2: Counters)
    requires Between(labels, uids, c, c1) && Between(labels', uids', c1, c2)
    ensures Between(labels + labels', uids + uids', c, c2)
  {
  }

  /** The attacher hangs on every node exactly the rewrites it should have; the labels are distinct over the tree and
      rise in pre-order, and the nodes are numbered consecutively in pre-order. */
  lemma {:induction false} AttachExact(r: Rules, n: Node, inList: bool, frozen: bool, c: Counters)
    ensures var (out, c') := Attach(r, n, inList, frozen, c);
            Labelled(r, n, out, inList, frozen) && Between(LabelsOf(out), UidsOf(out), c, c')
    decreases n
  {
    hide Exactly, LabelledField, FrozenFields, Matching, Between;
    var inside := frozen || Boundary(n.kind);
    MatchingExact(r, n, inList, 0, c.lbl);
    var (rws, lbl) := if inside then ([], c.lbl) else Matching(r, n, inList, 0, c.lbl);
    var c1 := Counters(c.uid + 1, lbl);
    FieldsLabelled(r, n.fields, inside, c1);
    var (out, c') := Attach(r, n, inList, frozen, c);
    OwnBetween(out.rewrites, c, lbl);
    Joined(Labels(out.rewrites), [c.uid], LabelsOfFields(out.fields), UidsOfFields(out.fields), c, c1, c');
  }

  /** A node's own labels and number; a wiped node leaves its labels unused. */
  lemma OwnBetween(rws: seq<Labeled>, c: Counters, lbl: nat)
    requires c.lbl + |rws| <= lbl && forall j :: 0 <= j < |rws| ==> rws[j].lbl == c.lbl + j
    ensures Between(Labels(rws), [c.uid], c, Counters(c.uid + 1, lbl))
  {
  }

  lemma {:induction false} FieldsLabelled(r: Rules, fs: seq<Field>, frozen: bool, c: Counters)
    ensures var (out, c') := AttachFields(r, fs, frozen, c);
            && |out| == |fs| && (forall i :: 0 <= i < |fs| ==> LabelledField(r, fs[i], out[i], frozen))
            && Between(LabelsOfFields(out), UidsOfFields(out), c, c')
    decreases fs
  {
    hide LabelledField;
    if fs != [] {
      var k := |fs| - 1;
      FieldsLabelled(r, fs[..k], frozen, c);
      var (front, c1) := AttachFields(r, fs[..k], frozen, c);
      FieldLabelled(r, fs[k], frozen, c1);
      var (f, c2) := AttachField(r, fs[k], frozen, c1);
      assert (front + [f])[..k] == front;
      Joined(LabelsOfFields(front), UidsOfFields(front), LabelsOfField(f), UidsOfField(f), c, c1, c2);
    }
  }

  lemma {:induction false} FieldLabelled(r: Rules, f: Field, frozen: bool, c: Counters)
    ensures var (out, c') := AttachField(r, f, frozen, c);
            LabelledField(r, f, out, frozen) && Between(LabelsOfField(out), UidsOfField(out), c, c')
    decreases f
  {
    match f {
      case Absent =>
      case Single(item) => ItemLabelled(r, item, false, frozen, c);
      case Items(items) => ItemsLabelled(r, items, frozen, c);
    }
  }

  lemma {:induction false} ItemsLabelled(r: Rules, items: seq<Item>, frozen: bool, c: Counters)
    ensures var (out, c') := AttachItems(r, items, frozen, c);
            && |out| == |items| && (forall i :: 0 <= i < |items| ==> LabelledItem(r, items[i], out[i], true, frozen))
            && Between(LabelsOfItems(out), UidsOfItems(out), c, c')
    decreases items
  {
    hide LabelledItem;
    if items != [] {
      var k := |items| - 1;
      ItemsLabelled(r, items[..k], frozen, c);
      var (front, c1) := AttachItems(r, items[..k], frozen, c);
      ItemLabelled(r, items[k], true, frozen, c1);
      var (item, c2) := AttachItem(r, items[k], true, frozen, c1);
      assert (front + [item])[..k] == front;
      Joined(LabelsOfItems(front), UidsOfItems(front), LabelsOfItem(item), UidsOfItem(item), c, c1, c2);
    }
  }

  lemma {:induction false} ItemLabelled(r: Rules, item: Item, inList: bool, frozen: bool, c: Counters)
    ensures var (out, c') := AttachItem(r, item, inList, frozen, c);
            LabelledItem(r, item, out, inList, frozen) && Between(LabelsOfItem(out), UidsOfItem(out), c, c')
    decreases item
  {
    if item.Ast? { AttachExact(r, item.node, inList, frozen, c); }
  }
}
