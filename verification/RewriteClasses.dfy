/** The attacher and the applier as the mutable traversals of the tool. */
module RewriteClasses {
  import opened Rewrites
  import opened Freeze

  /** Applies the first targeted rewrite of every node it has not visited yet. */
  class RewriteApplier {
    const rules: Rules
    const targets: set<nat>
    var visited: set<int>
    var applied: set<nat>

    constructor (rules: Rules, targets: set<nat>)
      ensures this.rules == rules && this.targets == targets && State() == Memo({}, {})
    {
      this.rules, this.targets := rules, targets;
      visited, applied := {}, {};
    }

    ghost function State(): Memo
      reads this
    {
      Memo(visited, applied)
    }

    method Visit(n: Node, inList: bool, ghost u: set<int>) returns (res: Result)
      requires Closed(rules, u) && UidsIn(n, u)
      modifies this
      ensures (res, State()) == Rewrites.Visit(rules, targets, u, old(State()), n, inList)
      decreases u - visited, n, 1
    {
      if n.uid in visited {
        var fs := VisitFields(n.fields, u);
        return One(n.(fields := fs));
      }
      visited := visited + {n.uid};
      var i := 0;
      while i < |n.rewrites| && n.rewrites[i].lbl !in targets
        invariant i <= |n.rewrites| && forall j :: 0 <= j < i ==> n.rewrites[j].lbl !in targets
      {
        i := i + 1;
      }
      assert i == FirstTarget(n.rewrites, targets);
      if i == |n.rewrites| {
        var fs := VisitFields(n.fields, u);
        res := One(n.(fields := fs));
      } else {
        applied := applied + {n.rewrites[i].lbl};
        match rules.rewrite(n.rewrites[i].rule, n, inList) {
          case Gone =>
            res := Gone;
          case One(k) =>
            var fs := VisitFields(k.fields, u);
            res := One(k.(fields := fs));
          case Many(ns) =>
            var out := VisitNodes(ns, inList, u);
            res := Many(out);
        }
      }
    }

    /** `generic_visit`: every field in order. */
    method VisitFields(fs: seq<Field>, ghost u: set<int>) returns (out: seq<Field>)
      requires Closed(rules, u) && forall i :: 0 <= i < |fs| ==> FieldUidsIn(fs[i], u)
      modifies this
      ensures (out, State()) == Rewrites.VisitFields(rules, targets, u, old(State()), fs)
      decreases u - visited, fs
    {
      out := [];
      for k := 0 to |fs|
        invariant (out, State()) == Rewrites.VisitFields(rules, targets, u, old(State()), fs[..k])
      {
        assert fs[..k + 1][..k] == fs[..k];
        var f := VisitField(fs[k], u);
        out := out + [f];
      }
      assert fs[..|fs|] == fs;
    }

    method VisitField(f: Field, ghost u: set<int>) returns (out: Field)
      requires Closed(rules, u) && FieldUidsIn(f, u)
      modifies this
      ensures (out, State()) == Rewrites.VisitField(rules, targets, u, old(State()), f)
      decreases u - visited, f
    {
      match f {
        case Absent =>
          out := f;
        case Single(Value(_)) =>
          out := f;
        case Single(Ast(n)) =>
          var res := Visit(n, false, u);
          out := AsField(res);
        case Items(items) =>
          var out' := VisitItems(items, u);
          out := Items(out');
      }
    }

    method VisitItems(items: seq<Item>, ghost u: set<int>) returns (out: seq<Item>)
      requires Closed(rules, u) && forall i :: 0 <= i < |items| ==> ItemUidsIn(items[i], u)
      modifies this
      ensures (out, State()) == Rewrites.VisitItems(rules, targets, u, old(State()), items)
      decreases u - visited, items
    {
      out := [];
      for k := 0 to |items|
        invariant (out, State()) == Rewrites.VisitItems(rules, targets, u, old(State()), items[..k])
      {
        assert items[..k + 1][..k] == items[..k];
        var back := VisitItem(items[k], u);
        out := out + back;
      }
      assert items[..|items|] == items;
    }

    method VisitItem(item: Item, ghost u: set<int>) returns (out: seq<Item>)
      requires Closed(rules, u) && ItemUidsIn(item, u)
      modifies this
      ensures (out, State()) == Rewrites.VisitItem(rules, targets, u, old(State()), item)
      decreases u - visited, item
    {
      if item.Value? {
        out := [item];
      } else {
        var res := Visit(item.node, true, u);
        out := Splice(res);
      }
    }

    method VisitNodes(ns: seq<Node>, inList: bool, ghost u: set<int>) returns (out: seq<Node>)
      requires Closed(rules, u) && forall i :: 0 <= i < |ns| ==> UidsIn(ns[i], u)
      modifies this
      ensures (out, State()) == Rewrites.VisitNodes(rules, targets, u, old(State()), ns, inList)
      decreases u - visited, ns
    {
      out := [];
      for k := 0 to |ns|
        invariant (out, State()) == Rewrites.VisitNodes(rules, targets, u, old(State()), ns[..k], inList)
      {
        assert ns[..k + 1][..k] == ns[..k];
        var res := Visit(ns[k], inList, u);
        out := out + Flat(res);
      }
      assert ns[..|ns|] == ns;
    }
  }

  /** All entries of a flag stack raised when `hit`. */
  function Raised(stack: seq<bool>, hit: bool): seq<bool> {
    seq(|stack|, i requires 0 <= i < |stack| => stack[i] || hit)
  }

  /** Numbers nodes and labels rewrites in one pass; meeting a freeze boundary raises a flag on
      every enclosing statement, and a flagged statement drops its rewrites when it is left. */
  class RewriteAttacher {
    const rules: Rules
    var uidCounter: nat
    var rewriteCounter: nat
    var frozen: bool
    var stmtStack: seq<bool>

    constructor (rules: Rules)
      ensures this.rules == rules && State() == START && !frozen && stmtStack == []
    {
      this.rules := rules;
      uidCounter, rewriteCounter, frozen, stmtStack := 0, 0, false, [];
    }

    ghost function State(): Counters
      reads this
    {
      Counters(uidCounter, rewriteCounter)
    }

    method Visit(n: Node, inList: bool) returns (out: Node)
      modifies this
      ensures (out, State()) == Attach(rules, n, inList, old(frozen), old(State()))
      ensures frozen == old(frozen) && stmtStack == Raised(old(stmtStack), Frozen(n) != [])
      decreases n
    {
      var uid := uidCounter;
      uidCounter := uidCounter + 1;
      var rewrites := [];
      var isBoundary := Boundary(n.kind);
      var isFrozen := frozen || isBoundary;
      if isBoundary {
        stmtStack := Raised(stmtStack, true);
      }
      if !isFrozen {
        rewrites := LabelMatches(n, inList);
      }
      if IsStmt(n.kind) {
        stmtStack := stmtStack + [false];
      }
      var oldFrozen := frozen;
      frozen := isFrozen;
      var fs := VisitFields(n.fields);
      frozen := oldFrozen;
      if IsStmt(n.kind) {
        var top := |stmtStack| - 1;
        if stmtStack[top] {
          rewrites := [];
        }
        stmtStack := stmtStack[..top];
      }
      out := Node(n.kind, uid, rewrites, fs);
      assert stmtStack == Raised(old(stmtStack), Frozen(n) != []);
    }

    /** One label per matching rewrite, in the order of the rewrite list. */
    method LabelMatches(n: Node, inList: bool) returns (rewrites: seq<Labeled>)
      modifies this`rewriteCounter
      ensures var all := Matching(rules, n, inList, 0, old(rewriteCounter));
              rewrites == all.0 && rewriteCounter == all.1
    {
      rewrites := [];
      for i := 0 to rules.count
        invariant var all, rest := Matching(rules, n, inList, 0, old(rewriteCounter)),
                  Matching(rules, n, inList, i, rewriteCounter);
                  all.0 == rewrites + rest.0 && all.1 == rest.1
      {
        ghost var rest := Matching(rules, n, inList, i + 1, rewriteCounter + 1).0;
        assert rewrites + ([Labeled(rewriteCounter, i)] + rest) == rewrites + [Labeled(rewriteCounter, i)] + rest;
        if rules.matches(i, n, inList) {
          rewrites := rewrites + [Labeled(rewriteCounter, i)];
          rewriteCounter := rewriteCounter + 1;
        }
      }
      assert Matching(rules, n, inList, rules.count, rewriteCounter) == ([], rewriteCounter);
    }

    method VisitFields(fs: seq<Field>) returns (out: seq<Field>)
      modifies this
      ensures (out, State()) == AttachFields(rules, fs, old(frozen), old(State()))
      ensures frozen == old(frozen) && stmtStack == Raised(old(stmtStack), FrozenFields(fs) != [])
      decreases fs
    {
      out := [];
      for k := 0 to |fs|
        invariant (out, State()) == AttachFields(rules, fs[..k], old(frozen), old(State()))
        invariant frozen == old(frozen) && stmtStack == Raised(old(stmtStack), FrozenFields(fs[..k]) != [])
      {
        assert fs[..k + 1][..k] == fs[..k];
        var f := VisitField(fs[k]);
        out := out + [f];
      }
      assert fs[..|fs|] == fs;
    }

    method VisitField(f: Field) returns (out: Field)
      modifies this
      ensures (out, State()) == AttachField(rules, f, old(frozen), old(State()))
      ensures frozen == old(frozen) && stmtStack == Raised(old(stmtStack), FrozenField(f) != [])
      decreases f
    {
      match f {
        case Absent =>
          out := f;
          assert stmtStack == Raised(old(stmtStack), false);
        case Single(item) =>
          var item' := VisitItem(item, false);
          out := Single(item');
        case Items(items) =>
          var items' := VisitItems(items);
          out := Items(items');
      }
    }

    method VisitItems(items: seq<Item>) returns (out: seq<Item>)
      modifies this
      ensures (out, State()) == AttachItems(rules, items, old(frozen), old(State()))
      ensures frozen == old(frozen) && stmtStack == Raised(old(stmtStack), FrozenItems(items) != [])
      decreases items
    {
      out := [];
      for k := 0 to |items|
        invariant (out, State()) == AttachItems(rules, items[..k], old(frozen), old(State()))
        invariant frozen == old(frozen) && stmtStack == Raised(old(stmtStack), FrozenItems(items[..k]) != [])
      {
        assert items[..k + 1][..k] == items[..k];
        var item := VisitItem(items[k], true);
        out := out + [item];
      }
      assert items[..|items|] == items;
    }

    method VisitItem(item: Item, inList: bool) returns (out: Item)
      modifies this
      ensures (out, State()) == AttachItem(rules, item, inList, old(frozen), old(State()))
      ensures frozen == old(frozen) && stmtStack == Raised(old(stmtStack), FrozenItem(item) != [])
      decreases item
    {
      if item.Ast? {
        var n := Visit(item.node, inList);
        out := Ast(n);
      } else {
        out := item;
        assert stmtStack == Raised(old(stmtStack), false);
      }
    }
  }
}
