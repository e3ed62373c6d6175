/** The statement-level rewrites of the reduction loop, and that frozen regions survive them. */
module FastReducers {
  import opened Rewrites
  import opened Freeze

  // Node kinds the rewrites look at or build; all others are left to the tags.
  const IF := Stmt(0)
  const FOR := Stmt(1)
  const ASSIGN := Stmt(2)
  const PASS := Stmt(3)
  const CONSTANT := Other(0)
  const TUPLE := Other(1)
  const LOAD := Other(2)

  /** A node without identifier, as a rewrite creates it. */
  function Fresh(kind: Kind, fields: seq<Field>): Node { Node(kind, -1, [], fields) }

  /** Values that are not nodes: 0, and the absent value None. */
  function Zero(): Node { Fresh(CONSTANT, [Single(Value(0)), Absent]) }

  /** The nodes of a list field. */
  function NodesOf(f: Field): seq<Node> {
    if f.Items? then ItemNodes(f.items) else []
  }

  function ItemNodes(items: seq<Item>): seq<Node> {
    if items == [] then []
    else ItemNodes(items[..|items| - 1]) + if items[|items| - 1].Ast? then [items[|items| - 1].node] else []
  }

  /** A zero for every element of a tuple of targets, or one zero. */
  function Zeros(target: Node): Node {
    if target.kind == TUPLE && |target.fields| >= 1 && target.fields[0].Items?
    then Fresh(TUPLE, [Items(seq(|target.fields[0].items|, _ => Ast(Zero()))), Single(Ast(Fresh(LOAD, [])))])
    else Zero()
  }

  predicate IsIf(n: Node) { n.kind == IF && |n.fields| == 3 && n.fields[1].Items? && n.fields[2].Items? }

  /** `for VARS in EXPR: BODY` without else part or type comment. */
  predicate IsPlainFor(n: Node) {
    && n.kind == FOR && |n.fields| == 5 && n.fields[0].Single? && n.fields[0].item.Ast?
    && n.fields[2].Items? && n.fields[3] == Items([]) && n.fields[4].Absent?
  }

  /** if-remover-1, -2 and -3, for-bind-0 and stmt-remover. The pattern of the middle two has a placeholder for the else
      part, which also matches an empty one. */
  predicate Matches(rule: nat, n: Node, inList: bool) {
    match rule
    case 0 => IsIf(n) && n.fields[2] == Items([])
    case 1 => IsIf(n)
    case 2 => IsIf(n)
    case 3 => IsPlainFor(n)
    case 4 => IsStmt(n.kind) && inList
    case _ => false
  }

  /** Only called on matches; nodes that do not match stay. */
  function Rewrite(rule: nat, n: Node, inList: bool): Result {
    if !Matches(rule, n, inList) then One(n)
    else match rule
      case 0 => Many(NodesOf(n.fields[1]))
      case 1 => Many(NodesOf(n.fields[1]))
      case 2 => Many(NodesOf(n.fields[2]))
      case 3 =>
        var target := n.fields[0].item.node;
        Many([Fresh(ASSIGN, [Items([Ast(target)]), Single(Ast(Zeros(target))), Absent])] + NodesOf(n.fields[2]))
      case _ => One(Fresh(PASS, []))
  }

  function Fast(): Rules {
    Rules(5, (i: nat, n: Node, b: bool) => Matches(i, n, b), (i: nat, n: Node, b: bool) => Rewrite(i, n, b))
  }

  // ---------------------------------------------------------------- what each rule leaves

  /** `if TEST: BODY else: ORELSE`, and `for TARGET in ITER: BODY`. */
  function IfOf(uid: int, rewrites: seq<Labeled>, test: Node, body: seq<Node>, orelse: seq<Node>): Node {
    Node(IF, uid, rewrites, [Single(Ast(test)), Items(AsItems(body)), Items(AsItems(orelse))])
  }

  function ForOf(uid: int, rewrites: seq<Labeled>, target: Node, iter: Node, body: seq<Node>): Node {
    Node(FOR, uid, rewrites, [Single(Ast(target)), Single(Ast(iter)), Items(AsItems(body)), Items([]), Absent])
  }

  function TupleOf(uid: int, elements: seq<Node>): Node {
    Node(TUPLE, uid, [], [Items(AsItems(elements)), Single(Ast(Fresh(LOAD, [])))])
  }

  lemma {:induction false} ListedNodes(ns: seq<Node>)
    ensures ItemNodes(AsItems(ns)) == ns
  {
    if ns != [] {
      var k := |ns| - 1;
      ListedNodes(ns[..k]);
      assert AsItems(ns)[..k] == AsItems(ns[..k]);
      assert ns[..k] + [ns[k]] == ns;
    }
  }

  /** The first two rules leave the statements of the body, the third those of the else part; the first is for an `if`
      without one. */
  lemma IfRulesLeave(uid: int, rewrites: seq<Labeled>, test: Node, body: seq<Node>, orelse: seq<Node>, inList: bool)
    ensures var n := IfOf(uid, rewrites, test, body, orelse);
            && (Matches(0, n, inList) <==> orelse == []) && Matches(1, n, inList) && Matches(2, n, inList)
            && (orelse == [] ==> Rewrite(0, n, inList) == Many(body))
            && Rewrite(1, n, inList) == Many(body) && Rewrite(2, n, inList) == Many(orelse)
  {
    ListedNodes(body);
    ListedNodes(orelse);
    assert orelse == [] <==> AsItems(orelse) == [];
  }

  /** The fourth leaves the body after an assignment of zeros to the loop's targets, as many as there are. */
  lemma ForRuleLeaves(uid: int, rewrites: seq<Labeled>, elements: seq<Node>, target: Node, iter: Node,
                      body: seq<Node>, inList: bool)
    requires target == TupleOf(target.uid, elements) || (target.kind != TUPLE && elements == [target])
    ensures var n := ForOf(uid, rewrites, target, iter, body);
            && Matches(3, n, inList)
            && var zeros := if target.kind == TUPLE then TupleOf(-1, seq(|elements|, _ => Zero())) else Zero();
               Rewrite(3, n, inList) == Many([Fresh(ASSIGN, [Items([Ast(target)]), Single(Ast(zeros)), Absent])] + body)
  {
    ListedNodes(body);
    var n := ForOf(uid, rewrites, target, iter, body);
    assert NodesOf(n.fields[2]) == body;
    if target.kind == TUPLE {
      assert seq(|elements|, _ => Ast(Zero())) == AsItems(seq(|elements|, _ => Zero()));
      assert Zeros(target) == TupleOf(-1, seq(|elements|, _ => Zero()));
    }
    assert Rewrite(3, n, inList)
           == Many([Fresh(ASSIGN, [Items([Ast(target)]), Single(Ast(Zeros(target))), Absent])] + body);
  }

  // ---------------------------------------------------------------- the three premises

  /** Every rule matches statements only. */
  lemma FastMatchesStatements()
    ensures StatementRules(Fast())
  {
  }

  lemma {:induction false} ItemNodesUids(items: seq<Item>, u: set<int>)
    requires forall i :: 0 <= i < |items| ==> ItemUidsIn(items[i], u)
    ensures forall i :: 0 <= i < |ItemNodes(items)| ==> UidsIn(ItemNodes(items)[i], u)
  {
    if items != [] {
      var k := |items| - 1;
      ItemNodesUids(items[..k], u);
      assert ItemUidsIn(items[k], u);
    }
  }

  lemma ZerosUids(target: Node, u: set<int>)
    requires -1 in u
    ensures UidsIn(Zeros(target), u)
  {
    assert UidsIn(Zero(), u);
    var z := Zeros(target);
    if z != Zero() {
      forall i | 0 <= i < |z.fields| ensures FieldUidsIn(z.fields[i], u) {
        if i == 0 {
          forall j | 0 <= j < |z.fields[0].items| ensures ItemUidsIn(z.fields[0].items[j], u) {
            assert z.fields[0].items[j] == Ast(Zero());
          }
        }
      }
    }
  }

  lemma AssignUids(target: Node, u: set<int>)
    requires -1 in u && UidsIn(target, u)
    ensures UidsIn(Fresh(ASSIGN, [Items([Ast(target)]), Single(Ast(Zeros(target))), Absent]), u)
  {
    ZerosUids(target, u);
    var n := Fresh(ASSIGN, [Items([Ast(target)]), Single(Ast(Zeros(target))), Absent]);
    forall i | 0 <= i < |n.fields| ensures FieldUidsIn(n.fields[i], u) {
      if i == 0 { assert ItemUidsIn(Ast(target), u); }
    }
  }

  lemma RewriteUids(rule: nat, n: Node, inList: bool, u: set<int>)
    requires -1 in u && UidsIn(n, u)
    ensures ResultUidsIn(Rewrite(rule, n, inList), u)
  {
    if Matches(rule, n, inList) && rule < 4 {
      forall i | 0 <= i < |n.fields| && n.fields[i].Items?
        ensures forall j :: 0 <= j < |NodesOf(n.fields[i])| ==> UidsIn(NodesOf(n.fields[i])[j], u)
      {
        assert FieldUidsIn(n.fields[i], u);
        ItemNodesUids(n.fields[i].items, u);
      }
      if rule == 3 {
        assert FieldUidsIn(n.fields[0], u);
        AssignUids(n.fields[0].item.node, u);
      }
    }
  }

  /** The rewrites invent no identifiers but the missing one. */
  lemma FastClosed(u: set<int>)
    requires -1 in u
    ensures Closed(Fast(), u)
  {
    forall rule, n, inList | UidsIn(n, u) ensures ResultUidsIn(Fast().rewrite(rule, n, inList), u) {
      RewriteUids(rule, n, inList, u);
    }
  }

  lemma {:induction false} NoFrozenField(fs: seq<Field>, i: nat)
    requires FrozenFields(fs) == [] && i < |fs|
    ensures FrozenField(fs[i]) == []
  {
    if i < |fs| - 1 {
      NoFrozenField(fs[..|fs| - 1], i);
    }
  }

  lemma {:induction false} NoFrozenNodes(items: seq<Item>)
    requires FrozenItems(items) == []
    ensures FrozenNodes(ItemNodes(items)) == []
  {
    if items != [] {
      var k := |items| - 1;
      NoFrozenNodes(items[..k]);
      var ns := ItemNodes(items[..k]);
      if items[k].Ast? {
        assert (ns + [items[k].node])[..|ns|] == ns;
        assert FrozenItem(items[k]) == Frozen(items[k].node);
      } else {
        assert ItemNodes(items) == ns;
      }
    }
  }

  lemma {:induction false} ZeroItems(n: nat)
    ensures FrozenItems(seq(n, _ => Ast(Zero()))) == []
  {
    var items := seq(n, _ => Ast(Zero()));
    if n > 0 {
      ZeroItems(n - 1);
      assert items[..n - 1] == seq(n - 1, _ => Ast(Zero()));
      NothingFrozen(Zero());
    }
  }

  /** A node of two fields, or three, is free of frozen parts when they are. */
  lemma NothingFrozen(n: Node)
    requires n == Zero()
    ensures Frozen(n) == []
  {
    TwoFields(Single(Value(0)), Absent);
  }

  lemma TwoFields(f: Field, g: Field)
    ensures FrozenFields([f, g]) == FrozenField(f) + FrozenField(g)
  {
    assert [f, g][..1] == [f] && [f][..0] == [];
    assert FrozenFields([f]) == FrozenFields([]) + FrozenField(f);
  }

  lemma ZerosFree(target: Node)
    ensures Frozen(Zeros(target)) == []
  {
    NothingFrozen(Zero());
    if Zeros(target) != Zero() {
      var items := seq(|target.fields[0].items|, _ => Ast(Zero()));
      ZeroItems(|items|);
      TwoFields(Items(items), Single(Ast(Fresh(LOAD, []))));
    }
  }

  lemma AssignFree(target: Node)
    requires Frozen(target) == []
    ensures Frozen(Fresh(ASSIGN, [Items([Ast(target)]), Single(Ast(Zeros(target))), Absent])) == []
  {
    ZerosFree(target);
    var f, g, h := Items([Ast(target)]), Single(Ast(Zeros(target))), Absent;
    TwoFields(f, g);
    assert [f, g, h][..2] == [f, g];
    assert [Ast(target)][..0] == [];
    assert FrozenItems([Ast(target)]) == FrozenItems([]) + FrozenItem(Ast(target));
    assert FrozenField(f) == [] && FrozenField(g) == FrozenItem(Ast(Zeros(target))) == [] && FrozenField(h) == [];
    assert FrozenFields([f, g, h]) == FrozenFields([f, g]) + FrozenField(h);
  }

  /** Rewriting a tree without a frozen part gives one without. */
  lemma RewriteFree(rule: nat, n: Node, inList: bool)
    requires Frozen(n) == []
    ensures FrozenResult(Rewrite(rule, n, inList)) == []
  {
    if Matches(rule, n, inList) && rule < 4 {
      forall i | 0 <= i < |n.fields| && n.fields[i].Items? ensures FrozenNodes(NodesOf(n.fields[i])) == [] {
        NoFrozenField(n.fields, i);
        NoFrozenNodes(n.fields[i].items);
      }
      if rule == 3 {
        var target := n.fields[0].item.node;
        NoFrozenField(n.fields, 0);
        assert FrozenField(n.fields[0]) == FrozenItem(n.fields[0].item) == Frozen(target);
        AssignFree(target);
        var a := Fresh(ASSIGN, [Items([Ast(target)]), Single(Ast(Zeros(target))), Absent]);
        FrozenNodesConcat([a], NodesOf(n.fields[2]));
        assert [a][..0] == [];
        assert FrozenNodes([a]) == FrozenNodes([]) + Frozen(a);
      }
    }
  }

  lemma FastSafe()
    ensures FreezeSafe(Fast())
  {
    forall rule, n, inList | Frozen(n) == [] ensures FrozenResult(Fast().rewrite(rule, n, inList)) == [] {
      RewriteFree(rule, n, inList);
    }
  }

  /** All identifiers of a labelled tree, and the missing one. */
  function AllUids(n: nat): (u: set<int>)
    ensures forall i :: -1 <= i < n ==> i in u
  {
    if n == 0 then {-1} else AllUids(n - 1) + {n - 1}
  }

  /** The fast reductions keep every frozen region of every program, unchanged and in order, whatever they are asked
      to apply. */
  lemma FastReducersPreserve(source: Node, targets: set<nat>)
    ensures var (tree, c) := Attach(Fast(), source, false, false, START);
            && Closed(Fast(), AllUids(c.uid)) && UidsIn(tree, AllUids(c.uid))
            && StripAll(FrozenResult(Apply(Fast(), AllUids(c.uid), tree, targets).0)) == StripAll(Frozen(source))
  {
    var (tree, c) := Attach(Fast(), source, false, false, START);
    var u := AllUids(c.uid);
    FastMatchesStatements();
    FastSafe();
    FastClosed(u);
    FreezePreserved(Fast(), u, source, targets);
  }
}
