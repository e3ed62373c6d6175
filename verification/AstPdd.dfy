/** The delta debugger on a syntax tree: the rewrites as the generator's `apply`. */
module AstPdd {
  import opened Pdd
  import opened PddGenerator
  import opened Rewrites
  import opened Freeze
  import opened FastReducers

  /** Labels as the numbers they are. */
  function Nats(s: set<int>): set<nat> { set x: nat | x in s }
  function Ints(s: set<nat>): set<int> { set x: int | x in s }

  lemma NatsOfInts(s: set<nat>)
    ensures Nats(Ints(s)) == s
  {
  }

  /** `ASTPDD.apply`: the labels of a selection that are really applied to the tree. */
  function TreeApply(r: Rules, u: set<int>, tree: Node): set<int> -> set<int>
    requires Closed(r, u) && UidsIn(tree, u)
  {
    s => Ints(Apply(r, u, tree, Nats(s)).1)
  }

  /** It only drops labels, as the generator demands of it ... */
  lemma TreeApplyShrinks(r: Rules, u: set<int>, tree: Node)
    requires Closed(r, u) && UidsIn(tree, u)
    ensures Shrinks(TreeApply(r, u, tree))
  {
    forall s ensures TreeApply(r, u, tree)(s) <= s {
      assert Apply(r, u, tree, Nats(s)).1 <= Nats(s);
    }
  }

  /** ... and a selection it returned it returns again, with the same tree: the source emitted for a task is that of the
      labels the task was scored on. */
  lemma TreeApplyStable(r: Rules, u: set<int>, tree: Node, s: set<int>)
    requires Closed(r, u) && UidsIn(tree, u)
    ensures var t := TreeApply(r, u, tree)(s);
            && TreeApply(r, u, tree)(t) == t
            && Apply(r, u, tree, Nats(t)).0 == Apply(r, u, tree, Nats(s)).0
  {
    hide Apply, Nats, Ints;
    NatsOfInts(Apply(r, u, tree, Nats(s)).1);
    ApplyStable(r, u, tree, Nats(s));
  }

  /** The debugger with the fast reducers on any program, from any probabilities: finitely many tasks, and the tree
      of each keeps every frozen region of the program. */
  lemma FastTasks(source: Node, labels: seq<int>, pr: Probas, i: nat)
    ensures var (tree, c) := Attach(Fast(), source, false, false, START);
            && Closed(Fast(), AllUids(c.uid)) && UidsIn(tree, AllUids(c.uid))
            && var apply := TreeApply(Fast(), AllUids(c.uid), tree);
               var tasks := Generate(labels, pr, apply);
               && Shrinks(apply) && |tasks| <= TotalRank(labels, pr)
               && (i < |tasks| ==>
                     StripAll(FrozenResult(Apply(Fast(), AllUids(c.uid), tree, Nats(Labels(tasks[i].applied))).0))
                         == StripAll(Frozen(source)))
  {
    hide StripAll, FrozenResult, Frozen, Closed, UidsIn, Apply, Attach, TreeApply, TotalRank, Generate, Shrinks;
    var (tree, c) := Attach(Fast(), source, false, false, START);
    FastReducersPreserve(source, {});
    TreeApplyShrinks(Fast(), AllUids(c.uid), tree);
    var tasks := Generate(labels, pr, TreeApply(Fast(), AllUids(c.uid), tree));
    if i < |tasks| { FastReducersPreserve(source, Nats(Labels(tasks[i].applied))); }
  }
}
