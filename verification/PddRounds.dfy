/** What the delta debugger learns from a result, and how later rounds of its generator show it. */
module PddRounds {
  import opened RealArith
  import opened Pdd
  import opened PddGenerator

  // ---------------------------------------------------------------- posteriors

  /** An interesting task makes its applied labels certain and excludes its masked ones ... */
  lemma InterestingPosterior(pr: Probas, task: Task, x: int)
    requires x in pr
    ensures P(Updated(pr, task, true), x)
            == if x in task.masked then 0.0 else if x in task.applied then 1.0 else P(pr, x)
  {
  }

  /** ... and a failed one raises the doubt about each uncertain applied label by Bayes' rule: given that not all
      applied labels can go, with prod the probability that they could, (1 - p') (1 - prod) = 1 - p. */
  lemma FailedPosterior(pr: Probas, task: Task, x: int)
    requires x in pr
    ensures var p, p', prod := P(pr, x), P(Updated(pr, task, false), x), PositiveProd(task.applied, pr);
            && (x !in task.applied || p >= 1.0 ==> p' == p)
            && (x in task.applied && p < 1.0 && prod < 1.0 ==> Times(1.0 - p', 1.0 - prod) == 1.0 - p)
            && (x in task.applied && p < 1.0 && prod >= 1.0 ==> p' == 0.0)
  {
    hide Times;
    var p, prod := P(pr, x), PositiveProd(task.applied, pr);
    if prod < 1.0 { TimesQuotient(1.0 - p, 1.0 - prod); }
  }

  // ---------------------------------------------------------------- selections

  /** A certain label is in every selection ... */
  lemma CertainSelected(labels: seq<int>, pr: Probas, x: int)
    requires x in labels && P(pr, x) >= 1.0
    ensures x in Chosen(labels, pr)
  {
    var s := Sorted(labels, pr);
    SortedFacts(labels, pr);
    var k := FirstUncertain(s, pr);
    GreedySkipsCertain(s, pr, 0, k);
    var i :| 0 <= i < |s| && s[i] == x;
    assert Chosen(labels, pr)[i] == x;
  }

  /** ... and an excluded one in none. */
  lemma ExcludedNotSelected(labels: seq<int>, pr: Probas, x: int)
    requires P(pr, x) <= 0.0
    ensures x !in Chosen(labels, pr)
  {
    ChosenFacts(labels, pr);
  }

  /** A task is a selection, split into what was applied and what was not. */
  lemma TaskSplitsSelection(labels: seq<int>, pr: Probas, apply: set<int> -> set<int>, x: int)
    ensures var task, chosen := NextTask(labels, pr, apply), Chosen(labels, pr);
            && (x in task.applied <==> x in chosen && x in apply(Labels(chosen)))
            && (x in task.masked <==> x in chosen && x !in apply(Labels(chosen)))
  {
    hide Chosen;
  }

  // ---------------------------------------------------------------- rounds

  /** Probabilities after k failed rounds of the generator. */
  function Later(labels: seq<int>, pr: Probas, apply: set<int> -> set<int>, k: nat): Probas {
    if k == 0 then pr
    else
      var q := Later(labels, pr, apply, k - 1);
      Updated(q, NextTask(labels, q, apply), false)
  }

  lemma {:induction false} LaterShift(labels: seq<int>, pr: Probas, apply: set<int> -> set<int>, k: nat)
    ensures Later(labels, Updated(pr, NextTask(labels, pr, apply), false), apply, k) == Later(labels, pr, apply, k + 1)
  {
    hide NextTask, Updated;
    var next := Updated(pr, NextTask(labels, pr, apply), false);
    if k == 0 {
      assert Later(labels, pr, apply, 0) == pr;
    } else {
      LaterShift(labels, pr, apply, k - 1);
      assert Later(labels, next, apply, k - 1) == Later(labels, pr, apply, k);
    }
  }

  /** The i-th task of a generator is the task of its i-th round. */
  lemma {:induction false} GenerateRounds(labels: seq<int>, pr: Probas, apply: set<int> -> set<int>, i: nat)
    requires i < |Generate(labels, pr, apply)|
    ensures Generate(labels, pr, apply)[i] == NextTask(labels, Later(labels, pr, apply, i), apply)
    ensures !Stops(labels, Later(labels, pr, apply, i), apply)
    decreases i
  {
    hide NextTask, Updated, Stops, TotalRank;
    if i > 0 {
      var next := Updated(pr, NextTask(labels, pr, apply), false);
      GenerateRounds(labels, next, apply, i - 1);
      LaterShift(labels, pr, apply, i - 1);
    }
  }

  /** A generator ends in the first round that proposes nothing uncertain. */
  lemma {:induction false} GenerateEnds(labels: seq<int>, pr: Probas, apply: set<int> -> set<int>)
    ensures Stops(labels, Later(labels, pr, apply, |Generate(labels, pr, apply)|), apply)
    decreases TotalRank(labels, pr)
  {
    hide NextTask, Updated, Stops, TotalRank;
    if !Stops(labels, pr, apply) {
      var next := Updated(pr, NextTask(labels, pr, apply), false);
      TaskFalls(labels, pr, apply);
      GenerateEnds(labels, next, apply);
      LaterShift(labels, pr, apply, |Generate(labels, next, apply)|);
    }
  }

  /** A round ends the generator exactly when every label it selected and applied is certain already; in particular when
      no label is left between impossible and certain. */
  lemma StopsExactly(labels: seq<int>, pr: Probas, apply: set<int> -> set<int>)
    ensures var chosen := Chosen(labels, pr);
            Stops(labels, pr, apply) <==> forall x :: x in chosen && x in apply(Labels(chosen)) ==> P(pr, x) >= 1.0
    ensures (forall x :: x in labels ==> P(pr, x) <= 0.0 || P(pr, x) >= 1.0) ==> Stops(labels, pr, apply)
  {
    hide Chosen, Greedy, Times;
    ChosenFacts(labels, pr);
    var ch, r := Chosen(labels, pr), Best(labels, pr);
    TimesSign(r.count, r.prod);
    TimesUnit(r.prod);
    if r.count == 0.0 {
      forall x | x in ch ensures P(pr, x) >= 1.0 { if P(pr, x) < 1.0 { NoneUncertain(ch, pr, x); } }
    }
  }

  /** Failed rounds leave a certain label certain and an excluded one excluded. */
  lemma {:induction false} LaterKeeps(labels: seq<int>, pr: Probas, apply: set<int> -> set<int>, k: nat, x: int)
    requires x in pr && (P(pr, x) >= 1.0 || P(pr, x) <= 0.0)
    ensures x in Later(labels, pr, apply, k) && P(Later(labels, pr, apply, k), x) == P(pr, x)
  {
    hide NextTask, Chosen;
    if k > 0 {
      LaterKeeps(labels, pr, apply, k - 1, x);
      var q := Later(labels, pr, apply, k - 1);
      TaskSplitsSelection(labels, q, apply, x);
      if P(q, x) <= 0.0 { ExcludedNotSelected(labels, q, x); }
    }
  }

  /** After an interesting result, through any number of failed tasks: every label it applied is in every later
      selection, and no label it masked is in any. */
  lemma AfterInteresting(labels: seq<int>, pr: Probas, task: Task, apply: set<int> -> set<int>, k: nat, x: int)
    requires pr.Keys == Labels(labels) && x in labels
    ensures var later := Chosen(labels, Later(labels, Updated(pr, task, true), apply, k));
            && (x in task.applied && x !in task.masked ==> x in later)
            && (x in task.masked ==> x !in later)
  {
    hide Chosen, Later;
    var q := Updated(pr, task, true);
    if x in task.applied || x in task.masked {
      InterestingPosterior(pr, task, x);
      LaterKeeps(labels, q, apply, k, x);
      if x in task.masked {
        ExcludedNotSelected(labels, Later(labels, q, apply, k), x);
      } else {
        CertainSelected(labels, Later(labels, q, apply, k), x);
      }
    }
  }

  /** So does every task the generator then yields contain the accepted labels, applied or masked, and none of the
      masked. */
  lemma TasksAfterInteresting(labels: seq<int>, pr: Probas, task: Task, apply: set<int> -> set<int>, i: nat, x: int)
    requires pr.Keys == Labels(labels) && x in labels
    requires i < |Generate(labels, Updated(pr, task, true), apply)|
    ensures var t := Generate(labels, Updated(pr, task, true), apply)[i];
            && (x in task.applied && x !in task.masked ==> x in t.applied || x in t.masked)
            && (x in task.masked ==> x !in t.applied && x !in t.masked)
  {
    hide Chosen, Later, NextTask, Generate, Updated;
    var q := Updated(pr, task, true);
    GenerateRounds(labels, q, apply, i);
    AfterInteresting(labels, pr, task, apply, i, x);
    TaskSplitsSelection(labels, Later(labels, q, apply, i), apply, x);
  }
}
