/** When the overall score of `grade_text` stays within the criteria's common range: each
    criterion graded at most once, non-negative weights, and every range inside [0, hi].
    The duplicate-entry example in `Scoring` shows the first condition cannot be dropped. */
module ScoringBounds {
  import opened Wrappers
  import opened Schemas
  import opened Generative
  import opened Scoring
  import opened Seqs

  /** No two entries name the same criterion. */
  predicate DistinctCriteria(entries: seq<GradeEntry>) {
    forall i, j :: 0 <= i < j < |entries| ==> entries[i].criterion != entries[j].criterion
  }

  predicate NonNegativeWeights(criteria: seq<GradingCriteria>) {
    forall i :: 0 <= i < |criteria| ==> criteria[i].weight >= 0.0
  }

  /** The weight each entry's criterion contributes to the weighted sum, summed. */
  function MatchedWeight(criteria: seq<GradingCriteria>, entries: seq<GradeEntry>): real
    decreases |entries|
  {
    if |entries| == 0 then 0.0
    else
      var rest := MatchedWeight(criteria, entries[..|entries| - 1]);
      match Lookup(criteria, entries[|entries| - 1].criterion)
      case None => rest
      case Some(c) => rest + c.weight
  }

  /** The criteria not declared under `name`. */
  function Without(criteria: seq<GradingCriteria>, name: string): (r: seq<GradingCriteria>)
    ensures forall i :: 0 <= i < |r| ==> r[i] in criteria
    decreases |criteria|
  {
    if |criteria| == 0 then []
    else
      var rest := Without(criteria[..|criteria| - 1], name);
      if criteria[|criteria| - 1].category == name then rest else rest + [criteria[|criteria| - 1]]
  }

  /** The total weight declared under `name`. */
  function NamedWeight(criteria: seq<GradingCriteria>, name: string): real
    decreases |criteria|
  {
    if |criteria| == 0 then 0.0
    else
      var rest := NamedWeight(criteria[..|criteria| - 1], name);
      if criteria[|criteria| - 1].category == name then rest + criteria[|criteria| - 1].weight else rest
  }

  lemma {:induction false} WithoutLookup(criteria: seq<GradingCriteria>, name: string, other: string)
    requires other != name
    ensures Lookup(Without(criteria, name), other) == Lookup(criteria, other)
    decreases |criteria|
  {
    if |criteria| > 0 {
      var init := criteria[..|criteria| - 1];
      WithoutLookup(init, name, other);
      var rest := Without(init, name);
      if criteria[|criteria| - 1].category != name {
        assert (rest + [criteria[|criteria| - 1]])[..|rest|] == rest;
      }
    }
  }

  lemma {:induction false} WithoutWeight(criteria: seq<GradingCriteria>, name: string)
    ensures TotalWeight(criteria) == TotalWeight(Without(criteria, name)) + NamedWeight(criteria, name)
    decreases |criteria|
  {
    if |criteria| > 0 {
      var init := criteria[..|criteria| - 1];
      WithoutWeight(init, name);
      var rest := Without(init, name);
      if criteria[|criteria| - 1].category != name {
        assert (rest + [criteria[|criteria| - 1]])[..|rest|] == rest;
      }
    }
  }

  /** The criterion a name selects carries part of the weight declared under that name. */
  lemma {:induction false} NamedWeightCovers(criteria: seq<GradingCriteria>, name: string)
    requires NonNegativeWeights(criteria)
    requires Lookup(criteria, name).Some?
    ensures NamedWeight(criteria, name) >= Lookup(criteria, name).value.weight
    ensures NamedWeight(criteria, name) >= 0.0
    decreases |criteria|
  {
    var init := criteria[..|criteria| - 1];
    NamedWeightNonNegative(init, name);
    if criteria[|criteria| - 1].category != name {
      NamedWeightCovers(init, name);
    }
  }

  lemma {:induction false} NamedWeightNonNegative(criteria: seq<GradingCriteria>, name: string)
    requires NonNegativeWeights(criteria)
    ensures NamedWeight(criteria, name) >= 0.0
    decreases |criteria|
  {
    if |criteria| > 0 {
      NamedWeightNonNegative(criteria[..|criteria| - 1], name);
    }
  }

  /** Criteria lists that select the same criterion for every entry give the same matched
      weight. */
  lemma {:induction false} MatchedWeightAgrees(a: seq<GradingCriteria>, b: seq<GradingCriteria>,
                                              entries: seq<GradeEntry>)
    requires forall i :: 0 <= i < |entries| ==> Lookup(a, entries[i].criterion) == Lookup(b, entries[i].criterion)
    ensures MatchedWeight(a, entries) == MatchedWeight(b, entries)
    decreases |entries|
  {
    if |entries| > 0 {
      MatchedWeightAgrees(a, b, entries[..|entries| - 1]);
    }
  }

  /** With entries naming distinct criteria and non-negative weights, the weight the
      entries pick up never exceeds the total declared weight. */
  lemma {:induction false} MatchedWeightAtMostTotal(criteria: seq<GradingCriteria>, entries: seq<GradeEntry>)
    requires NonNegativeWeights(criteria)
    requires DistinctCriteria(entries)
    ensures MatchedWeight(criteria, entries) <= TotalWeight(criteria)
    ensures 0.0 <= TotalWeight(criteria)
    decreases |entries|
  {
    TotalWeightNonNegative(criteria);
    if |entries| > 0 {
      var init := entries[..|entries| - 1];
      var e := entries[|entries| - 1];
      match Lookup(criteria, e.criterion)
      case None =>
        MatchedWeightAtMostTotal(criteria, init);
      case Some(c) =>
        var rest := Without(criteria, e.criterion);
        assert NonNegativeWeights(rest);
        forall i | 0 <= i < |init|
          ensures Lookup(rest, init[i].criterion) == Lookup(criteria, init[i].criterion)
        {
          assert init[i].criterion != e.criterion;
          WithoutLookup(criteria, e.criterion, init[i].criterion);
        }
        MatchedWeightAgrees(rest, criteria, init);
        MatchedWeightAtMostTotal(rest, init);
        WithoutWeight(criteria, e.criterion);
        NamedWeightCovers(criteria, e.criterion);
    }
  }

  lemma {:induction false} TotalWeightNonNegative(criteria: seq<GradingCriteria>)
    requires NonNegativeWeights(criteria)
    ensures TotalWeight(criteria) >= 0.0
    decreases |criteria|
  {
    if |criteria| > 0 {
      TotalWeightNonNegative(criteria[..|criteria| - 1]);
    }
  }

  /** Scores of matched entries in [0, hi] and non-negative weights keep the weighted sum
      between 0 and `hi` times the matched weight. */
  lemma {:induction false} WeightedSumBounds(criteria: seq<GradingCriteria>, entries: seq<GradeEntry>, hi: real)
    requires NonNegativeWeights(criteria)
    requires forall i :: 0 <= i < |entries| && Lookup(criteria, entries[i].criterion).Some? ==>
      0.0 <= entries[i].score <= hi
    ensures 0.0 <= WeightedSum(criteria, entries) <= hi * MatchedWeight(criteria, entries)
    decreases |entries|
  {
    if |entries| == 0 {
      assert WeightedSum(criteria, entries) == 0.0 && MatchedWeight(criteria, entries) == 0.0;
    } else {
      var init := entries[..|entries| - 1];
      var e := entries[|entries| - 1];
      forall i | 0 <= i < |init| && Lookup(criteria, init[i].criterion).Some?
        ensures 0.0 <= init[i].score <= hi
      {
        assert init[i] == entries[i];
      }
      WeightedSumBounds(criteria, init, hi);
      WeightedSumBoundsStep(criteria, entries, hi);
    }
  }

  /** The inductive step of `WeightedSumBounds`: the bound for all entries but the last
      extends to all entries. */
  lemma WeightedSumBoundsStep(criteria: seq<GradingCriteria>, entries: seq<GradeEntry>, hi: real)
    requires NonNegativeWeights(criteria)
    requires |entries| > 0
    requires var e := entries[|entries| - 1];
      Lookup(criteria, e.criterion).Some? ==> 0.0 <= e.score <= hi
    requires var init := entries[..|entries| - 1];
      0.0 <= WeightedSum(criteria, init) <= hi * MatchedWeight(criteria, init)
    ensures 0.0 <= WeightedSum(criteria, entries) <= hi * MatchedWeight(criteria, entries)
  {
    var e := entries[|entries| - 1];
    if Lookup(criteria, e.criterion).Some? {
      LookupWeightNonNegative(criteria, e.criterion);
      MatchedStep(criteria, entries, hi);
    } else {
      UnmatchedStep(criteria, entries, hi);
    }
  }

  /** The inductive step when the last entry's criterion is declared. */
  lemma {:induction false} MatchedStep(criteria: seq<GradingCriteria>, entries: seq<GradeEntry>, hi: real)
    requires |entries| > 0
    requires var e := entries[|entries| - 1];
      && Lookup(criteria, e.criterion).Some? && Lookup(criteria, e.criterion).value.weight >= 0.0
      && 0.0 <= e.score <= hi
    requires var init := entries[..|entries| - 1];
      0.0 <= WeightedSum(criteria, init) <= hi * MatchedWeight(criteria, init)
    ensures 0.0 <= WeightedSum(criteria, entries) <= hi * MatchedWeight(criteria, entries)
  {
    var init := entries[..|entries| - 1];
    var e := entries[|entries| - 1];
    WeightedSumStep(criteria, entries);
    Extend(WeightedSum(criteria, init), MatchedWeight(criteria, init),
           WeightedSum(criteria, entries), MatchedWeight(criteria, entries),
           Lookup(criteria, e.criterion).value.weight, e.score, hi);
  }

  /** The inductive step when the last entry's criterion is not declared. */
  lemma {:induction false} UnmatchedStep(criteria: seq<GradingCriteria>, entries: seq<GradeEntry>, hi: real)
    requires |entries| > 0
    requires Lookup(criteria, entries[|entries| - 1].criterion).None?
    requires var init := entries[..|entries| - 1];
      0.0 <= WeightedSum(criteria, init) <= hi * MatchedWeight(criteria, init)
    ensures 0.0 <= WeightedSum(criteria, entries) <= hi * MatchedWeight(criteria, entries)
  {
    WeightedSumStep(criteria, entries);
  }

  /** The bound carried from one entry to the next, on plain numbers. */
  lemma Extend(ws: real, m: real, total: real, matched: real, w: real, s: real, hi: real)
    requires 0.0 <= ws <= hi * m
    requires w >= 0.0 && 0.0 <= s <= hi
    requires total == ws + w * s && matched == m + w
    ensures 0.0 <= total <= hi * matched
  {
    AccumulateBound(ws, m, w, s, hi);
  }

  /** How the last entry adds to the weighted sum and the matched weight. */
  lemma {:induction false} WeightedSumStep(criteria: seq<GradingCriteria>, entries: seq<GradeEntry>)
    requires |entries| > 0
    ensures var init := entries[..|entries| - 1];
      var e := entries[|entries| - 1];
      var l := Lookup(criteria, e.criterion);
      && (l.Some? ==> WeightedSum(criteria, entries) == WeightedSum(criteria, init) + l.value.weight * e.score)
      && (l.Some? ==> MatchedWeight(criteria, entries) == MatchedWeight(criteria, init) + l.value.weight)
      && (l.None? ==> WeightedSum(criteria, entries) == WeightedSum(criteria, init))
      && (l.None? ==> MatchedWeight(criteria, entries) == MatchedWeight(criteria, init))
  {
  }

  /** The criterion a name selects has a non-negative weight when every weight is. */
  lemma LookupWeightNonNegative(criteria: seq<GradingCriteria>, name: string)
    requires NonNegativeWeights(criteria)
    requires Lookup(criteria, name).Some?
    ensures Lookup(criteria, name).value.weight >= 0.0
  {
    var i :| 0 <= i < |criteria| && criteria[i] == Lookup(criteria, name).value;
  }

  /** One more weighted score keeps the running sum within its bound. */
  lemma AccumulateBound(ws: real, m: real, w: real, s: real, hi: real)
    requires 0.0 <= ws <= hi * m
    requires w >= 0.0 && 0.0 <= s <= hi
    ensures 0.0 <= ws + w * s <= hi * (m + w)
  {
    ScaleMonotone(w, 0.0, s);
    ScaleMonotone(w, s, hi);
    assert hi * (m + w) == hi * m + w * hi;
  }

  /** A sum bounded by `hi` times a weight no larger than the total, over the total. */
  lemma RatioBound(ws: real, m: real, total: real, hi: real)
    requires 0.0 <= ws <= hi * m && m <= total && total > 0.0 && hi >= 0.0
    ensures 0.0 <= ws / total <= hi
  {
    ScaleMonotone(hi, m, total);
    QuotientAtMost(ws, hi, total);
    QuotientAtLeast(ws, 0.0, total);
  }

  /** The weighted average of distinct entries whose matched scores lie in [0, hi]. */
  lemma OverallWithinBound(criteria: seq<GradingCriteria>, entries: seq<GradeEntry>, hi: real)
    requires NonNegativeWeights(criteria) && DistinctCriteria(entries) && hi >= 0.0
    requires forall i :: 0 <= i < |entries| && Lookup(criteria, entries[i].criterion).Some? ==>
      0.0 <= entries[i].score <= hi
    ensures 0.0 <= Overall(criteria, entries) <= hi
  {
    WeightedSumBounds(criteria, entries, hi);
    MatchedWeightAtMostTotal(criteria, entries);
    var total := TotalWeight(criteria);
    if total > 0.0 {
      RatioBound(WeightedSum(criteria, entries), MatchedWeight(criteria, entries), total, hi);
    }
  }

  /** The overall score stays in [0, hi] when no criterion is graded twice, weights are
      non-negative and every criterion's range lies inside [0, hi]. */
  lemma OverallBounded(criteria: seq<GradingCriteria>, reply: GradingPayload, hi: real)
    requires |criteria| > 0 && reply.gradingResults.Some?
    requires DistinctCriteria(reply.gradingResults.value)
    requires NonNegativeWeights(criteria)
    requires forall i :: 0 <= i < |criteria| ==>
      0 <= criteria[i].minScore <= criteria[i].maxScore && criteria[i].maxScore as real <= hi
    ensures var r := ApplyCriteria(Some(criteria), reply);
      r.Success? && r.value.overallScore.Some?
      && 0.0 <= r.value.overallScore.value <= hi
  {
    var r := ApplyCriteria(Some(criteria), reply);
    var es := reply.gradingResults.value;
    var es' := r.value.gradingResults.value;
    assert DistinctCriteria(es') by {
      forall i, j | 0 <= i < j < |es'| ensures es'[i].criterion != es'[j].criterion {
        assert es'[i].criterion == es[i].criterion && es'[j].criterion == es[j].criterion;
      }
    }
    forall i | 0 <= i < |es'| && Lookup(criteria, es'[i].criterion).Some?
      ensures 0.0 <= es'[i].score <= hi
    {
      var c := Lookup(criteria, es[i].criterion).value;
      assert c in criteria;
      NormalizeScoreInRange(es[i].score, c);
    }
    assert hi >= 0.0 by { assert 0 <= criteria[0].maxScore; }
    OverallWithinBound(criteria, es', hi);
  }
}
