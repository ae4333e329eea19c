/** Score normalisation and weighted aggregation of `grade_text`: every graded entry that
    names a declared criterion gets its raw score mapped into that criterion's integer
    range, and the overall score is recomputed as a weighted average. Also the rubric
    text the grading prompt shows the model. */
module Scoring {
  import opened Wrappers
  import opened Schemas
  import opened Generative
  import Text
  import Http

  /** Python's `int()` on a float: truncation toward zero. */
  function TruncToZero(x: real): (r: int)
    ensures 0.0 <= x ==> r as real <= x < r as real + 1.0
    ensures x < 0.0 ==> r as real - 1.0 < x <= r as real
  {
    if x >= 0.0 then x.Floor else -((-x).Floor)
  }

  function Max(a: int, b: int): int {
    if a >= b then a else b
  }

  function Min(a: int, b: int): int {
    if a <= b then a else b
  }

  /** The integer a raw score becomes under criterion `c`: a raw score in [0, 1] is read
      as a fraction of the range and scaled into it; any other raw score is truncated
      and clamped into the range. */
  function NormalizeScore(raw: real, c: GradingCriteria): int {
    if 0.0 <= raw <= 1.0 then
      TruncToZero(c.minScore as real + raw * (c.maxScore - c.minScore) as real)
    else
      Max(c.minScore, Min(c.maxScore, TruncToZero(raw)))
  }

  /** Truncating a real that lies between two integers stays between them. */
  lemma TruncBetween(x: real, lo: int, hi: int)
    requires lo as real <= x <= hi as real
    ensures lo <= TruncToZero(x) <= hi
  {
  }

  /** A fraction in [0, 1] lands in the range at the point it names, rounded toward zero. */
  lemma {:induction false} NormalizeFraction(raw: real, c: GradingCriteria)
    requires 0.0 <= raw <= 1.0
    ensures var x := c.minScore as real + raw * (c.maxScore - c.minScore) as real;
      var s := NormalizeScore(raw, c) as real;
      && (x >= 0.0 ==> s <= x < s + 1.0)
      && (x < 0.0 ==> s - 1.0 < x <= s)
  {
  }

  /** Any other raw score is truncated toward zero and clamped into the range; with the
      bounds in order the result is the nearest bound whenever the truncation lies
      outside. */
  lemma NormalizeOutside(raw: real, c: GradingCriteria)
    requires !(0.0 <= raw <= 1.0)
    requires c.minScore <= c.maxScore
    ensures var t := TruncToZero(raw);
      var s := NormalizeScore(raw, c);
      && (c.minScore <= t <= c.maxScore ==> s == t)
      && (t < c.minScore ==> s == c.minScore)
      && (t > c.maxScore ==> s == c.maxScore)
  {
  }

  /** With the bounds in order, every normalised score lies within them. */
  lemma {:induction false} NormalizeScoreInRange(raw: real, c: GradingCriteria)
    requires c.minScore <= c.maxScore
    ensures c.minScore <= NormalizeScore(raw, c) <= c.maxScore
  {
    if 0.0 <= raw <= 1.0 {
      var span := (c.maxScore - c.minScore) as real;
      assert 0.0 <= raw * span <= span by {
        assert raw * span <= 1.0 * span;
      }
      TruncBetween(c.minScore as real + raw * span, c.minScore, c.maxScore);
    }
  }

  /** The ends of the unit interval map exactly onto the bounds, whatever the bounds. */
  lemma NormalizeScoreEndpoints(c: GradingCriteria)
    ensures NormalizeScore(0.0, c) == c.minScore
    ensures NormalizeScore(1.0, c) == c.maxScore
  {
  }

  /** An integer score above 1 that already lies in the range is left as it is. */
  lemma NormalizeKeepsInRangeIntegers(k: int, c: GradingCriteria)
    requires k > 1 && c.minScore <= k <= c.maxScore
    ensures NormalizeScore(k as real, c) == k
  {
  }

  /** With reversed bounds a raw score outside [0, 1] always gives the lower bound. */
  lemma NormalizeReversedRange(raw: real, c: GradingCriteria)
    requires !(0.0 <= raw <= 1.0) && c.minScore > c.maxScore
    ensures NormalizeScore(raw, c) == c.minScore
  {
  }

  /** Normalisation is not monotone: on the default range 0..100, raw 1.0 gives 100 but
      the larger raw 1.5 gives 1. */
  lemma NormalizeNotMonotone()
    ensures var c := NewGradingCriteria("Grammar", 1.0, "", None, None);
      NormalizeScore(1.0, c) == 100 && NormalizeScore(1.5, c) == 1
  {
  }

  /** Normalisation is not idempotent: on the range 0..2, raw 0.5 gives 1, and 1 read
      again as a raw score is the whole range, 2. */
  lemma NormalizeNotIdempotent()
    ensures var c := GradingCriteria("Grammar", 1.0, "", 0, 2);
      NormalizeScore(0.5, c) == 1 && NormalizeScore(1.0, c) == 2
  {
  }

  /** The criterion a name selects: `{c.category: c for c in criteria}` keeps the last
      criterion declared under each name. */
  function Lookup(criteria: seq<GradingCriteria>, name: string): (r: Option<GradingCriteria>)
    ensures r.None? <==> forall i :: 0 <= i < |criteria| ==> criteria[i].category != name
    ensures r.Some? ==> exists i :: (0 <= i < |criteria| && criteria[i] == r.value
      && criteria[i].category == name
      && forall j :: i < j < |criteria| ==> criteria[j].category != name)
    decreases |criteria|
  {
    if |criteria| == 0 then None
    else if criteria[|criteria| - 1].category == name then Some(criteria[|criteria| - 1])
    else
      var r := Lookup(criteria[..|criteria| - 1], name);
      LookupExtends(criteria, name, r);
      r
  }

  /** `Lookup`'s contract carries over from all but the last criterion to all of them
      when the last criterion has another name. */
  lemma LookupExtends(criteria: seq<GradingCriteria>, name: string, r: Option<GradingCriteria>)
    requires |criteria| > 0 && criteria[|criteria| - 1].category != name
    requires var init := criteria[..|criteria| - 1];
      && (r.None? <==> forall i :: 0 <= i < |init| ==> init[i].category != name)
      && (r.Some? ==> exists i :: (0 <= i < |init| && init[i] == r.value
            && init[i].category == name
            && forall j :: i < j < |init| ==> init[j].category != name))
    ensures r.None? <==> forall i :: 0 <= i < |criteria| ==> criteria[i].category != name
    ensures r.Some? ==> exists i :: (0 <= i < |criteria| && criteria[i] == r.value
      && criteria[i].category == name
      && forall j :: i < j < |criteria| ==> criteria[j].category != name)
  {
    var init := criteria[..|criteria| - 1];
    assert forall i :: 0 <= i < |init| ==> init[i] == criteria[i];
    if r.Some? {
      var i :| 0 <= i < |init| && init[i] == r.value && init[i].category == name
        && forall j :: i < j < |init| ==> init[j].category != name;
      assert criteria[i] == r.value && criteria[i].category == name;
      assert forall j :: i < j < |criteria| ==> criteria[j].category != name;
    }
  }

  /** The sum of every declared weight, duplicates and ungraded criteria included. */
  function TotalWeight(criteria: seq<GradingCriteria>): real
    decreases |criteria|
  {
    if |criteria| == 0 then 0.0
    else TotalWeight(criteria[..|criteria| - 1]) + criteria[|criteria| - 1].weight
  }

  /** Weight times score over the entries that name a declared criterion, each entry
      counted as often as it occurs. */
  function WeightedSum(criteria: seq<GradingCriteria>, entries: seq<GradeEntry>): real
    decreases |entries|
  {
    if |entries| == 0 then 0.0
    else
      var e := entries[|entries| - 1];
      var rest := WeightedSum(criteria, entries[..|entries| - 1]);
      match Lookup(criteria, e.criterion)
      case None => rest
      case Some(c) => rest + c.weight * e.score
  }

  /** One entry after normalisation. */
  function NormalizeEntry(criteria: seq<GradingCriteria>, e: GradeEntry): GradeEntry {
    match Lookup(criteria, e.criterion)
    case None => e
    case Some(c) => e.(score := NormalizeScore(e.score, c) as real)
  }

  /** The overall score: the weighted sum over the total declared weight, or 0 when that
      total is not positive. */
  function Overall(criteria: seq<GradingCriteria>, entries: seq<GradeEntry>): real {
    var total := TotalWeight(criteria);
    if total > 0.0 then WeightedSum(criteria, entries) / total else 0.0
  }

  /** The score-range enforcement of `grade_text` applied to a parsed grading reply. With
      no criteria (absent or empty) the reply passes through untouched. Otherwise each
      entry naming a declared criterion (exact, case-sensitive match) has its score
      normalised, the rest are left alone, entry order is kept, and `overall_score` is
      replaced by the weighted average; a reply without `grading_results` raises a key
      error, since the average reads that key directly. */
  function ApplyCriteria(criteria: Option<seq<GradingCriteria>>, reply: GradingPayload)
    : (r: Result<GradingPayload, string>)
    ensures criteria.None? || |criteria.value| == 0 ==> r == Success(reply)
    ensures criteria.Some? && |criteria.value| > 0 && reply.gradingResults.None? ==>
      r == Failure(Http.KeyErrorText("grading_results"))
    ensures criteria.Some? && |criteria.value| > 0 && reply.gradingResults.Some? ==>
      var cs := criteria.value;
      var es := reply.gradingResults.value;
      && r.Success?
      && r.value.gradingResults.Some?
      && var es' := r.value.gradingResults.value;
      && |es'| == |es|
      && (forall i :: 0 <= i < |es| ==>
            es'[i].criterion == es[i].criterion && es'[i].others == es[i].others)
      && (forall i :: 0 <= i < |es| && Lookup(cs, es[i].criterion).None? ==> es'[i] == es[i])
      && (forall i :: 0 <= i < |es| && Lookup(cs, es[i].criterion).Some? ==>
            es'[i].score == NormalizeScore(es[i].score, Lookup(cs, es[i].criterion).value) as real)
      && r.value.overallScore == Some(Overall(cs, es'))
      && r.value.(gradingResults := reply.gradingResults, overallScore := reply.overallScore) == reply
  {
    if criteria.None? || |criteria.value| == 0 then Success(reply)
    else
      match reply.gradingResults
      case None => Failure(Http.KeyErrorText("grading_results"))
      case Some(es) =>
        var cs := criteria.value;
        var normalized := seq(|es|, i requires 0 <= i < |es| => NormalizeEntry(cs, es[i]));
        Success(reply.(gradingResults := Some(normalized), overallScore := Some(Overall(cs, normalized))))
  }

  /** The overall score times the total weight is the weighted sum, when the total is
      positive. */
  lemma OverallIsWeightedAverage(criteria: seq<GradingCriteria>, entries: seq<GradeEntry>)
    requires TotalWeight(criteria) > 0.0
    ensures Overall(criteria, entries) * TotalWeight(criteria) == WeightedSum(criteria, entries)
  {
  }

  /** Adding an entry that names no declared criterion leaves the weighted sum alone. */
  lemma UnmatchedEntryIgnored(criteria: seq<GradingCriteria>, entries: seq<GradeEntry>, e: GradeEntry)
    requires Lookup(criteria, e.criterion).None?
    ensures WeightedSum(criteria, entries + [e]) == WeightedSum(criteria, entries)
  {
    assert (entries + [e])[..|entries|] == entries;
  }

  /** A declared criterion no entry names still counts in the denominator: it leaves the
      weighted sum unchanged but adds its weight to the total, so it pulls the overall
      score toward 0 as a score of 0 would. */
  lemma {:induction false} UngradedCriterionDilutes(criteria: seq<GradingCriteria>, c: GradingCriteria,
                                                    entries: seq<GradeEntry>)
    requires forall i :: 0 <= i < |entries| ==> entries[i].criterion != c.category
    ensures WeightedSum(criteria + [c], entries) == WeightedSum(criteria, entries)
    ensures TotalWeight(criteria + [c]) == TotalWeight(criteria) + c.weight
    decreases |entries|
  {
    TotalWeightAppend(criteria, c);
    if |entries| > 0 {
      var init := entries[..|entries| - 1];
      UngradedCriterionDilutes(criteria, c, init);
      LookupSkipsLast(criteria, c, entries[|entries| - 1].criterion);
      WeightedSumSameLookup(criteria + [c], criteria, entries);
    }
  }

  /** Two criteria lists that agree on the last entry's criterion and on the weighted sum
      of the other entries agree on the weighted sum of all of them. */
  lemma {:induction false} WeightedSumSameLookup(cs: seq<GradingCriteria>, ds: seq<GradingCriteria>, entries: seq<GradeEntry>)
    requires |entries| > 0
    requires Lookup(cs, entries[|entries| - 1].criterion) == Lookup(ds, entries[|entries| - 1].criterion)
    requires WeightedSum(cs, entries[..|entries| - 1]) == WeightedSum(ds, entries[..|entries| - 1])
    ensures WeightedSum(cs, entries) == WeightedSum(ds, entries)
  {
    WeightedSumLast(cs, entries);
    WeightedSumLast(ds, entries);
  }

  /** The last entry adds its score times the weight of the criterion it names, or
      nothing when no criterion has that name. */
  lemma {:induction false} WeightedSumLast(criteria: seq<GradingCriteria>, entries: seq<GradeEntry>)
    requires |entries| > 0
    ensures WeightedSum(criteria, entries) == WeightedSum(criteria, entries[..|entries| - 1])
      + Weighted(Lookup(criteria, entries[|entries| - 1].criterion), entries[|entries| - 1].score)
  {
  }

  function Weighted(c: Option<GradingCriteria>, score: real): real {
    if c.Some? then c.value.weight * score else 0.0
  }

  lemma TotalWeightAppend(criteria: seq<GradingCriteria>, c: GradingCriteria)
    ensures TotalWeight(criteria + [c]) == TotalWeight(criteria) + c.weight
  {
    assert (criteria + [c])[..|criteria|] == criteria;
  }

  /** A criterion declared last under another name does not change what a name selects. */
  lemma LookupSkipsLast(criteria: seq<GradingCriteria>, c: GradingCriteria, name: string)
    requires c.category != name
    ensures Lookup(criteria + [c], name) == Lookup(criteria, name)
  {
    assert (criteria + [c])[..|criteria|] == criteria;
  }

  /** Worked example: weights 2 and 3, scores 5 and 9 (on 0..10, so kept as they are),
      overall (2*5 + 3*9) / 5 = 7.4. */
  lemma WeightedAverageExample()
    ensures var cs := [GradingCriteria("A", 2.0, "", 0, 10), GradingCriteria("B", 3.0, "", 0, 10)];
      var reply := FailedGrading("").(gradingResults := Some([GradeEntry("A", 5.0, []), GradeEntry("B", 9.0, [])]));
      var r := ApplyCriteria(Some(cs), reply);
      r.Success? && r.value.overallScore == Some(7.4)
      && r.value.gradingResults == Some([GradeEntry("A", 5.0, []), GradeEntry("B", 9.0, [])])
  {
    var cs := [GradingCriteria("A", 2.0, "", 0, 10), GradingCriteria("B", 3.0, "", 0, 10)];
    var es := [GradeEntry("A", 5.0, []), GradeEntry("B", 9.0, [])];
    var r := ApplyCriteria(Some(cs), FailedGrading("").(gradingResults := Some(es)));
    assert Lookup(cs, "A") == Some(cs[0]) by { assert cs[..1] == [cs[0]]; }
    assert Lookup(cs, "B") == Some(cs[1]);
    assert NormalizeScore(5.0, cs[0]) == 5 && NormalizeScore(9.0, cs[1]) == 9;
    var es' := r.value.gradingResults.value;
    assert es' == es;
    assert TotalWeight(cs) == 5.0 by { assert cs[..1] == [cs[0]]; }
    assert WeightedSum(cs, es) == 37.0 by { assert es[..1] == [es[0]]; }
  }

  /** Worked example: one criterion "Grammar" of weight 1 on 0..10 and a raw score of 0.5
      give the score 5 and the overall score 5.0. */
  lemma FractionExample()
    ensures var cs := [GradingCriteria("Grammar", 1.0, "", 0, 10)];
      var reply := FailedGrading("").(gradingResults := Some([GradeEntry("Grammar", 0.5, [])]));
      var r := ApplyCriteria(Some(cs), reply);
      r.Success? && r.value.overallScore == Some(5.0)
      && r.value.gradingResults == Some([GradeEntry("Grammar", 5.0, [])])
  {
    var cs := [GradingCriteria("Grammar", 1.0, "", 0, 10)];
    var es := [GradeEntry("Grammar", 0.5, [])];
    var r := ApplyCriteria(Some(cs), FailedGrading("").(gradingResults := Some(es)));
    assert Lookup(cs, "Grammar") == Some(cs[0]);
    assert NormalizeScore(0.5, cs[0]) == 5;
    var es' := r.value.gradingResults.value;
    assert es' == [GradeEntry("Grammar", 5.0, [])];
    assert TotalWeight(cs) == 1.0 by { assert cs[..0] == []; }
    assert WeightedSum(cs, es') == 5.0 by { assert es'[..0] == []; }
  }

  /** Worked example: a criterion left ungraded counts as if it had scored 0. Two
      criteria of weight 1 on 0..10, only "A" graded with full marks: overall 5.0. */
  lemma UngradedExample()
    ensures var cs := [GradingCriteria("A", 1.0, "", 0, 10), GradingCriteria("B", 1.0, "", 0, 10)];
      var reply := FailedGrading("").(gradingResults := Some([GradeEntry("A", 10.0, [])]));
      var r := ApplyCriteria(Some(cs), reply);
      r.Success? && r.value.overallScore == Some(5.0)
  {
    var cs := [GradingCriteria("A", 1.0, "", 0, 10), GradingCriteria("B", 1.0, "", 0, 10)];
    var es := [GradeEntry("A", 10.0, [])];
    var r := ApplyCriteria(Some(cs), FailedGrading("").(gradingResults := Some(es)));
    assert Lookup(cs, "A") == Some(cs[0]) by { assert cs[..1] == [cs[0]]; }
    assert NormalizeScore(10.0, cs[0]) == 10;
    var es' := r.value.gradingResults.value;
    assert es' == es;
    assert TotalWeight(cs) == 2.0 by { assert cs[..1] == [cs[0]]; }
    assert WeightedSum(cs, es) == 10.0 by { assert es[..0] == []; }
  }

  /** Worked example: an entry repeated in the reply is counted each time, so the overall
      score can leave every criterion's range: one criterion of weight 1 on 0..10 graded
      twice at 10 gives 20.0. */
  lemma DuplicateEntriesExample()
    ensures var cs := [GradingCriteria("A", 1.0, "", 0, 10)];
      var reply := FailedGrading("").(gradingResults := Some([GradeEntry("A", 10.0, []), GradeEntry("A", 10.0, [])]));
      var r := ApplyCriteria(Some(cs), reply);
      r.Success? && r.value.overallScore == Some(20.0)
  {
    var cs := [GradingCriteria("A", 1.0, "", 0, 10)];
    var es := [GradeEntry("A", 10.0, []), GradeEntry("A", 10.0, [])];
    var r := ApplyCriteria(Some(cs), FailedGrading("").(gradingResults := Some(es)));
    assert Lookup(cs, "A") == Some(cs[0]);
    assert NormalizeScore(10.0, cs[0]) == 10;
    var es' := r.value.gradingResults.value;
    assert es' == es;
    assert TotalWeight(cs) == 1.0 by { assert cs[..0] == []; }
    assert WeightedSum(cs, es) == 20.0 by { assert es[..1] == [es[0]]; }
  }

  /** Worked example: with a category declared twice the later criterion decides the
      range, but both weights count in the total. "A" on 0..10 (weight 1) then "A" on
      0..100 (weight 1); raw 0.5 becomes 50 and the overall score 50 / 2 = 25.0. */
  lemma DuplicateCriteriaExample()
    ensures var cs := [GradingCriteria("A", 1.0, "", 0, 10), GradingCriteria("A", 1.0, "", 0, 100)];
      var reply := FailedGrading("").(gradingResults := Some([GradeEntry("A", 0.5, [])]));
      var r := ApplyCriteria(Some(cs), reply);
      r.Success? && r.value.overallScore == Some(25.0)
      && r.value.gradingResults == Some([GradeEntry("A", 50.0, [])])
  {
    var cs := [GradingCriteria("A", 1.0, "", 0, 10), GradingCriteria("A", 1.0, "", 0, 100)];
    var es := [GradeEntry("A", 0.5, [])];
    var r := ApplyCriteria(Some(cs), FailedGrading("").(gradingResults := Some(es)));
    assert Lookup(cs, "A") == Some(cs[1]);
    assert NormalizeScore(0.5, cs[1]) == 50;
    var es' := r.value.gradingResults.value;
    assert es' == [GradeEntry("A", 50.0, [])];
    assert TotalWeight(cs) == 2.0 by { assert cs[..1] == [cs[0]]; }
    assert WeightedSum(cs, es') == 50.0 by { assert es'[..0] == []; }
  }

  const DefaultCriteriaText := "Use default academic criteria"

  /** One rubric line of the prompt. `showWeight` is Python's rendering of a float. */
  function CriterionLine(c: GradingCriteria, showWeight: real -> string): string {
    "- " + c.category + " (Weight: " + showWeight(c.weight) + "): " + c.description +
    "\n  Score range: " + Text.IntToString(c.minScore) + " to " + Text.IntToString(c.maxScore)
  }

  /** The rubric as the grading prompt shows it: one line pair per criterion, in order,
      or "Use default academic criteria" when there are none. */
  function CriteriaText(criteria: Option<seq<GradingCriteria>>, showWeight: real -> string): (t: string)
    ensures criteria.None? || |criteria.value| == 0 ==> t == DefaultCriteriaText
    ensures criteria.Some? && |criteria.value| > 0 ==>
      t == Text.Join(seq(|criteria.value|, i requires 0 <= i < |criteria.value| =>
                       CriterionLine(criteria.value[i], showWeight)), "\n")
  {
    if criteria.None? || |criteria.value| == 0 then DefaultCriteriaText
    else
      var cs := criteria.value;
      Text.Join(seq(|cs|, i requires 0 <= i < |cs| => CriterionLine(cs[i], showWeight)), "\n")
  }

  /** The rubric text opens with the first criterion's line, and a criterion added at the
      end adds its line after a newline. */
  lemma {:induction false} CriteriaTextAppend(cs: seq<GradingCriteria>, c: GradingCriteria,
                                             showWeight: real -> string)
    requires |cs| > 0
    ensures CriteriaText(Some(cs + [c]), showWeight)
         == CriteriaText(Some(cs), showWeight) + "\n" + CriterionLine(c, showWeight)
  {
    var all := cs + [c];
    var lines := seq(|cs|, i requires 0 <= i < |cs| => CriterionLine(cs[i], showWeight));
    var lines' := seq(|all|, i requires 0 <= i < |all| => CriterionLine(all[i], showWeight));
    assert lines'[..|lines'| - 1] == lines by {
      forall i | 0 <= i < |lines| ensures lines'[i] == lines[i] { assert all[i] == cs[i]; }
    }
    assert lines'[|lines'| - 1] == CriterionLine(c, showWeight);
    assert Text.Join(lines', "\n") == Text.Join(lines, "\n") + "\n" + CriterionLine(c, showWeight);
  }
}
