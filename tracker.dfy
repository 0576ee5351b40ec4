/** Evaluation of a population: the worst and the best fitness, and the
    first point in population order that attains each. */
module Tracker {
  import opened Objective

  /** p is the first point of pop, in population order, whose fitness is v. */
  predicate IsFirstAttaining(pop: seq<Point>, v: real, p: Point)
  {
    exists i :: 0 <= i < |pop| && pop[i] == p && DeJong(p) == v &&
      forall k :: 0 <= k < i ==> DeJong(pop[k]) != v
  }

  /** The evaluation of a non-empty population: maxEval and minEval are the
      largest and the smallest fitness, maxPop and minPop the first points
      that attain them. */
  method Evaluate(pop: seq<Point>) returns (maxEval: real, maxPop: Point, minEval: real, minPop: Point)
    requires |pop| > 0
    ensures forall k :: 0 <= k < |pop| ==> minEval <= DeJong(pop[k]) <= maxEval
    ensures IsFirstAttaining(pop, minEval, minPop)
    ensures IsFirstAttaining(pop, maxEval, maxPop)
  {
    var n := |pop|;
    var fits := new real[n];
    for i := 0 to n
      invariant forall k :: 0 <= k < i ==> fits[k] == DeJong(pop[k])
    {
      fits[i] := DeJong(pop[i]);
    }

    // The smallest and the largest entry of the fitness array: the first and
    // the last element of its sorted copy.
    var lo, hi := fits[0], fits[0];
    ghost var loAt, hiAt := 0, 0;
    for i := 1 to n
      invariant 0 <= loAt < i && 0 <= hiAt < i
      invariant lo == fits[loAt] && hi == fits[hiAt]
      invariant forall k :: 0 <= k < i ==> lo <= fits[k] <= hi
    {
      if fits[i] < lo {
        lo, loAt := fits[i], i;
      }
      if fits[i] > hi {
        hi, hiAt := fits[i], i;
      }
    }
    minEval := lo;
    maxEval := hi;

    // The first point whose fitness is the minimum.
    var iMin := 0;
    while iMin < n
      invariant 0 <= iMin <= loAt
      invariant forall k :: 0 <= k < iMin ==> DeJong(pop[k]) != minEval
      decreases n - iMin
    {
      if DeJong(pop[iMin]) == minEval {
        break;
      }
      iMin := iMin + 1;
    }
    minPop := pop[iMin];

    // The first point whose fitness is the maximum.
    var iMax := 0;
    while iMax < n
      invariant 0 <= iMax <= hiAt
      invariant forall k :: 0 <= k < iMax ==> DeJong(pop[k]) != maxEval
      decreases n - iMax
    {
      if DeJong(pop[iMax]) == maxEval {
        break;
      }
      iMax := iMax + 1;
    }
    maxPop := pop[iMax];
  }

  /** The first point attaining a value is unique, so Evaluate's contract
      fixes its point results completely. */
  lemma FirstAttainingUnique(pop: seq<Point>, v: real, p: Point, q: Point)
    requires IsFirstAttaining(pop, v, p) && IsFirstAttaining(pop, v, q)
    ensures p == q
  {
  }

  /** A lower bound of the fitnesses that some point attains is the minimum,
      and an attained upper bound the maximum: the value results of Evaluate
      are fixed as well. */
  lemma ExtremesUnique(pop: seq<Point>, a: real, pa: Point, b: real, pb: Point, lower: bool)
    requires IsFirstAttaining(pop, a, pa) && IsFirstAttaining(pop, b, pb)
    requires lower ==> forall k :: 0 <= k < |pop| ==> a <= DeJong(pop[k]) && b <= DeJong(pop[k])
    requires !lower ==> forall k :: 0 <= k < |pop| ==> a >= DeJong(pop[k]) && b >= DeJong(pop[k])
    ensures a == b && pa == pb
  {
  }

  /** Ties are broken towards the front: [1] and [-1] both have the smallest
      fitness 1, and [1] comes first. */
  method EvaluateExample()
  {
    var pop: seq<Point> := [[1.0], [-1.0], [2.0]];
    assert DeJong([1.0]) == 1.0 && DeJong([-1.0]) == 1.0 && DeJong([2.0]) == 4.0;
    var maxEval, maxPop, minEval, minPop := Evaluate(pop);
    assert IsFirstAttaining(pop, 1.0, [1.0]) by {
      assert pop[0] == [1.0];
    }
    assert IsFirstAttaining(pop, 4.0, [2.0]) by {
      assert pop[2] == [2.0];
    }
    ExtremesUnique(pop, minEval, minPop, 1.0, [1.0], true);
    ExtremesUnique(pop, maxEval, maxPop, 4.0, [2.0], false);
    assert minEval == 1.0 && minPop == [1.0];
    assert maxEval == 4.0 && maxPop == [2.0];
  }
}
