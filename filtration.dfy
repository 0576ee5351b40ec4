/** The filtration step of the kidney-inspired optimizer: the population is
    split by a threshold fr, the alpha-scaled mean fitness, into the filtrate
    fb (fitness below fr) and the waste w (fitness at or above fr). */
module FiltrationSplitter {
  import opened Objective

  /** The default scale factor of the threshold. */
  const DefaultAlpha: real := 0.8

  /** The scale factor the optimizer's main loop passes. */
  const RunAlpha: real := 1.0

  /** The result of a filtration: the threshold, the filtrate, the waste. */
  datatype Split = Split(fr: real, filtrate: seq<Point>, waste: seq<Point>)

  /** s is obtained from t by deleting some elements, keeping the order. */
  ghost predicate IsSubsequence<T>(s: seq<T>, t: seq<T>)
    decreases |t|
  {
    if s == [] then true
    else if t == [] then false
    else (s[0] == t[0] && IsSubsequence(s[1..], t[1..])) || IsSubsequence(s, t[1..])
  }

  lemma {:induction false} SubsequenceLength<T>(s: seq<T>, t: seq<T>)
    requires IsSubsequence(s, t)
    ensures |s| <= |t|
    decreases |t|
  {
    if s != [] {
      if s[0] == t[0] && IsSubsequence(s[1..], t[1..]) {
        SubsequenceLength(s[1..], t[1..]);
      } else {
        SubsequenceLength(s, t[1..]);
      }
    }
  }

  /** A subsequence as long as the whole is the whole. */
  lemma {:induction false} SubsequenceFull<T>(s: seq<T>, t: seq<T>)
    requires IsSubsequence(s, t) && |s| == |t|
    ensures s == t
    decreases |t|
  {
    if s != [] {
      if s[0] == t[0] && IsSubsequence(s[1..], t[1..]) {
        SubsequenceFull(s[1..], t[1..]);
        assert s == [s[0]] + s[1..];
        assert t == [t[0]] + t[1..];
      } else {
        SubsequenceLength(s, t[1..]);
      }
    }
  }

  /** Putting one more element in front keeps a subsequence a subsequence. */
  lemma SubsequenceCons<T>(s: seq<T>, x: T, t: seq<T>)
    requires IsSubsequence(s, t)
    ensures IsSubsequence(s, [x] + t)
  {
    assert ([x] + t)[1..] == t;
  }

  /** The sum of the fitnesses of a population. */
  function SumFitness(pop: seq<Point>): (r: real)
    ensures r >= 0.0
  {
    if pop == [] then 0.0 else DeJong(pop[0]) + SumFitness(pop[1..])
  }

  /** t added to itself n times. */
  function Times(n: nat, t: real): (r: real)
  {
    if n == 0 then 0.0 else t + Times(n - 1, t)
  }

  lemma {:induction false} TimesIsProduct(n: nat, t: real)
    ensures Times(n, t) == (n as real) * t
  {
    if n > 0 {
      TimesIsProduct(n - 1, t);
      assert ((n - 1) as real) * t + t == (n as real) * t;
    }
  }

  lemma DivisionUndone(s: real, n: real)
    requires n > 0.0
    ensures (s / n) * n == s
  {
  }

  /** Adding the mean of n values n times gives back their sum. */
  lemma MeanTimes(s: real, n: nat)
    requires n > 0
    ensures Times(n, s / (n as real)) == s
  {
    TimesIsProduct(n, s / (n as real));
    DivisionUndone(s, n as real);
  }

  /** A population whose fitnesses are all below t sums to less than |pop| copies of t. */
  lemma {:induction false} SumBelow(pop: seq<Point>, t: real)
    requires |pop| > 0
    requires forall i :: 0 <= i < |pop| ==> DeJong(pop[i]) < t
    ensures SumFitness(pop) < Times(|pop|, t)
  {
    if |pop| > 1 {
      SumBelow(pop[1..], t);
    } else {
      assert pop[1..] == [];
    }
  }

  /** A population whose fitnesses are at least t sums to at least |pop| copies
      of t, and to more when one fitness exceeds t. */
  lemma {:induction false} SumAtLeast(pop: seq<Point>, t: real, j: int)
    requires forall i :: 0 <= i < |pop| ==> DeJong(pop[i]) >= t
    ensures SumFitness(pop) >= Times(|pop|, t)
    ensures 0 <= j < |pop| && DeJong(pop[j]) > t ==> SumFitness(pop) > Times(|pop|, t)
  {
    if pop != [] {
      SumAtLeast(pop[1..], t, j - 1);
    }
  }

  /** A population whose fitnesses all equal v sums to |pop| copies of v. */
  lemma {:induction false} SumUniform(pop: seq<Point>, v: real)
    requires forall i :: 0 <= i < |pop| ==> DeJong(pop[i]) == v
    ensures SumFitness(pop) == Times(|pop|, v)
  {
    if pop != [] {
      SumUniform(pop[1..], v);
    }
  }

  /** The threshold: alpha times the mean fitness of the population. */
  function Threshold(pop: seq<Point>, alpha: real): (fr: real)
    requires |pop| > 0
    ensures fr * (|pop| as real) == alpha * SumFitness(pop)
  {
    DivisionUndone(alpha * SumFitness(pop), |pop| as real);
    alpha * SumFitness(pop) / (|pop| as real)
  }

  /** The members of pop, in order, whose fitness is below fr (below = true)
      or at or above fr (below = false). */
  function Select(pop: seq<Point>, fr: real, below: bool): (r: seq<Point>)
    ensures forall p :: p in r ==> p in pop && (DeJong(p) < fr) == below
    ensures forall i :: 0 <= i < |pop| && (DeJong(pop[i]) < fr) == below ==> pop[i] in r
  {
    if pop == [] then []
    else if (DeJong(pop[0]) < fr) == below then [pop[0]] + Select(pop[1..], fr, below)
    else Select(pop[1..], fr, below)
  }

  lemma {:induction false} SelectIsSubsequence(pop: seq<Point>, fr: real, below: bool)
    ensures IsSubsequence(Select(pop, fr, below), pop)
  {
    if pop != [] {
      SelectIsSubsequence(pop[1..], fr, below);
      if (DeJong(pop[0]) < fr) == below {
        assert Select(pop, fr, below)[1..] == Select(pop[1..], fr, below);
      } else {
        assert pop == [pop[0]] + pop[1..];
        SubsequenceCons(Select(pop[1..], fr, below), pop[0], pop[1..]);
      }
    }
  }

  /** The two selections together hold every member of pop exactly as often as pop does. */
  lemma {:induction false} SelectPartitions(pop: seq<Point>, fr: real)
    ensures multiset(Select(pop, fr, true)) + multiset(Select(pop, fr, false)) == multiset(pop)
    ensures |Select(pop, fr, true)| + |Select(pop, fr, false)| == |pop|
  {
    if pop != [] {
      SelectPartitions(pop[1..], fr);
      assert pop == [pop[0]] + pop[1..];
    }
  }

  /** Any order-preserving subsequence of pop whose members all fall on one
      side of fr is a subsequence of that side's selection. */
  lemma {:induction false} SubsequenceOfSelect(s: seq<Point>, pop: seq<Point>, fr: real, below: bool)
    requires IsSubsequence(s, pop)
    requires forall p :: p in s ==> (DeJong(p) < fr) == below
    ensures IsSubsequence(s, Select(pop, fr, below))
    decreases |pop|
  {
    if s != [] {
      assert s[0] in s;
      if s[0] == pop[0] && IsSubsequence(s[1..], pop[1..]) {
        assert forall p :: p in s[1..] ==> p in s;
        SubsequenceOfSelect(s[1..], pop[1..], fr, below);
        assert Select(pop, fr, below) == [pop[0]] + Select(pop[1..], fr, below);
      } else {
        SubsequenceOfSelect(s, pop[1..], fr, below);
        if (DeJong(pop[0]) < fr) == below {
          SubsequenceCons(s, pop[0], Select(pop[1..], fr, below));
        }
      }
    }
  }

  /** The filtration of pop with scale factor alpha. */
  function Filtration(pop: seq<Point>, alpha: real): (s: Split)
    requires |pop| > 0
    ensures s.fr == Threshold(pop, alpha)
    ensures forall p :: p in s.filtrate ==> DeJong(p) < s.fr
    ensures forall p :: p in s.waste ==> DeJong(p) >= s.fr
    ensures forall p :: p in pop ==> (p in s.filtrate <==> DeJong(p) < s.fr)
    ensures forall p :: p in pop ==> (p in s.waste <==> DeJong(p) >= s.fr)
    ensures forall p :: p in s.filtrate || p in s.waste ==> p in pop
  {
    var fr := Threshold(pop, alpha);
    Split(fr, Select(pop, fr, true), Select(pop, fr, false))
  }

  /** The filtrate and the waste keep the population's order and together
      account for every member, duplicates included. */
  lemma FiltrationPartitions(pop: seq<Point>, alpha: real)
    requires |pop| > 0
    ensures IsSubsequence(Filtration(pop, alpha).filtrate, pop)
    ensures IsSubsequence(Filtration(pop, alpha).waste, pop)
    ensures multiset(Filtration(pop, alpha).filtrate) + multiset(Filtration(pop, alpha).waste) == multiset(pop)
    ensures |Filtration(pop, alpha).filtrate| + |Filtration(pop, alpha).waste| == |pop|
  {
    var fr := Threshold(pop, alpha);
    SelectIsSubsequence(pop, fr, true);
    SelectIsSubsequence(pop, fr, false);
    SelectPartitions(pop, fr);
  }

  /** The filtration is the only order-preserving split of pop at its threshold:
      any two subsequences on the two sides that account for all of pop are
      the filtrate and the waste. */
  lemma FiltrationUnique(pop: seq<Point>, alpha: real, fb: seq<Point>, w: seq<Point>)
    requires |pop| > 0
    requires IsSubsequence(fb, pop) && IsSubsequence(w, pop)
    requires forall p :: p in fb ==> DeJong(p) < Threshold(pop, alpha)
    requires forall p :: p in w ==> DeJong(p) >= Threshold(pop, alpha)
    requires |fb| + |w| == |pop|
    ensures Filtration(pop, alpha) == Split(Threshold(pop, alpha), fb, w)
  {
    var fr := Threshold(pop, alpha);
    var s := Filtration(pop, alpha);
    SubsequenceOfSelect(fb, pop, fr, true);
    SubsequenceOfSelect(w, pop, fr, false);
    SubsequenceLength(fb, s.filtrate);
    SubsequenceLength(w, s.waste);
    SelectPartitions(pop, fr);
    SubsequenceFull(fb, s.filtrate);
    SubsequenceFull(w, s.waste);
  }

  lemma ScaledMeanMonotone(a1: real, a2: real, sum: real, n: real, t1: real, t2: real)
    requires n > 0.0 && sum >= 0.0 && a1 <= a2
    requires t1 * n == a1 * sum && t2 * n == a2 * sum
    ensures t1 <= t2
  {
  }

  /** A larger alpha raises the threshold, so the filtrate only gains
      members: the filtrate for a1 is a subsequence of the filtrate for a2. */
  lemma FiltrateGrowsWithAlpha(pop: seq<Point>, a1: real, a2: real)
    requires |pop| > 0 && a1 <= a2
    ensures Threshold(pop, a1) <= Threshold(pop, a2)
    ensures IsSubsequence(Filtration(pop, a1).filtrate, Filtration(pop, a2).filtrate)
  {
    var t1 := Threshold(pop, a1);
    var t2 := Threshold(pop, a2);
    ScaledMeanMonotone(a1, a2, SumFitness(pop), |pop| as real, t1, t2);
    SelectIsSubsequence(pop, t1, true);
    SubsequenceOfSelect(Select(pop, t1, true), pop, t2, true);
  }

  /** With the optimizer's alpha of 1 the threshold is the mean fitness, and
      some member always reaches it: the waste is never empty. */
  lemma WasteNonEmptyAtMean(pop: seq<Point>)
    requires |pop| > 0
    ensures Filtration(pop, RunAlpha).waste != []
  {
    var s := Filtration(pop, RunAlpha);
    if s.waste == [] {
      assert forall i :: 0 <= i < |pop| ==> DeJong(pop[i]) < s.fr by {
        forall i | 0 <= i < |pop| ensures DeJong(pop[i]) < s.fr {
          assert pop[i] in pop;
        }
      }
      SumBelow(pop, s.fr);
      MeanTimes(SumFitness(pop), |pop|);
    }
  }

  /** With alpha 1 an empty filtrate means every member sits exactly at the
      mean, so the whole population is waste. */
  lemma FiltrateEmptyMeansUniform(pop: seq<Point>)
    requires |pop| > 0
    requires Filtration(pop, RunAlpha).filtrate == []
    ensures forall i :: 0 <= i < |pop| ==> DeJong(pop[i]) == Threshold(pop, RunAlpha)
    ensures Filtration(pop, RunAlpha).waste == pop
  {
    var s := Filtration(pop, RunAlpha);
    var n := |pop|;
    assert s.fr == SumFitness(pop) / (n as real);
    MeanTimes(SumFitness(pop), n);
    assert forall i :: 0 <= i < n ==> DeJong(pop[i]) >= s.fr by {
      forall i | 0 <= i < n ensures DeJong(pop[i]) >= s.fr {
        assert pop[i] in pop;
      }
    }
    forall j | 0 <= j < n ensures DeJong(pop[j]) == s.fr {
      SumAtLeast(pop, s.fr, j);
    }
    FiltrationPartitions(pop, RunAlpha);
    SubsequenceFull(s.waste, pop);
  }

  /** With alpha 1 a population of equal fitnesses has an empty filtrate:
      every member goes to the waste. */
  lemma UniformMeansFiltrateEmpty(pop: seq<Point>)
    requires |pop| > 0
    requires forall i :: 0 <= i < |pop| ==> DeJong(pop[i]) == DeJong(pop[0])
    ensures Filtration(pop, RunAlpha).filtrate == []
    ensures Filtration(pop, RunAlpha).waste == pop
  {
    var s := Filtration(pop, RunAlpha);
    var n := |pop|;
    if s.filtrate == [] {
      FiltrateEmptyMeansUniform(pop);
    } else {
      assert s.filtrate[0] in pop;
      assert DeJong(pop[0]) < s.fr;
      SumBelow(pop, s.fr);
      assert s.fr == SumFitness(pop) / (n as real);
      MeanTimes(SumFitness(pop), n);
      assert false;
    }
  }

  /** With alpha 1 the filtrate is empty exactly when every member has the
      same fitness. */
  lemma FiltrateEmptyIffUniform(pop: seq<Point>)
    requires |pop| > 0
    ensures Filtration(pop, RunAlpha).filtrate == [] <==>
            forall i :: 0 <= i < |pop| ==> DeJong(pop[i]) == DeJong(pop[0])
  {
    if Filtration(pop, RunAlpha).filtrate == [] {
      FiltrateEmptyMeansUniform(pop);
    } else if forall i :: 0 <= i < |pop| ==> DeJong(pop[i]) == DeJong(pop[0]) {
      UniformMeansFiltrateEmpty(pop);
    }
  }

  /** The points of the worked example and their fitnesses 1, 4, 9 and 16. */
  function ExamplePop(): (pop: seq<Point>)
    ensures |pop| == 4
    ensures DeJong(pop[0]) == 1.0 && DeJong(pop[1]) == 4.0
    ensures DeJong(pop[2]) == 9.0 && DeJong(pop[3]) == 16.0
  {
    [[1.0, 0.0], [2.0, 0.0], [3.0, 0.0], [4.0, 0.0]]
  }

  lemma ExampleSum()
    ensures SumFitness(ExamplePop()) == 30.0
  {
    var pop := ExamplePop();
    assert pop[1..][1..][1..][1..] == [];
  }

  lemma ExampleSelect()
    ensures Select(ExamplePop(), 7.5, true) == ExamplePop()[..2]
    ensures Select(ExamplePop(), 7.5, false) == ExamplePop()[2..]
  {
    var pop := ExamplePop();
    assert pop[1..][1..][1..][1..] == [];
    assert Select(pop[1..][1..][1..], 7.5, true) == [];
    assert Select(pop[1..][1..][1..], 7.5, false) == pop[3..];
    assert Select(pop[1..][1..], 7.5, true) == [];
    assert Select(pop[1..][1..], 7.5, false) == pop[2..];
    assert Select(pop[1..], 7.5, false) == pop[2..];
    assert Select(pop[1..], 7.5, true) == [pop[1]];
  }

  /** The worked example: fitnesses 1, 4, 9 and 16 at alpha 1 give the
      threshold 7.5, the first two points as filtrate and the last two as waste. */
  lemma FiltrationExample()
    ensures Filtration(ExamplePop(), RunAlpha)
         == Split(7.5, [[1.0, 0.0], [2.0, 0.0]], [[3.0, 0.0], [4.0, 0.0]])
  {
    ExampleSum();
    assert Threshold(ExamplePop(), RunAlpha) == 7.5;
    ExampleSelect();
  }
}
