# Kidney-inspired optimizer: a verified model of its deterministic core

The optimizer in `kde.py` minimises the De Jong sphere function. Its
steps are modelled on sequences of reals:

- it filters a population into a filtrate (points whose fitness is below
  the threshold `fr`) and a waste (the rest);
- it finds the best and the worst point of a subset;
- it generates new points by moving old ones a random fraction of the way
  towards the best point found so far.

The model has four modules, one per component:

- `Objective` (objective.dfy): the fitness function `DeJong`, the sum of the
  squared components of a point.
- `FiltrationSplitter` (filtration.dfy): the threshold and the
  order-preserving split of `filtration`.
- `PointGenerator` (generation.dfy): `create_point`, and `Create_New_Pop`,
  which fills a fresh array row by row.
- `Tracker` (tracker.dfy): `evaluate`. It fills a fitness array and then
  runs the two first-occurrence scans that stop at the first match.

Points are `seq<real>` and populations are `seq<seq<real>>`. Real arithmetic
is exact, so no rounding is modelled.

The random number drawn in `create_point` is a parameter `r` with
`0 <= r < 1`, the range of `np.random.random()`. `Create_New_Pop` draws one
number per row; the model takes them as the sequence `rs`.

Both `filtration` and `evaluate` crash on an empty population:
`filtration` divides by the population size, and `evaluate` reads element 0
of the sorted fitness list. The model therefore requires a non-empty
population for both.

The square of a component is written `a * Id(a)`, where `Id` is the identity;
`Objective.SquareIsProduct` shows that this equals `a * a`. This form, like
naming compound factors as lemma parameters, keeps the solver's nonlinear
real arithmetic predictable.

## Model

| member | source | states |
|---|---|---|
| Objective.Square | kde.py:26 | the square of a component is never negative, and it is zero exactly when the component is zero |
| Objective.SquareIsProduct | kde.py:26 | the square used by the model is the component times itself, as `** 2` computes |
| Objective.DeJong | kde.py:25-27 | the fitness of a point is never negative |
| Objective.DeJongSnoc | kde.py:26 | appending a component adds its square to the fitness, so a left-to-right accumulation by `sum` gives the same total |
| Objective.DeJongBoundsComponent | kde.py:25-27 | every squared component is at most the fitness |
| Objective.DeJongPositive | kde.py:25-27 | a point with a non-zero component has a strictly positive fitness |
| Objective.DeJongOfZeros | kde.py:25-27 | the all-zero point has fitness zero |
| Objective.DeJongZeroIff | kde.py:25-27 | the fitness is zero if and only if every component is zero |
| FiltrationSplitter.SumFitness | kde.py:57-58 | the sum of the fitnesses of a population is never negative |
| FiltrationSplitter.Threshold | kde.py:56-58 | the threshold fr satisfies fr * \|pop\| == alpha * (sum of fitnesses), so fr is alpha times the mean fitness; it requires a non-empty population because the source divides by its size |
| FiltrationSplitter.Select | kde.py:59-60 | every kept point is from the population and lies on the requested side of fr; every population point on that side is kept |
| FiltrationSplitter.SelectIsSubsequence | kde.py:59-60 | each selection is a subsequence of the population in its original order |
| FiltrationSplitter.SelectPartitions | kde.py:59-60 | the two selections together hold exactly the population's multiset, so their lengths add up to \|pop\| |
| FiltrationSplitter.SubsequenceOfSelect | kde.py:59-60 | any ordered subsequence of the population lying on one side of fr is a subsequence of that side's selection |
| FiltrationSplitter.Filtration | kde.py:51-61 | the result carries the threshold; all of fb is below fr and all of w is at or above it; a population point is in fb iff its fitness is below fr and in w iff it is at or above fr; nothing outside the population appears |
| FiltrationSplitter.FiltrationPartitions | kde.py:59-61 | fb and w keep the population's order, their multisets add up to the population's, and \|fb\| + \|w\| == \|pop\| |
| FiltrationSplitter.FiltrationUnique | kde.py:58-60 | any pair of ordered subsequences that split the population at fr and account for all of it equals (fb, w) |
| FiltrationSplitter.FiltrateGrowsWithAlpha | kde.py:51-59 | a larger alpha gives a threshold at least as high, and the old filtrate is a subsequence of the new one |
| FiltrationSplitter.WasteNonEmptyAtMean | kde.py:58-60 | with alpha 1, as the main loop calls it at kde.py:117 and 151, the waste is never empty |
| FiltrationSplitter.FiltrateEmptyMeansUniform | kde.py:58-60 | with alpha 1, an empty filtrate means every fitness equals fr and the waste is the whole population |
| FiltrationSplitter.UniformMeansFiltrateEmpty | kde.py:58-60 | with alpha 1, a population of equal fitnesses has an empty filtrate and its waste is the whole population |
| FiltrationSplitter.FiltrateEmptyIffUniform | kde.py:58-60 | with alpha 1, the filtrate is empty if and only if all fitnesses are equal |
| FiltrationSplitter.FiltrationExample | kde.py:58-60 | the points (1,0), (2,0), (3,0), (4,0), with fitnesses 1, 4, 9 and 16, at alpha 1 give fr = 7.5, the first two as filtrate and the last two as waste |
| PointGenerator.Toward | kde.py:47 | a moved component ends at (1 - r) times its old offset from the best component, between the old and the best value |
| PointGenerator.CreatePoint | kde.py:45-48 | the new point has the old point's length; each component lies between the old and the best component, at (1 - r) times its old offset from best |
| PointGenerator.CreatePointFixed | kde.py:47 | moving the best point towards itself returns it unchanged, for every r |
| PointGenerator.CreatePointAtZero | kde.py:47 | with r = 0 the old point is returned unchanged |
| PointGenerator.OffsetsScale | kde.py:47 | the offset vector of the new point from best is (1 - r) times the old offset vector |
| PointGenerator.DistanceScales | kde.py:47 | the squared Euclidean distance to best shrinks by the factor (1 - r)^2 |
| PointGenerator.CreatePointApproaches | kde.py:47 | the new point is never farther from best than the old one, and strictly nearer when r > 0 and the old point differs from best |
| PointGenerator.CreateNewPop | kde.py:30-42 | the new population has one row per old row, each of the old row's length; row i is exactly create_point of old row i with draw rs[i]; no row moves away from best |
| Tracker.Evaluate | kde.py:88-109 | over a non-empty population, minEval and maxEval bound every fitness from below and above; minPop and maxPop are the first points in population order whose fitness is minEval and maxEval |
| Tracker.FirstAttainingUnique | kde.py:100-108 | the first point attaining a fitness value is unique, so Evaluate's contract fixes its point results |
| Tracker.ExtremesUnique | kde.py:98-108 | an attained lower (upper) bound of the fitnesses is unique together with its first point, so Evaluate's contract fixes all four results |

## Left out

- `initialize` (kde.py:13-22): it only draws random points; randomness is outside the model.
- Random draws (kde.py:47): `np.random.random()` becomes the parameter `r` (one per row `rs[i]` in `CreateNewPop`); the distribution is not modelled.
- `reabsorption` and `secrection` (kde.py:64-85): they pass a point where `np.delete` expects an index, so their intended behaviour is unclear; `secrection` also mixes a list and an array for `w`.
- `run` (kde.py:112-154): the randomised main loop, which resizes `w` and `fb` while iterating over their old lengths, discards the results of `reabsorption`, `secrection` and `np.delete`, and prints progress; only its `alpha = 1` enters the model (`RunAlpha`).
- PointGenerator.CreatePoint: does not model the `reshape((256,))` at kde.py:48, which raises unless the point has 256 components; the model keeps the input's length for any length.
- PointGenerator.CreatePoint: requires the old and the best point to have the same length; numpy broadcasting of other shapes is not modelled.
- PointGenerator.CreateNewPop: requires every row to have the best point's length, the width of the zero array the source fills; the preallocated zeros themselves are overwritten and not part of the result's contract.
- Tracker.Evaluate: the sorted copy of the fitness list (kde.py:98) is not built; only its first and last elements are used, and the model computes those as the minimum and the maximum in one scan.
- IEEE floating point: fitnesses and components are exact reals, so rounding, NaN and infinities are not modelled; in particular the sums are exact and their order of accumulation does not matter.
