/** Generation of new candidate points: every new point lies on the segment
    from a current point towards the best point found so far, a random fraction
    r of the way. The random draw is a parameter of the model. */
module PointGenerator {
  import opened Objective

  /** A fraction drawn from the half-open unit interval [0, 1). */
  predicate IsFraction(r: real)
  {
    0.0 <= r < 1.0
  }

  /** One component moved the fraction r of the way from o towards b. */
  function Toward(o: real, b: real, r: real): (c: real)
    requires IsFraction(r)
    ensures c - b == (1.0 - r) * (o - b)
    ensures o <= b ==> o <= c <= b
    ensures b <= o ==> b <= c <= o
  {
    var c := o + r * (b - o);
    MoveFacts(o, b, r, b - o, c);
    c
  }

  /** The facts behind Toward, about c = o + r*d with d = b - o. The
      distance d and the result c are named as parameters so that the
      solver treats r*d as a product of two atoms. */
  lemma MoveFacts(o: real, b: real, r: real, d: real, c: real)
    requires IsFraction(r) && d == b - o && c == o + r * d
    ensures c - b == (1.0 - r) * (o - b)
    ensures o <= b ==> o <= c <= b
    ensures b <= o ==> b <= c <= o
  {
    if d >= 0.0 {
      Shrink(r, d);
    } else {
      Shrink(r, -d);
      Negate(r, d);
    }
  }

  lemma Negate(a: real, d: real)
    ensures a * -d == -(a * d)
  {
  }

  /** The componentwise difference of two points of the same length. */
  function Minus(x: Point, y: Point): (d: Point)
    requires |x| == |y|
    ensures |d| == |x|
    ensures forall i :: 0 <= i < |x| ==> d[i] + y[i] == x[i]
  {
    seq(|x|, i requires 0 <= i < |x| => x[i] - y[i])
  }

  /** A new point: current moved the fraction r of the way towards best. Every
      component lands between the old and the best component, at (1 - r)
      times its current offset from best. */
  function CreatePoint(current: Point, best: Point, r: real): (p: Point)
    requires |current| == |best| && IsFraction(r)
    ensures |p| == |current|
    ensures forall i :: 0 <= i < |p| ==> p[i] - best[i] == (1.0 - r) * (current[i] - best[i])
    ensures forall i :: 0 <= i < |p| ==> current[i] <= best[i] ==> current[i] <= p[i] <= best[i]
    ensures forall i :: 0 <= i < |p| ==> best[i] <= current[i] ==> best[i] <= p[i] <= current[i]
  {
    seq(|current|, i requires 0 <= i < |current| => Toward(current[i], best[i], r))
  }

  /** The best point is a fixed point: moving it towards itself leaves it where it is. */
  lemma CreatePointFixed(best: Point, r: real)
    requires IsFraction(r)
    ensures CreatePoint(best, best, r) == best
  {
  }

  /** A draw of zero leaves the old point unchanged. */
  lemma CreatePointAtZero(current: Point, best: Point)
    requires |current| == |best|
    ensures CreatePoint(current, best, 0.0) == current
  {
  }

  /** The sum of squares scales by c*c when every component scales by c. */
  lemma {:induction false} DeJongScale(c: real, x: Point, y: Point)
    requires |x| == |y|
    requires forall i :: 0 <= i < |x| ==> y[i] == c * x[i]
    ensures DeJong(y) == Square(c) * DeJong(x)
  {
    if x != [] {
      DeJongScale(c, x[1..], y[1..]);
      SquareOfProduct(c, x[0]);
      Distribute(Square(c), Square(x[0]), DeJong(x[1..]));
    }
  }

  lemma Distribute(a: real, b: real, d: real)
    ensures a * b + a * d == a * (b + d)
  {
  }

  /** A factor between 0 and 1 does not enlarge a non-negative value, and
      shrinks a positive one when it is below 1. */
  lemma Shrink(a: real, d: real)
    requires 0.0 <= a <= 1.0 && d >= 0.0
    ensures 0.0 <= a * d <= d
    ensures a < 1.0 && d > 0.0 ==> a * d < d
  {
  }

  lemma SquareOfFraction(s: real)
    requires 0.0 < s <= 1.0
    ensures Square(s) <= 1.0
    ensures s < 1.0 ==> Square(s) < 1.0
  {
    Shrink(s, s);
  }

  /** Each offset of a new point from best is (1 - r) times the old offset. */
  lemma OffsetsScale(current: Point, best: Point, r: real)
    requires |current| == |best| && IsFraction(r)
    ensures forall i :: 0 <= i < |current| ==>
              Minus(CreatePoint(current, best, r), best)[i] == (1.0 - r) * Minus(current, best)[i]
  {
  }

  /** Moving the fraction r towards best scales the squared Euclidean
      distance to best by (1 - r)*(1 - r). */
  lemma DistanceScales(current: Point, best: Point, r: real)
    requires |current| == |best| && IsFraction(r)
    ensures DeJong(Minus(CreatePoint(current, best, r), best))
         == Square(1.0 - r) * DeJong(Minus(current, best))
  {
    OffsetsScale(current, best, r);
    DeJongScale(1.0 - r, Minus(current, best), Minus(CreatePoint(current, best, r), best));
  }

  /** Two different points of the same length are at a positive squared distance. */
  lemma DistancePositive(x: Point, y: Point)
    requires |x| == |y| && x != y
    ensures DeJong(Minus(x, y)) > 0.0
  {
    var i :| 0 <= i < |x| && x[i] != y[i];
    DeJongPositive(Minus(x, y), i);
  }

  lemma Contract(s: real, d: real, e: real)
    requires 0.0 < s <= 1.0 && d >= 0.0 && e == Square(s) * d
    ensures e <= d
    ensures s < 1.0 && d > 0.0 ==> e < d
  {
    SquareOfFraction(s);
    Shrink(Square(s), d);
  }

  /** A new point is no farther from the best point than the old one, in
      squared Euclidean distance, and strictly nearer when r > 0 and the
      old point differs from best. */
  lemma CreatePointApproaches(current: Point, best: Point, r: real)
    requires |current| == |best| && IsFraction(r)
    ensures DeJong(Minus(CreatePoint(current, best, r), best)) <= DeJong(Minus(current, best))
    ensures 0.0 < r && current != best ==>
            DeJong(Minus(CreatePoint(current, best, r), best)) < DeJong(Minus(current, best))
  {
    DistanceScales(current, best, r);
    Contract(1.0 - r, DeJong(Minus(current, best)), DeJong(Minus(CreatePoint(current, best, r), best)));
    if 0.0 < r && current != best {
      DistancePositive(current, best);
    }
  }

  /** The new population: row i is the old row i moved the fraction rs[i]
      of the way towards bestPop. */
  method CreateNewPop(pop: seq<Point>, bestPop: Point, rs: seq<real>) returns (popNew: seq<Point>)
    requires forall i :: 0 <= i < |pop| ==> |pop[i]| == |bestPop|
    requires |rs| == |pop| && forall i :: 0 <= i < |rs| ==> IsFraction(rs[i])
    ensures |popNew| == |pop|
    ensures forall i :: 0 <= i < |pop| ==> |popNew[i]| == |pop[i]|
    ensures forall i :: 0 <= i < |pop| ==> popNew[i] == CreatePoint(pop[i], bestPop, rs[i])
    ensures forall i :: 0 <= i < |pop| ==>
              DeJong(Minus(popNew[i], bestPop)) <= DeJong(Minus(pop[i], bestPop))
  {
    var rows := new Point[|pop|](_ => seq(|bestPop|, _ => 0.0));
    for i := 0 to |pop|
      invariant forall k :: 0 <= k < i ==> rows[k] == CreatePoint(pop[k], bestPop, rs[k])
    {
      rows[i] := CreatePoint(pop[i], bestPop, rs[i]);
    }
    popNew := rows[..];
    forall i | 0 <= i < |pop|
      ensures DeJong(Minus(popNew[i], bestPop)) <= DeJong(Minus(pop[i], bestPop))
    {
      CreatePointApproaches(pop[i], bestPop, rs[i]);
    }
  }
}
