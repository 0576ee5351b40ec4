/** The objective function of the optimizer: the De Jong sphere function,
    the sum of the squared components of a candidate vector. Smaller is better. */
module Objective {

  /** One candidate solution (an Individual): a vector of real components. */
  type Point = seq<real>

  /** The identity on reals. Square multiplies a component by Id of itself
      rather than by itself: the solver then reasons about the product as it
      does about any product of two reals, which it handles more reliably than
      a literal square. */
  function Id(a: real): real
  {
    a
  }

  /** The square of one component: never negative, and zero only at zero. */
  function Square(a: real): (r: real)
    ensures r >= 0.0
    ensures r == 0.0 <==> a == 0.0
  {
    a * Id(a)
  }

  /** Square is the ordinary square. */
  lemma SquareIsProduct(a: real)
    ensures Square(a) == a * a
  {
  }

  /** Fitness of a point: the sum of the squares of its components. */
  function DeJong(x: Point): (r: real)
    ensures r >= 0.0
  {
    if x == [] then 0.0
    else
      Square(x[0]) + DeJong(x[1..])
  }

  /** The source accumulates the squares from left to right; appending one
      more component adds its square, so both orders give the same sum. */
  lemma {:induction false} DeJongSnoc(x: Point, c: real)
    ensures DeJong(x + [c]) == DeJong(x) + Square(c)
  {
    if x == [] {
      assert [c][1..] == [];
    } else {
      assert (x + [c])[1..] == x[1..] + [c];
      DeJongSnoc(x[1..], c);
    }
  }

  /** Each squared component is bounded by the fitness. */
  lemma {:induction false} DeJongBoundsComponent(x: Point, i: nat)
    requires i < |x|
    ensures Square(x[i]) <= DeJong(x)
  {
    if i > 0 {
      DeJongBoundsComponent(x[1..], i - 1);
      assert x[1..][i - 1] == x[i];
    }
  }

  /** A single non-zero component makes the fitness strictly positive. */
  lemma {:induction false} DeJongPositive(x: Point, i: nat)
    requires i < |x| && x[i] != 0.0
    ensures DeJong(x) > 0.0
  {
    DeJongBoundsComponent(x, i);
  }

  lemma {:induction false} DeJongOfZeros(x: Point)
    requires forall i :: 0 <= i < |x| ==> x[i] == 0.0
    ensures DeJong(x) == 0.0
  {
    if x != [] {
      assert forall i :: 0 <= i < |x[1..]| ==> x[1..][i] == x[i + 1];
      DeJongOfZeros(x[1..]);
    }
  }

  /** The fitness is zero exactly when every component is zero. */
  lemma {:induction false} DeJongZeroIff(x: Point)
    ensures DeJong(x) == 0.0 <==> forall i :: 0 <= i < |x| ==> x[i] == 0.0
  {
    if forall i :: 0 <= i < |x| ==> x[i] == 0.0 {
      DeJongOfZeros(x);
    } else {
      var i :| 0 <= i < |x| && x[i] != 0.0;
      DeJongPositive(x, i);
    }
  }

  /** Squaring turns a scale factor c into c*c. */
  lemma SquareOfProduct(c: real, a: real)
    ensures Square(c * a) == Square(c) * Square(a)
  {
  }
}
