/** Sums and means of real sequences, and the three-way comparison of two
    means that the classifier ends with. */
module Means {

  /** `xs.reduce((acc, value) => acc + value, 0)`: a left fold from 0. */
  function Sum(xs: seq<real>): real {
    Fold(xs, 0.0)
  }

  function Fold(xs: seq<real>, acc: real): real {
    if xs == [] then acc else Fold(xs[1..], acc + xs[0])
  }

  /** The arithmetic mean: the sum over the length. */
  function Mean(xs: seq<real>): real
    requires xs != []
  {
    Sum(xs) / |xs| as real
  }

  /** `mean(xs) < mean(ys) ? -1 : mean(xs) > mean(ys) ? 1 : 0`, and 0 when
      either side is empty. */
  function CompareMeans(xs: seq<real>, ys: seq<real>): (r: int)
    ensures -1 <= r <= 1
    ensures r != 0 ==> xs != [] && ys != []
  {
    if xs == [] || ys == [] then 0
    else if Mean(xs) < Mean(ys) then -1
    else if Mean(xs) > Mean(ys) then 1
    else 0
  }

  /** The comparison of means is the comparison of cross-multiplied sums:
      no division is needed to decide it. */
  lemma CompareMeansByCross(xs: seq<real>, ys: seq<real>)
    ensures CompareMeans(xs, ys) == -1
            <==> xs != [] && ys != [] && Sum(xs) * |ys| as real < Sum(ys) * |xs| as real
    ensures CompareMeans(xs, ys) == 1
            <==> xs != [] && ys != [] && Sum(xs) * |ys| as real > Sum(ys) * |xs| as real
  {
    if xs != [] && ys != [] {
      DivCompare(Sum(xs), Sum(ys), |xs| as real, |ys| as real);
    }
  }

  lemma DivCompare(s: real, t: real, m: real, e: real)
    requires m > 0.0 && e > 0.0
    ensures s / m < t / e <==> s * e < t * m
    ensures s / m > t / e <==> s * e > t * m
  {
    var a, b := s / m, t / e;
    assert s == a * m;
    assert t == b * e;
    assert s * e == a * (m * e);
    assert t * m == b * (m * e);
    ScaleCompare(a, b, m * e);
  }

  lemma ScaleCompare(a: real, b: real, k: real)
    requires k > 0.0
    ensures a < b <==> a * k < b * k
    ensures a > b <==> a * k > b * k
  {
    assert b * k - a * k == (b - a) * k;
  }

  /** Each element negated. */
  function Negate(xs: seq<real>): (r: seq<real>)
    ensures |r| == |xs|
  {
    if xs == [] then [] else [-xs[0]] + Negate(xs[1..])
  }

  /** Each element moved by `d`. */
  function Shift(xs: seq<real>, d: real): (r: seq<real>)
    ensures |r| == |xs|
  {
    if xs == [] then [] else [xs[0] + d] + Shift(xs[1..], d)
  }

  /** A fold started from `acc` ends `acc` above the plain sum. */
  lemma {:induction false} FoldFrom(xs: seq<real>, acc: real)
    ensures Fold(xs, acc) == acc + Sum(xs)
  {
    if xs != [] {
      FoldFrom(xs[1..], acc + xs[0]);
      FoldFrom(xs[1..], xs[0]);
    }
  }

  lemma SumCons(xs: seq<real>)
    requires xs != []
    ensures Sum(xs) == xs[0] + Sum(xs[1..])
  {
    FoldFrom(xs[1..], xs[0]);
  }

  lemma {:induction false} SumNegate(xs: seq<real>)
    ensures Sum(Negate(xs)) == -Sum(xs)
  {
    if xs != [] {
      SumCons(xs);
      SumCons(Negate(xs));
      assert Negate(xs)[1..] == Negate(xs[1..]);
      SumNegate(xs[1..]);
    }
  }

  lemma {:induction false} SumShift(xs: seq<real>, d: real)
    ensures Sum(Shift(xs, d)) == Sum(xs) + |xs| as real * d
  {
    if xs != [] {
      SumCons(xs);
      SumCons(Shift(xs, d));
      assert Shift(xs, d)[1..] == Shift(xs[1..], d);
      SumShift(xs[1..], d);
      var n := |xs| as real;
      assert |xs[1..]| as real == n - 1.0;
      assert (n - 1.0) * d + d == n * d;
    }
  }

  lemma DivNegate(s: real, m: real)
    requires m > 0.0
    ensures -s / m == -(s / m)
  {
  }

  lemma DivShift(s: real, m: real, d: real)
    requires m > 0.0
    ensures (s + m * d) / m == s / m + d
  {
  }

  lemma MeanNegate(xs: seq<real>)
    requires xs != []
    ensures Mean(Negate(xs)) == -Mean(xs)
  {
    SumNegate(xs);
    DivNegate(Sum(xs), |xs| as real);
  }

  lemma MeanShift(xs: seq<real>, d: real)
    requires xs != []
    ensures Mean(Shift(xs, d)) == Mean(xs) + d
  {
    SumShift(xs, d);
    DivShift(Sum(xs), |xs| as real, d);
  }

  /** Negating both sides reverses the verdict. */
  lemma CompareMeansNegate(xs: seq<real>, ys: seq<real>)
    ensures CompareMeans(Negate(xs), Negate(ys)) == -CompareMeans(xs, ys)
  {
    if xs != [] && ys != [] {
      MeanNegate(xs);
      MeanNegate(ys);
    }
  }

  /** Moving both sides by the same amount keeps the verdict. */
  lemma CompareMeansShift(xs: seq<real>, ys: seq<real>, d: real)
    ensures CompareMeans(Shift(xs, d), Shift(ys, d)) == CompareMeans(xs, ys)
  {
    if xs != [] && ys != [] {
      MeanShift(xs, d);
      MeanShift(ys, d);
    }
  }

  lemma NegateCons(x: real, xs: seq<real>)
    ensures Negate([x] + xs) == [-x] + Negate(xs)
  {
    assert ([x] + xs)[1..] == xs;
  }

  lemma ShiftCons(x: real, xs: seq<real>, d: real)
    ensures Shift([x] + xs, d) == [x + d] + Shift(xs, d)
  {
    assert ([x] + xs)[1..] == xs;
  }
}
