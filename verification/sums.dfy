/** Finite sums f(lo) + ... + f(hi - 1) over integer ranges, the arithmetic behind
    matrix-vector products and row sums. */
module Sums {

  /** f(lo) + f(lo + 1) + ... + f(hi - 1), zero for an empty range. It grows at the top,
      as a running total does in a loop. */
  function Sum(f: int -> real, lo: int, hi: int): real
    decreases hi - lo
  {
    if hi <= lo then 0.0 else Sum(f, lo, hi - 1) + f(hi - 1)
  }

  lemma {:induction false} SumCongruent(f: int -> real, g: int -> real, lo: int, hi: int)
    requires forall i :: lo <= i < hi ==> f(i) == g(i)
    ensures Sum(f, lo, hi) == Sum(g, lo, hi)
    decreases hi - lo
  {
    if lo < hi {
      SumCongruent(f, g, lo, hi - 1);
    }
  }

  lemma {:induction false} SumAdd(f: int -> real, g: int -> real, h: int -> real, lo: int, hi: int)
    requires forall i :: lo <= i < hi ==> h(i) == f(i) + g(i)
    ensures Sum(h, lo, hi) == Sum(f, lo, hi) + Sum(g, lo, hi)
    decreases hi - lo
  {
    if lo < hi {
      SumAdd(f, g, h, lo, hi - 1);
    }
  }

  lemma {:induction false} SumScale(f: int -> real, g: int -> real, s: real, lo: int, hi: int)
    requires forall i :: lo <= i < hi ==> g(i) == s * f(i)
    ensures Sum(g, lo, hi) == s * Sum(f, lo, hi)
    decreases hi - lo
  {
    if lo < hi {
      SumScale(f, g, s, lo, hi - 1);
      assert s * Sum(f, lo, hi) == s * Sum(f, lo, hi - 1) + s * f(hi - 1);
    }
  }

  lemma {:induction false} SumOfZeros(f: int -> real, lo: int, hi: int)
    requires forall i :: lo <= i < hi ==> f(i) == 0.0
    ensures Sum(f, lo, hi) == 0.0
    decreases hi - lo
  {
    if lo < hi {
      SumOfZeros(f, lo, hi - 1);
    }
  }

  lemma {:induction false} SumSplit(f: int -> real, lo: int, mid: int, hi: int)
    requires lo <= mid <= hi
    ensures Sum(f, lo, hi) == Sum(f, lo, mid) + Sum(f, mid, hi)
    decreases hi - mid
  {
    if mid < hi {
      SumSplit(f, lo, mid, hi - 1);
    }
  }

  /** Where f vanishes outside [a, b), the sum over a wider range is the sum over [a, b). */
  lemma SumWindow(f: int -> real, lo: int, a: int, b: int, hi: int)
    requires lo <= a <= b <= hi
    requires forall i :: lo <= i < a ==> f(i) == 0.0
    requires forall i :: b <= i < hi ==> f(i) == 0.0
    ensures Sum(f, lo, hi) == Sum(f, a, b)
  {
    SumSplit(f, lo, a, hi);
    SumSplit(f, a, b, hi);
    SumOfZeros(f, lo, a);
    SumOfZeros(f, b, hi);
  }

  /** A sum whose terms vanish everywhere but at j is the term at j. */
  lemma SumSingle(f: int -> real, lo: int, j: int, hi: int)
    requires lo <= j < hi
    requires forall i :: lo <= i < hi && i != j ==> f(i) == 0.0
    ensures Sum(f, lo, hi) == f(j)
  {
    SumWindow(f, lo, j, j + 1, hi);
  }

  lemma {:induction false} SumShift(f: int -> real, g: int -> real, a: int, n: nat)
    requires forall i :: 0 <= i < n ==> g(i) == f(a + i)
    ensures Sum(f, a, a + n) == Sum(g, 0, n)
  {
    if n > 0 {
      SumShift(f, g, a, n - 1);
    }
  }

  /** A sum over the row-major flattening of a rows-by-nx grid is the sum of its row sums. */
  lemma {:induction false} SumFlatten(f: int -> real, g: int -> real, nx: nat, rows: nat)
    requires forall r :: 0 <= r < rows ==> g(r) == Sum(s => f(r * nx + s), 0, nx)
    ensures Sum(f, 0, rows * nx) == Sum(g, 0, rows)
  {
    if rows > 0 {
      var base := (rows - 1) * nx;
      assert rows * nx == base + nx;
      SumFlatten(f, g, nx, rows - 1);
      SumSplit(f, 0, base, base + nx);
      SumShift(f, s => f(base + s), base, nx);
      SumCongruent(s => f(base + s), s => f((rows - 1) * nx + s), 0, nx);
    }
  }

  /** Terms that are a spike c at j plus d times g sum to c plus d times the sum of g. */
  lemma SumSpikePlusScaled(f: int -> real, g: int -> real, c: real, d: real, j: int, lo: int, hi: int)
    requires lo <= j < hi
    requires forall i :: lo <= i < hi ==> f(i) == (if i == j then c else 0.0) + d * g(i)
    ensures Sum(f, lo, hi) == c + d * Sum(g, lo, hi)
  {
    var spike := i => if i == j then c else 0.0;
    var scaled := i => d * g(i);
    SumAdd(spike, scaled, f, lo, hi);
    SumSingle(spike, lo, j, hi);
    SumScale(g, scaled, d, lo, hi);
  }

  /** The terms row(j) * v[j] of the product of a matrix row with a vector. */
  function DotTerms(row: int -> real, v: seq<real>): int -> real
  {
    j => if 0 <= j < |v| then row(j) * v[j] else 0.0
  }

  /** The product of a matrix row (given by its entries) with v. */
  function Dot(row: int -> real, v: seq<real>): real
  {
    Sum(DotTerms(row, v), 0, |v|)
  }

  lemma DotZero(row: int -> real, v: seq<real>)
    requires forall j :: 0 <= j < |v| ==> v[j] == 0.0
    ensures Dot(row, v) == 0.0
  {
    SumOfZeros(DotTerms(row, v), 0, |v|);
  }

  /** A row times a constant vector is the constant times the row sum. */
  lemma DotConstant(row: int -> real, v: seq<real>, c: real)
    requires forall j :: 0 <= j < |v| ==> v[j] == c
    ensures Dot(row, v) == c * Sum(row, 0, |v|)
  {
    forall j | 0 <= j < |v|
      ensures DotTerms(row, v)(j) == c * row(j)
    {
    }
    SumScale(row, DotTerms(row, v), c, 0, |v|);
  }

  lemma {:induction false} SumLinear(f: int -> real, g: int -> real, h: int -> real, alpha: real, beta: real, lo: int, hi: int)
    requires forall i :: lo <= i < hi ==> h(i) == alpha * f(i) + beta * g(i)
    ensures Sum(h, lo, hi) == alpha * Sum(f, lo, hi) + beta * Sum(g, lo, hi)
    decreases hi - lo
  {
    if lo < hi {
      SumLinear(f, g, h, alpha, beta, lo, hi - 1);
      var sf, sg := Sum(f, lo, hi - 1), Sum(g, lo, hi - 1);
      assert alpha * (sf + f(hi - 1)) + beta * (sg + g(hi - 1))
          == (alpha * sf + beta * sg) + (alpha * f(hi - 1) + beta * g(hi - 1));
    }
  }

  lemma Distribute(m: real, alpha: real, x: real, beta: real, y: real)
    ensures m * (alpha * x + beta * y) == alpha * (m * x) + beta * (m * y)
  {
  }

  lemma DotLinear(row: int -> real, alpha: real, v: seq<real>, beta: real, w: seq<real>, u: seq<real>)
    requires |v| == |w| == |u|
    requires forall j :: 0 <= j < |u| ==> u[j] == alpha * v[j] + beta * w[j]
    ensures Dot(row, u) == alpha * Dot(row, v) + beta * Dot(row, w)
  {
    DotTermsLinear(row, alpha, v, beta, w, u);
    SumLinear(DotTerms(row, v), DotTerms(row, w), DotTerms(row, u), alpha, beta, 0, |u|);
  }

  lemma DotTermsLinear(row: int -> real, alpha: real, v: seq<real>, beta: real, w: seq<real>, u: seq<real>)
    requires |v| == |w| == |u|
    requires forall j :: 0 <= j < |u| ==> u[j] == alpha * v[j] + beta * w[j]
    ensures forall j :: 0 <= j < |u| ==>
      DotTerms(row, u)(j) == alpha * DotTerms(row, v)(j) + beta * DotTerms(row, w)(j)
  {
    forall j | 0 <= j < |u|
      ensures DotTerms(row, u)(j) == alpha * DotTerms(row, v)(j) + beta * DotTerms(row, w)(j)
    {
      Distribute(row(j), alpha, v[j], beta, w[j]);
    }
  }
}
