/** The operator builder of the wave kernel (getMatrices): the diagonal scalings A, B, C and
    the discrete Laplacian L of the leap-frog update, for a line of nx points (1-D) or an
    nx-by-nx grid flattened row-major (2-D). */
module Operators {
  import opened Basics
  import opened Sums

  /** What getMatrices returns. `band` is the 3-by-nx template l whose rows become the
      sub-, main and super-diagonal of the 1-D band; `a`, `b`, `c` are the diagonals of A, B
      and C. L itself is not stored: LAt gives its entry at any (row, col). */
  datatype Operators = Operators(nx: nat, twoD: bool, band: seq<seq<real>>, a: seq<real>, b: seq<real>, c: seq<real>)

  /** Number of grid points: nx on a line, nx * nx on the square grid. */
  function GridSize(nx: nat, twoD: bool): nat
  {
    if twoD then nx * nx else nx
  }

  function Size(ops: Operators): nat
  {
    GridSize(ops.nx, ops.twoD)
  }

  predicate WellFormed(ops: Operators)
  {
    && |ops.band| == 3
    && (forall r :: 0 <= r < 3 ==> |ops.band[r]| == ops.nx)
    && |ops.a| == Size(ops) && |ops.b| == Size(ops) && |ops.c| == Size(ops)
  }

  /** The column that Python's l[0, nx-2] addresses: for nx == 1 the index -1 wraps to the
      last (only) column. */
  function PenultimateColumn(nx: nat): nat
    requires nx >= 1
  {
    if nx >= 2 then nx - 2 else nx - 1
  }

  /** The entry l[r, s] of the band template once all its overrides are applied:
      gamma^2 everywhere, -2 gamma^2 on the middle row, then the one-sided boundary stencil
      -gamma / gamma at the first and last columns. */
  function TemplateAt(gamma: real, nx: nat, r: int, s: int): real
    requires nx >= 1
  {
    if r == 1 && (s == 0 || s == nx - 1) then -gamma
    else if r == 2 && s == 0 then gamma
    else if r == 0 && s == PenultimateColumn(nx) then gamma
    else if r == 1 then -2.0 * gamma * gamma
    else gamma * gamma
  }

  /** True of a grid index on the domain boundary: the first or last point of the line, or a
      point of the first or last row or column of the square grid. */
  predicate OnEdge(nx: nat, twoD: bool, p: int)
    requires nx >= 1
  {
    if twoD then EdgeLine(nx, p / nx) || EdgeLine(nx, p % nx) else EdgeLine(nx, p)
  }

  predicate EdgeLine(nx: nat, i: int)
  {
    i == 0 || i == nx - 1
  }

  /** A vector that holds `edge` at boundary points and `interior` elsewhere. */
  function EdgeValues(nx: nat, twoD: bool, interior: real, edge: real): (v: seq<real>)
    requires nx >= 1
  {
    seq(GridSize(nx, twoD), p => if OnEdge(nx, twoD, p) then edge else interior)
  }

  /** The operators getMatrices(gamma, nx, n) builds; any n other than 1 selects the grid. */
  function Matrices(gamma: real, nx: nat, n: int): (ops: Operators)
    requires nx >= 1
  {
    var twoD := n != 1;
    Operators(nx, twoD,
              seq(3, r => seq(nx, s => TemplateAt(gamma, nx, r, s))),
              EdgeValues(nx, twoD, 2.0, 1.0),
              EdgeValues(nx, twoD, -1.0, 0.0),
              EdgeValues(nx, twoD, gamma * gamma, 0.0))
  }

  /** Builds the band template l in a 3-by-nx array the way the source does: fill, overwrite the
      middle row, then overwrite the four boundary entries. */
  method BandTemplate(gamma: real, nx: nat) returns (band: seq<seq<real>>)
    requires nx >= 1
    ensures |band| == 3 && forall r :: 0 <= r < 3 ==> |band[r]| == nx
    ensures forall r, s :: 0 <= r < 3 && 0 <= s < nx ==> band[r][s] == TemplateAt(gamma, nx, r, s)
  {
    var l := new real[3, nx]((_, _) => gamma * gamma);
    forall s | 0 <= s < nx {
      l[1, s] := -2.0 * gamma * gamma;
    }
    assert forall r, s :: 0 <= r < 3 && 0 <= s < nx ==>
      l[r, s] == if r == 1 then -2.0 * gamma * gamma else gamma * gamma;
    l[1, 0] := -gamma;
    l[2, 0] := gamma;
    l[0, PenultimateColumn(nx)] := gamma;
    l[1, nx - 1] := -gamma;
    assert forall r, s :: 0 <= r < 3 && 0 <= s < nx ==> l[r, s] == TemplateAt(gamma, nx, r, s);
    band := seq(3, r requires 0 <= r < 3 reads l => seq(nx, s requires 0 <= s < nx reads l => l[r, s]));
  }

  /** Builds one of a, b, c: a vector of `interior` whose boundary entries are overwritten with
      `edge`. On the grid the overrides are made on an nx-by-nx array, row by row and column
      by column, which is then flattened row-major (numpy's resize to nx**2). */
  method EdgeVector(nx: nat, twoD: bool, interior: real, edge: real) returns (v: seq<real>)
    requires nx >= 1
    ensures |v| == GridSize(nx, twoD)
    ensures forall p :: 0 <= p < |v| ==> v[p] == if OnEdge(nx, twoD, p) then edge else interior
  {
    if !twoD {
      var w := new real[nx](_ => interior);
      w[0] := edge;
      w[nx - 1] := edge;
      v := w[..];
    } else {
      v := GridEdgeVector(nx, interior, edge);
    }
  }

  /** The grid case of EdgeVector: overwrite the first and last row and the first and last
      column of an nx-by-nx array, then flatten it row-major. */
  method GridEdgeVector(nx: nat, interior: real, edge: real) returns (v: seq<real>)
    requires nx >= 1
    ensures |v| == nx * nx
    ensures forall p :: 0 <= p < |v| ==> v[p] == if OnEdge(nx, true, p) then edge else interior
  {
    var g := new real[nx, nx]((_, _) => interior);
    var last := nx - 1;
    forall s | 0 <= s < nx {
      g[0, s] := edge;
    }
    forall s | 0 <= s < nx {
      g[last, s] := edge;
    }
    forall r | 0 <= r < nx {
      g[r, 0] := edge;
    }
    forall r | 0 <= r < nx {
      g[r, last] := edge;
    }
    v := seq(nx * nx, p requires 0 <= p < nx * nx reads g =>
      FlatIndexBounds(nx, p); g[p / nx, p % nx]);
    forall p | 0 <= p < nx * nx
      ensures v[p] == if OnEdge(nx, true, p) then edge else interior
    {
      FlatIndexBounds(nx, p);
    }
  }

  /** getMatrices: the template, the three diagonals, and the dimensionality that selects how
      L is assembled from the template. */
  method GetMatrices(gamma: real, nx: nat, n: int) returns (ops: Operators)
    requires nx >= 1
    ensures ops == Matrices(gamma, nx, n)
    ensures ops.twoD <==> n != 1
    ensures WellFormed(ops)
  {
    var band := BandTemplate(gamma, nx);
    var twoD := n != 1;
    var a := EdgeVector(nx, twoD, 2.0, 1.0);
    var b := EdgeVector(nx, twoD, -1.0, 0.0);
    var c := EdgeVector(nx, twoD, gamma * gamma, 0.0);
    ops := Operators(nx, twoD, band, a, b, c);
    var spec := Matrices(gamma, nx, n);
    forall r | 0 <= r < 3
      ensures band[r] == spec.band[r]
    {
    }
  }

  /** A row-major index into an nx-by-nx grid has row and column below nx. */
  lemma FlatIndexBounds(nx: nat, p: int)
    requires 0 <= p < nx * nx
    ensures 0 <= p / nx < nx && 0 <= p % nx < nx
  {
    var r := p / nx;
    assert p == r * nx + p % nx;
  }

  /** l[r, s] as stored in the operators, 0 outside the template. */
  function Template(ops: Operators, r: int, s: int): real
  {
    if 0 <= r < |ops.band| && 0 <= s < |ops.band[r]| then ops.band[r][s] else 0.0
  }

  /** T[i, j] of sp.diags(l, [-1, 0, 1], shape=(nx, nx)): each diagonal takes the leading
      entries of its template row, so T[j+1, j] = l[0, j], T[j, j] = l[1, j] and
      T[i, i+1] = l[2, i]. */
  function BandAt(ops: Operators, i: int, j: int): real
  {
    if !(0 <= i < ops.nx && 0 <= j < ops.nx) then 0.0
    else if i == j + 1 then Template(ops, 0, j)
    else if i == j then Template(ops, 1, j)
    else if j == i + 1 then Template(ops, 2, i)
    else 0.0
  }

  /** The identity sp.eye(nx). */
  function EyeAt(i: int, j: int): real
  {
    if i == j then 1.0 else 0.0
  }

  /** L[row, col]: the band T on a line; on the grid the Kronecker sum
      kron(T, I) + kron(I, T), where kron(X, Y)[row, col] = X[row / nx, col / nx] * Y[row % nx, col % nx]. */
  function LAt(ops: Operators, row: int, col: int): real
  {
    if !ops.twoD then BandAt(ops, row, col)
    else if !(0 <= row < Size(ops) && 0 <= col < Size(ops)) then 0.0
    else
      var nx := ops.nx;
      BandAt(ops, row / nx, col / nx) * EyeAt(row % nx, col % nx)
      + EyeAt(row / nx, col / nx) * BandAt(ops, row % nx, col % nx)
  }

  /** Row i of T as a function of the column. */
  function BandRow(ops: Operators, i: int): int -> real
  {
    j => BandAt(ops, i, j)
  }

  /** Row `row` of L as a function of the column. */
  function LRow(ops: Operators, row: int): int -> real
  {
    col => LAt(ops, row, col)
  }

  // ---------------------------------------------------------------------------------------
  // Properties of the coefficient vectors

  /** Interior points get a = 2, b = -1, c = gamma^2; boundary points get 1, 0, 0. So
      a + b = 1 everywhere, and at the boundary neither the previous time level nor the
      source enters the update. */
  lemma Coefficients(gamma: real, nx: nat, n: int, p: nat)
    requires nx >= 1
    requires p < GridSize(nx, n != 1)
    ensures var ops := Matrices(gamma, nx, n);
      && (OnEdge(nx, n != 1, p) ==> ops.a[p] == 1.0 && ops.b[p] == 0.0 && ops.c[p] == 0.0)
      && (!OnEdge(nx, n != 1, p) ==> ops.a[p] == 2.0 && ops.b[p] == -1.0 && ops.c[p] == gamma * gamma)
      && ops.a[p] + ops.b[p] == 1.0
  {
  }

  /** On the grid, the point in row r and column s sits at r * nx + s, and it is a boundary
      point exactly when r or s is 0 or nx - 1. */
  lemma GridCoefficients(gamma: real, nx: nat, n: int, r: nat, s: nat)
    requires nx >= 1 && n != 1
    requires r < nx && s < nx
    ensures var ops := Matrices(gamma, nx, n);
      var p := r * nx + s;
      && p < |ops.a|
      && (ops.a[p] == if EdgeLine(nx, r) || EdgeLine(nx, s) then 1.0 else 2.0)
      && (ops.b[p] == if EdgeLine(nx, r) || EdgeLine(nx, s) then 0.0 else -1.0)
      && (ops.c[p] == if EdgeLine(nx, r) || EdgeLine(nx, s) then 0.0 else gamma * gamma)
  {
    FlatIndex(nx, r, s);
  }

  // ---------------------------------------------------------------------------------------
  // Properties of L

  /** T is tridiagonal. */
  lemma BandIsTridiagonal(gamma: real, nx: nat, n: int, i: int, j: int)
    requires nx >= 1
    requires i < j - 1 || j + 1 < i
    ensures BandAt(Matrices(gamma, nx, n), i, j) == 0.0
  {
  }

  /** The first row of T is (-gamma, gamma, 0, ...), the last is (..., 0, gamma, -gamma). */
  lemma BandBoundaryRows(gamma: real, nx: nat, n: int, j: int)
    requires nx >= 2
    ensures var ops := Matrices(gamma, nx, n);
      && BandAt(ops, 0, j) == (if j == 0 then -gamma else if j == 1 then gamma else 0.0)
      && BandAt(ops, nx - 1, j) == (if j == nx - 1 then -gamma else if j == nx - 2 then gamma else 0.0)
  {
  }

  /** An interior row of T is the second difference (gamma^2, -2 gamma^2, gamma^2). */
  lemma BandInteriorRow(gamma: real, nx: nat, n: int, i: int, j: int)
    requires 0 < i < nx - 1
    ensures BandAt(Matrices(gamma, nx, n), i, j) ==
      if j == i - 1 || j == i + 1 then gamma * gamma
      else if j == i then -2.0 * gamma * gamma
      else 0.0
  {
  }

  /** Every row of T sums to zero: T annihilates constant vectors (nx >= 2; for nx == 1 the
      only entry is -gamma). */
  lemma BandRowSum(gamma: real, nx: nat, n: int, i: int)
    requires nx >= 2 && 0 <= i < nx
    ensures Sum(BandRow(Matrices(gamma, nx, n), i), 0, nx) == 0.0
  {
    var ops := Matrices(gamma, nx, n);
    var f := BandRow(ops, i);
    var lo := if i == 0 then 0 else i - 1;
    var hi := if i == nx - 1 then nx else i + 2;
    SumWindow(f, 0, lo, hi, nx);
    if i == 0 {
      BandBoundaryRows(gamma, nx, n, 0);
      BandBoundaryRows(gamma, nx, n, 1);
    } else if i == nx - 1 {
      BandBoundaryRows(gamma, nx, n, nx - 2);
      BandBoundaryRows(gamma, nx, n, nx - 1);
    } else {
      BandInteriorRow(gamma, nx, n, i, i - 1);
      BandInteriorRow(gamma, nx, n, i, i);
      BandInteriorRow(gamma, nx, n, i, i + 1);
      assert Sum(f, lo, hi) == f(i - 1) + f(i) + f(i + 1) by {
        assert Sum(f, lo, i + 1) == Sum(f, lo, i) + f(i);
        assert Sum(f, lo, i) == Sum(f, lo, i - 1) + f(i - 1);
      }
    }
  }

  /** On the grid, L couples (r, s) and (r', s') through T along each axis:
      L[r*nx + s, r'*nx + s'] = T[r, r'] [s = s'] + [r = r'] T[s, s']. */
  lemma KroneckerSumEntries(gamma: real, nx: nat, n: int, r: nat, s: nat, r': nat, s': nat)
    requires nx >= 1 && n != 1
    requires r < nx && s < nx && r' < nx && s' < nx
    ensures var ops := Matrices(gamma, nx, n);
      LAt(ops, r * nx + s, r' * nx + s') ==
        BandAt(ops, r, r') * EyeAt(s, s') + EyeAt(r, r') * BandAt(ops, s, s')
  {
    var ops := Matrices(gamma, nx, n);
    assert ops.twoD && ops.nx == nx;
    KroneckerAt(ops, r, s, r', s');
  }

  /** The Kronecker-sum entry for any grid operator, independent of how it was built. */
  lemma KroneckerAt(ops: Operators, r: nat, s: nat, r': nat, s': nat)
    requires ops.twoD && r < ops.nx && s < ops.nx && r' < ops.nx && s' < ops.nx
    ensures LAt(ops, r * ops.nx + s, r' * ops.nx + s') ==
      BandAt(ops, r, r') * EyeAt(s, s') + EyeAt(r, r') * BandAt(ops, s, s')
  {
    var nx := ops.nx;
    var p, q := r * nx + s, r' * nx + s';
    FlatIndex(nx, r, s);
    FlatIndex(nx, r', s');
    assert Size(ops) == nx * nx;
    assert 0 <= p < Size(ops) && 0 <= q < Size(ops);
    assert p / nx == r && p % nx == s && q / nx == r' && q % nx == s';
  }

  /** The grid operator is the five-point Laplacian at interior points: -4 gamma^2 at the
      centre and gamma^2 at each of the four neighbours. */
  lemma FivePointStencil(gamma: real, nx: nat, n: int, r: nat, s: nat)
    requires n != 1
    requires 0 < r < nx - 1 && 0 < s < nx - 1
    ensures var ops := Matrices(gamma, nx, n);
      var p := r * nx + s;
      && LAt(ops, p, p) == -4.0 * gamma * gamma
      && LAt(ops, p, p - 1) == gamma * gamma
      && LAt(ops, p, p + 1) == gamma * gamma
      && LAt(ops, p, p - nx) == gamma * gamma
      && LAt(ops, p, p + nx) == gamma * gamma
  {
    var p := r * nx + s;
    KroneckerSumEntries(gamma, nx, n, r, s, r, s);
    BandInteriorRow(gamma, nx, n, r, r);
    BandInteriorRow(gamma, nx, n, s, s);
    assert p - 1 == r * nx + (s - 1);
    KroneckerSumEntries(gamma, nx, n, r, s, r, s - 1);
    BandInteriorRow(gamma, nx, n, s, s - 1);
    assert p + 1 == r * nx + (s + 1);
    KroneckerSumEntries(gamma, nx, n, r, s, r, s + 1);
    BandInteriorRow(gamma, nx, n, s, s + 1);
    assert p - nx == (r - 1) * nx + s;
    KroneckerSumEntries(gamma, nx, n, r, s, r - 1, s);
    BandInteriorRow(gamma, nx, n, r, r - 1);
    assert p + nx == (r + 1) * nx + s;
    KroneckerSumEntries(gamma, nx, n, r, s, r + 1, s);
    BandInteriorRow(gamma, nx, n, r, r + 1);
  }

  /** Every row of L sums to zero, on the line and on the grid (nx >= 2): L maps a constant
      field to zero. */
  lemma LRowSum(gamma: real, nx: nat, n: int, row: nat)
    requires nx >= 2
    requires row < GridSize(nx, n != 1)
    ensures var ops := Matrices(gamma, nx, n);
      Sum(LRow(ops, row), 0, Size(ops)) == 0.0
  {
    var ops := Matrices(gamma, nx, n);
    if n == 1 {
      BandRowSum(gamma, nx, n, row);
      SumCongruent(LRow(ops, row), BandRow(ops, row), 0, nx);
    } else {
      GridRowSum(gamma, nx, n, row);
    }
  }

  /** Summing one block of nx consecutive columns of a grid row of L leaves T[r, r']: the
      kron(T, I) part contributes once, at s' == s, and the kron(I, T) part is a row of T. */
  lemma GridBlockSum(gamma: real, nx: nat, n: int, r: nat, s: nat, r': nat)
    requires nx >= 2 && n != 1
    requires r < nx && s < nx && r' < nx
    ensures var ops := Matrices(gamma, nx, n);
      Sum(s' => LAt(ops, r * nx + s, r' * nx + s'), 0, nx) == BandAt(ops, r, r')
  {
    var ops := Matrices(gamma, nx, n);
    var inner := s' => LAt(ops, r * nx + s, r' * nx + s');
    var row := BandRow(ops, s);
    forall s' | 0 <= s' < nx
      ensures inner(s') == (if s' == s then BandAt(ops, r, r') else 0.0) + EyeAt(r, r') * row(s')
    {
      KroneckerSumEntries(gamma, nx, n, r, s, r', s');
    }
    SumSpikePlusScaled(inner, row, BandAt(ops, r, r'), EyeAt(r, r'), s, 0, nx);
    BandRowSum(gamma, nx, n, s);
  }

  lemma GridRowSum(gamma: real, nx: nat, n: int, row: nat)
    requires nx >= 2 && n != 1
    requires row < nx * nx
    ensures var ops := Matrices(gamma, nx, n);
      Sum(LRow(ops, row), 0, nx * nx) == 0.0
  {
    var ops := Matrices(gamma, nx, n);
    FlatIndexBounds(nx, row);
    var r, s := row / nx, row % nx;
    assert row == r * nx + s;
    var f := LRow(ops, row);
    var g := r' => Sum(s' => f(r' * nx + s'), 0, nx);
    var t := BandRow(ops, r);
    forall r' | 0 <= r' < nx
      ensures g(r') == t(r')
    {
      GridBlockSum(gamma, nx, n, r, s, r');
      SumCongruent(s' => f(r' * nx + s'), s' => LAt(ops, r * nx + s, r' * nx + s'), 0, nx);
    }
    SumFlatten(f, g, nx, nx);
    SumCongruent(g, t, 0, nx);
    BandRowSum(gamma, nx, n, r);
  }
}
