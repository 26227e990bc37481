/** The sampler (sample): a sparse interpolation matrix from values on a 1-D grid `xin`
    (or on the nx-by-nx tensor grid built from it) to scattered query points, emitted as
    coordinate-format triplets. The bracket is the one the code computes: the first node
    `xin[i] >= x`, with weights taken from the pair xin[i], xin[i+1]. */
module Sampling {
  import opened Basics

  /** The exceptions sample can raise: an index past the end of xin or xout2 (IndexError)
      and a bracket whose two nodes coincide (ZeroDivisionError). */
  datatype SampleError = IndexOutOfRange | ZeroDivision

  /** The three parallel lists rw, cl and nz of coordinate-format entries. */
  datatype Triplets = Triplets(rw: seq<nat>, cl: seq<nat>, nz: seq<real>)

  /** coo_matrix((nz, (rw, cl)), shape=(rows, cols)). */
  datatype Coo = Coo(rows: nat, cols: nat, entries: Triplets)

  const NoTriplets := Triplets([], [], [])

  predicate Aligned(t: Triplets)
  {
    |t.rw| == |t.cl| == |t.nz|
  }

  /** Every triplet sits in row k. */
  predicate InRow(t: Triplets, k: nat)
  {
    forall p :: 0 <= p < |t.rw| ==> t.rw[p] == k
  }

  function Concat(t: Triplets, u: Triplets): (r: Triplets)
    ensures Aligned(t) && Aligned(u) ==> Aligned(r)
    ensures |r.rw| == |t.rw| + |u.rw|
  {
    Triplets(t.rw + u.rw, t.cl + u.cl, t.nz + u.nz)
  }

  /** All but the last triplet. */
  function Front(t: Triplets): (r: Triplets)
    requires Aligned(t) && |t.rw| > 0
    ensures Aligned(r) && |r.rw| == |t.rw| - 1
  {
    var n := |t.rw| - 1;
    Triplets(t.rw[..n], t.cl[..n], t.nz[..n])
  }

  // ---------------------------------------------------------------------------------------
  // The bracketing scan

  /** Where `while xin[i] < x: i = i + 1` stops when started at i: None when it runs off the
      end of xin. */
  function ScanFrom(xin: seq<real>, x: real, i: nat): (r: Option<nat>)
    ensures r.Some? ==> i <= r.value < |xin| && x <= xin[r.value]
    ensures r.Some? ==> forall p :: i <= p < r.value ==> xin[p] < x
    ensures r.None? <==> forall p :: i <= p < |xin| ==> xin[p] < x
    decreases |xin| - i
  {
    if i >= |xin| then None
    else if xin[i] < x then ScanFrom(xin, x, i + 1)
    else Some(i)
  }

  /** The scan from 0: the first index whose node is at least x, if any. */
  function FirstAtLeast(xin: seq<real>, x: real): (r: Option<nat>)
    ensures r.Some? ==> r.value < |xin| && x <= xin[r.value]
    ensures r.Some? ==> forall p :: 0 <= p < r.value ==> xin[p] < x
    ensures r.None? <==> forall p :: 0 <= p < |xin| ==> xin[p] < x
  {
    ScanFrom(xin, x, 0)
  }

  /** The scan loop itself. */
  method Scan(xin: seq<real>, x: real) returns (r: Option<nat>)
    ensures r == FirstAtLeast(xin, x)
  {
    var i := 0;
    while i < |xin| && xin[i] < x
      invariant i <= |xin|
      invariant forall p :: 0 <= p < i ==> xin[p] < x
    {
      i := i + 1;
    }
    r := if i < |xin| then Some(i) else None;
  }

  // ---------------------------------------------------------------------------------------
  // Interpolation weights

  /** The weight a of node x0 in the two-point linear basis on (x0, x1). */
  function Weight0(x0: real, x1: real, x: real): real
    requires x0 != x1
  {
    (x - x1) / (x0 - x1)
  }

  /** The weight b of node x1 in the two-point linear basis on (x0, x1). */
  function Weight1(x0: real, x1: real, x: real): real
    requires x0 != x1
  {
    (x - x0) / (x1 - x0)
  }

  /** The two-point basis is a partition of unity, reproduces x, and is 1 at its own node
      and 0 at the other. */
  lemma LinearBasis(x0: real, x1: real, x: real)
    requires x0 != x1
    ensures Weight0(x0, x1, x) + Weight1(x0, x1, x) == 1.0
    ensures Weight0(x0, x1, x) * x0 + Weight1(x0, x1, x) * x1 == x
    ensures Weight0(x0, x1, x0) == 1.0 && Weight1(x0, x1, x0) == 0.0
    ensures Weight0(x0, x1, x1) == 0.0 && Weight1(x0, x1, x1) == 1.0
  {
    var d := x0 - x1;
    assert Weight1(x0, x1, x) == (x0 - x) / d;
    assert Weight0(x0, x1, x) + Weight1(x0, x1, x) == ((x - x1) + (x0 - x)) / d;
    assert Weight0(x0, x1, x) * x0 + Weight1(x0, x1, x) * x1 == ((x - x1) * x0 + (x0 - x) * x1) / d;
    assert (x - x1) * x0 + (x0 - x) * x1 == x * d;
  }

  /** The four corner columns of the bilinear cell (i, j) of an nx-by-nx grid, in the order
      the code appends them. */
  function Corners(nx: nat, i: nat, j: nat): seq<nat>
  {
    [Cell(nx, i, j), Cell(nx, i + 1, j), Cell(nx, i, j + 1), Cell(nx, i + 1, j + 1)]
  }

  /** The column of grid node (a, b) in the nx*nx flattened grid: a + nx * b. */
  function Cell(nx: nat, a: nat, b: nat): nat
  {
    a + nx * b
  }

  /** Cell decodes back to (a, b) as column = c % nx, row = c / nx, and lies in the grid. */
  lemma CellIndex(nx: nat, a: nat, b: nat)
    requires a < nx && b < nx
    ensures Cell(nx, a, b) % nx == a && Cell(nx, a, b) / nx == b && Cell(nx, a, b) < nx * nx
  {
    assert Cell(nx, a, b) == b * nx + a;
    FlatIndex(nx, b, a);
  }

  /** The four weights a, b, c, d of the 2-D branch, with the code's grouping of products
      and quotients. */
  function Weights2(xi: real, xi1: real, xj: real, xj1: real, x: real, y: real): seq<real>
    requires xi != xi1 && xj != xj1
  {
    [Weight2(x, xi1, y, xj1, xi, xi1, xj, xj1),
     Weight2(x, xi, y, xj1, xi1, xi, xj, xj1),
     Weight2(x, xi1, y, xj, xi, xi1, xj1, xj),
     Weight2(x, xi, y, xj, xi1, xi, xj1, xj)]
  }

  /** One 2-D weight as the code writes it: (x - x1) * (y - y1) / (c0 - c1) / (d0 - d1). */
  function Weight2(x: real, x1: real, y: real, y1: real, c0: real, c1: real, d0: real, d1: real): real
    requires c0 != c1 && d0 != d1
  {
    (x - x1) * (y - y1) / (c0 - c1) / (d0 - d1)
  }

  lemma Quotients(p: real, q: real, c: real, d: real)
    requires c != 0.0 && d != 0.0
    ensures p * q / c / d == (p / c) * (q / d)
  {
    assert p * q / c / d == (p * q) / (c * d);
  }

  /** A 2-D weight is the product of the two 1-D quotients. */
  lemma Weight2Product(x: real, x1: real, y: real, y1: real, c0: real, c1: real, d0: real, d1: real)
    requires c0 != c1 && d0 != d1
    ensures Weight2(x, x1, y, y1, c0, c1, d0, d1) == ((x - x1) / (c0 - c1)) * ((y - y1) / (d0 - d1))
  {
    var p, q, c, d := x - x1, y - y1, c0 - c1, d0 - d1;
    Quotients(p, q, c, d);
    assert (x - x1) * (y - y1) == p * q;
    assert (x - x1) * (y - y1) / (c0 - c1) == p * q / c;
    assert (x - x1) * (y - y1) / (c0 - c1) / (d0 - d1) == p * q / c / d;
    assert (x - x1) / (c0 - c1) == p / c;
    assert (y - y1) / (d0 - d1) == q / d;
  }

  /** Each 2-D weight is the product of the 1-D bases along the two axes, so the four of them
      sum to 1 and reproduce both coordinates of the query. */
  lemma BilinearBasis(xi: real, xi1: real, xj: real, xj1: real, x: real, y: real, w: seq<real>)
    requires xi != xi1 && xj != xj1 && w == Weights2(xi, xi1, xj, xj1, x, y)
    ensures TensorWeights(xi, xi1, xj, xj1, x, y, w)
    ensures Reproduces(xi, xi1, xj, xj1, x, y, w)
  {
    var u0, u1 := Weight0(xi, xi1, x), Weight1(xi, xi1, x);
    var v0, v1 := Weight0(xj, xj1, y), Weight1(xj, xj1, y);
    Weight2Product(x, xi1, y, xj1, xi, xi1, xj, xj1);
    Weight2Product(x, xi, y, xj1, xi1, xi, xj, xj1);
    Weight2Product(x, xi1, y, xj, xi, xi1, xj1, xj);
    Weight2Product(x, xi, y, xj, xi1, xi, xj1, xj);
    LinearBasis(xi, xi1, x);
    LinearBasis(xj, xj1, y);
    TensorBasis(u0, u1, v0, v1, xi, xi1, xj, xj1, x, y);
  }

  /** Each of the four weights is the product of the 1-D bases along the two axes. */
  predicate TensorWeights(xi: real, xi1: real, xj: real, xj1: real, x: real, y: real, w: seq<real>)
    requires xi != xi1 && xj != xj1
  {
    |w| == 4 &&
    w[0] == Weight0(xi, xi1, x) * Weight0(xj, xj1, y) &&
    w[1] == Weight1(xi, xi1, x) * Weight0(xj, xj1, y) &&
    w[2] == Weight0(xi, xi1, x) * Weight1(xj, xj1, y) &&
    w[3] == Weight1(xi, xi1, x) * Weight1(xj, xj1, y)
  }

  /** The tensor product of two partitions of unity that reproduce x and y. */
  lemma TensorBasis(u0: real, u1: real, v0: real, v1: real, xi: real, xi1: real, xj: real, xj1: real, x: real, y: real)
    requires u0 + u1 == 1.0 && u0 * xi + u1 * xi1 == x
    requires v0 + v1 == 1.0 && v0 * xj + v1 * xj1 == y
    ensures u0 * v0 + u1 * v0 + u0 * v1 + u1 * v1 == 1.0
    ensures (u0 * v0) * xi + (u1 * v0) * xi1 + (u0 * v1) * xi + (u1 * v1) * xi1 == x
    ensures (u0 * v0) * xj + (u1 * v0) * xj + (u0 * v1) * xj1 + (u1 * v1) * xj1 == y
  {
    assert u0 * v0 + u1 * v0 + u0 * v1 + u1 * v1 == (u0 + u1) * (v0 + v1);
    assert (u0 * v0) * xi + (u1 * v0) * xi1 + (u0 * v1) * xi + (u1 * v1) * xi1 == (v0 + v1) * (u0 * xi + u1 * xi1);
    assert (u0 * v0) * xj + (u1 * v0) * xj + (u0 * v1) * xj1 + (u1 * v1) * xj1 == (u0 + u1) * (v0 * xj + v1 * xj1);
  }

  /** The corner columns are pairwise distinct cells of the nx-by-nx grid and decode back to
      (i, j), (i+1, j), (i, j+1), (i+1, j+1) under column = c % nx, row = c / nx. */
  lemma CornerIndices(nx: nat, i: nat, j: nat)
    requires i + 1 < nx && j + 1 < nx
    ensures var cs := Corners(nx, i, j);
      forall p :: 0 <= p < 4 ==> cs[p] < nx * nx
    ensures var cs := Corners(nx, i, j);
      forall p, q :: 0 <= p < q < 4 ==> cs[p] != cs[q]
    ensures var cs := Corners(nx, i, j);
      cs[0] % nx == i && cs[0] / nx == j && cs[1] % nx == i + 1 && cs[1] / nx == j &&
      cs[2] % nx == i && cs[2] / nx == j + 1 && cs[3] % nx == i + 1 && cs[3] / nx == j + 1
  {
    CellIndex(nx, i, j);
    CellIndex(nx, i + 1, j);
    CellIndex(nx, i, j + 1);
    CellIndex(nx, i + 1, j + 1);
  }

  // ---------------------------------------------------------------------------------------
  // One query row

  /** The triplets row k of the 1-D matrix gets for the query x. */
  function Row1(xin: seq<real>, x: real, k: nat): (r: Result<Triplets, SampleError>)
    ensures r.Ok? ==> Aligned(r.value) && InRow(r.value, k)
    ensures r.Ok? ==> forall p :: 0 <= p < |r.value.cl| ==> r.value.cl[p] < |xin|
  {
    match FirstAtLeast(xin, x)
    case None => Err(IndexOutOfRange)
    case Some(i) =>
      if i < |xin| - 1 then
        if xin[i] == xin[i + 1] then Err(ZeroDivision)
        else Ok(Triplets([k, k], [i, i + 1], [Weight0(xin[i], xin[i + 1], x), Weight1(xin[i], xin[i + 1], x)]))
      else Ok(NoTriplets)
  }

  /** The triplets row k of the 2-D matrix gets for the query (xout1[k], xout2[k]). */
  function Row2(xin: seq<real>, xout1: seq<real>, xout2: seq<real>, k: nat): (r: Result<Triplets, SampleError>)
    requires k < |xout1|
    ensures r.Ok? ==> Aligned(r.value) && InRow(r.value, k)
    ensures r.Ok? ==> forall p :: 0 <= p < |r.value.cl| ==> r.value.cl[p] < |xin| * |xin|
  {
    match FirstAtLeast(xin, xout1[k])
    case None => Err(IndexOutOfRange)
    case Some(i) =>
      if k >= |xout2| then Err(IndexOutOfRange)
      else match FirstAtLeast(xin, xout2[k])
        case None => Err(IndexOutOfRange)
        case Some(j) =>
          if i < |xin| - 1 && j < |xin| - 1 then
            if xin[i] == xin[i + 1] || xin[j] == xin[j + 1] then Err(ZeroDivision)
            else
              CornerIndices(|xin|, i, j);
              Ok(Triplets([k, k, k, k], Corners(|xin|, i, j),
                          Weights2(xin[i], xin[i + 1], xin[j], xin[j + 1], xout1[k], xout2[k])))
          else Ok(NoTriplets)
  }

  /** sample works in 2-D exactly when xout2 is non-empty. */
  predicate TwoD(xout2: seq<real>)
  {
    |xout2| > 0
  }

  /** Number of columns of the matrix: nx, or nx * nx on the tensor grid. */
  function Width(xin: seq<real>, xout2: seq<real>): nat
  {
    if TwoD(xout2) then |xin| * |xin| else |xin|
  }

  function Row(xin: seq<real>, xout1: seq<real>, xout2: seq<real>, k: nat): (r: Result<Triplets, SampleError>)
    requires k < |xout1|
    ensures r.Ok? ==> Aligned(r.value) && InRow(r.value, k)
    ensures r.Ok? ==> forall p :: 0 <= p < |r.value.cl| ==> r.value.cl[p] < Width(xin, xout2)
  {
    if TwoD(xout2) then Row2(xin, xout1, xout2, k) else Row1(xin, xout1[k], k)
  }

  /** The lists after the first `count` queries: rows appended in order, the first error
      aborting the whole call. */
  function Rows(xin: seq<real>, xout1: seq<real>, xout2: seq<real>, count: nat): (r: Result<Triplets, SampleError>)
    requires count <= |xout1|
    ensures r.Ok? ==> Aligned(r.value)
    ensures r.Ok? ==> forall p :: 0 <= p < |r.value.rw| ==> r.value.rw[p] < count
    ensures r.Ok? ==> forall p :: 0 <= p < |r.value.cl| ==> r.value.cl[p] < Width(xin, xout2)
    decreases count
  {
    if count == 0 then Ok(NoTriplets)
    else
      match Rows(xin, xout1, xout2, count - 1)
      case Err(e) => Err(e)
      case Ok(done) =>
        match Row(xin, xout1, xout2, count - 1)
        case Err(e) => Err(e)
        case Ok(t) => Ok(Concat(done, t))
  }

  /** The matrix sample returns, or the exception it raises. */
  function SampleSpec(xin: seq<real>, xout1: seq<real>, xout2: seq<real>): (r: Result<Coo, SampleError>)
    ensures r.Ok? ==> r.value.rows == |xout1| && r.value.cols == Width(xin, xout2) && Aligned(r.value.entries)
    ensures r.Ok? ==> forall p :: 0 <= p < |r.value.entries.rw| ==>
      r.value.entries.rw[p] < r.value.rows && r.value.entries.cl[p] < r.value.cols
  {
    match Rows(xin, xout1, xout2, |xout1|)
    case Err(e) => Err(e)
    case Ok(t) => Ok(Coo(|xout1|, Width(xin, xout2), t))
  }

  /** Once a query fails, every longer run fails with the same error. */
  lemma {:induction false} RowsErrSticky(xin: seq<real>, xout1: seq<real>, xout2: seq<real>, k: nat, count: nat)
    requires k <= count <= |xout1|
    requires Rows(xin, xout1, xout2, k).Err?
    ensures Rows(xin, xout1, xout2, count) == Rows(xin, xout1, xout2, k)
    decreases count
  {
    if count > k {
      RowsErrSticky(xin, xout1, xout2, k, count - 1);
    }
  }

  // ---------------------------------------------------------------------------------------
  // The builder

  /** sample: scan each query, append its triplets to rw, cl, nz, and wrap them in a
      coordinate matrix of shape (m, nx) or (m, nx * nx). */
  method Sample(xin: seq<real>, xout1: seq<real>, xout2: seq<real>) returns (r: Result<Coo, SampleError>)
    ensures r == SampleSpec(xin, xout1, xout2)
  {
    var m := |xout1|;
    var rw: seq<nat>, cl: seq<nat>, nz: seq<real> := [], [], [];
    var k := 0;
    while k < m
      invariant k <= m
      invariant Rows(xin, xout1, xout2, k) == Ok(Triplets(rw, cl, nz))
    {
      var appended;
      if !TwoD(xout2) {
        appended := AppendLineRow(xin, xout1, xout2, k, Triplets(rw, cl, nz));
      } else {
        appended := AppendGridRow(xin, xout1, xout2, k, Triplets(rw, cl, nz));
      }
      if appended.Err? {
        RowsErrSticky(xin, xout1, xout2, k + 1, m);
        return Err(appended.error);
      }
      rw, cl, nz := appended.value.rw, appended.value.cl, appended.value.nz;
      k := k + 1;
    }
    r := Ok(Coo(m, Width(xin, xout2), Triplets(rw, cl, nz)));
  }

  /** What one pass of the k loop leaves in the lists: the row's triplets appended, or the
      exception the row raises. */
  function Appended(before: Triplets, row: Result<Triplets, SampleError>): Result<Triplets, SampleError>
  {
    match row
    case Err(e) => Err(e)
    case Ok(t) => Ok(Concat(before, t))
  }

  /** One pass of the 1-D loop: scan for the bracket of xout1[k] and append its two
      triplets. */
  method AppendLineRow(xin: seq<real>, xout1: seq<real>, xout2: seq<real>, k: nat, before: Triplets)
    returns (r: Result<Triplets, SampleError>)
    requires k < |xout1| && !TwoD(xout2)
    ensures r == Appended(before, Row(xin, xout1, xout2, k))
  {
    var nx := |xin|;
    var rw, cl, nz := before.rw, before.cl, before.nz;
    var found := Scan(xin, xout1[k]);
    if found.None? {
      return Err(IndexOutOfRange);
    }
    var i := found.value;
    if i < nx - 1 {
      if xin[i] == xin[i + 1] {
        return Err(ZeroDivision);
      }
      var a := (xout1[k] - xin[i + 1]) / (xin[i] - xin[i + 1]);
      var b := (xout1[k] - xin[i]) / (xin[i + 1] - xin[i]);
      rw, cl, nz := rw + [k], cl + [i], nz + [a];
      rw, cl, nz := rw + [k], cl + [i + 1], nz + [b];
      assert Row1(xin, xout1[k], k) == Ok(Triplets([k, k], [i, i + 1], [a, b]));
      assert Triplets(rw, cl, nz) == Concat(before, Triplets([k, k], [i, i + 1], [a, b]));
    } else {
      assert Concat(before, NoTriplets) == before;
    }
    r := Ok(Triplets(rw, cl, nz));
  }

  /** One pass of the 2-D loop: scan for the brackets of xout1[k] and xout2[k] and append the
      four corner triplets. */
  method AppendGridRow(xin: seq<real>, xout1: seq<real>, xout2: seq<real>, k: nat, before: Triplets)
    returns (r: Result<Triplets, SampleError>)
    requires k < |xout1| && TwoD(xout2)
    ensures r == Appended(before, Row(xin, xout1, xout2, k))
  {
    var nx := |xin|;
    var rw, cl, nz := before.rw, before.cl, before.nz;
    var found := Scan(xin, xout1[k]);
    if found.None? || k >= |xout2| {
      return Err(IndexOutOfRange);
    }
    var foundJ := Scan(xin, xout2[k]);
    if foundJ.None? {
      return Err(IndexOutOfRange);
    }
    var i, j := found.value, foundJ.value;
    if i < nx - 1 && j < nx - 1 {
      if xin[i] == xin[i + 1] || xin[j] == xin[j + 1] {
        return Err(ZeroDivision);
      }
      var x, y := xout1[k], xout2[k];
      var w := Weights2(xin[i], xin[i + 1], xin[j], xin[j + 1], x, y);
      var a, b, c, d := w[0], w[1], w[2], w[3];
      var cs := Corners(nx, i, j);
      rw, cl, nz := rw + [k], cl + [cs[0]], nz + [a];
      rw, cl, nz := rw + [k], cl + [cs[1]], nz + [b];
      rw, cl, nz := rw + [k], cl + [cs[2]], nz + [c];
      rw, cl, nz := rw + [k], cl + [cs[3]], nz + [d];
      assert [a, b, c, d] == w;
      assert Row2(xin, xout1, xout2, k) == Ok(Triplets([k, k, k, k], cs, [a, b, c, d]));
      assert Triplets(rw, cl, nz) == Concat(before, Triplets([k, k, k, k], cs, [a, b, c, d]));
    } else {
      assert Concat(before, NoTriplets) == before;
    }
    r := Ok(Triplets(rw, cl, nz));
  }

  // ---------------------------------------------------------------------------------------
  // What the rows mean

  /** What one row gets in 1-D, for the bracket i the scan finds: the two triplets (k, i)
      and (k, i+1) when i is below nx-1 and none otherwise; the weights sum to 1, reproduce
      the query, and are (1, 0) when the query is the node xin[i]. */
  lemma Row1Entries(xin: seq<real>, x: real, k: nat, i: nat, t: Triplets)
    requires FirstAtLeast(xin, x) == Some(i) && Row1(xin, x, k) == Ok(t)
    ensures i < |xin| - 1 ==>
      t.rw == [k, k] && t.cl == [i, i + 1] && |t.nz| == 2 &&
      t.nz[0] + t.nz[1] == 1.0 && t.nz[0] * xin[i] + t.nz[1] * xin[i + 1] == x &&
      (x == xin[i] ==> t.nz == [1.0, 0.0])
    ensures i >= |xin| - 1 ==> t == NoTriplets
  {
    if i < |xin| - 1 {
      LinearBasis(xin[i], xin[i + 1], x);
    }
  }

  /** What one row gets in 2-D, for the brackets i and j the two scans find: four triplets
      only when both are below nx-1, at pairwise distinct corner columns of the nx-by-nx grid,
      weighted by the bilinear weights of the cell (see BilinearBasis). */
  lemma Row2Entries(xin: seq<real>, xout1: seq<real>, xout2: seq<real>, k: nat, i: nat, j: nat, t: Triplets)
    requires k < |xout1| && k < |xout2|
    requires FirstAtLeast(xin, xout1[k]) == Some(i) && FirstAtLeast(xin, xout2[k]) == Some(j)
    requires Row2(xin, xout1, xout2, k) == Ok(t)
    ensures i < |xin| - 1 && j < |xin| - 1 ==>
      t.rw == [k, k, k, k] &&
      t.cl == [i + |xin| * j, i + 1 + |xin| * j, i + |xin| * (j + 1), i + 1 + |xin| * (j + 1)] &&
      (forall p, q :: 0 <= p < q < 4 ==> t.cl[p] != t.cl[q]) &&
      (forall p :: 0 <= p < 4 ==> t.cl[p] < |xin| * |xin|) &&
      xin[i] != xin[i + 1] && xin[j] != xin[j + 1] &&
      t.nz == Weights2(xin[i], xin[i + 1], xin[j], xin[j + 1], xout1[k], xout2[k])
    ensures !(i < |xin| - 1 && j < |xin| - 1) ==> t == NoTriplets
  {
    if i < |xin| - 1 && j < |xin| - 1 {
      CornerIndices(|xin|, i, j);
    }
  }

  /** The triplets of row k, in the order they were appended. */
  function RowOf(t: Triplets, k: nat): (r: Triplets)
    requires Aligned(t)
    ensures Aligned(r) && InRow(r, k) && |r.rw| <= |t.rw|
    decreases |t.rw|
  {
    if |t.rw| == 0 then NoTriplets
    else
      var n := |t.rw| - 1;
      var rest := RowOf(Front(t), k);
      if t.rw[n] == k then Concat(rest, Triplets([k], [t.cl[n]], [t.nz[n]])) else rest
  }

  /** Taking a row commutes with appending. */
  lemma {:induction false} RowOfConcat(t: Triplets, u: Triplets, k: nat)
    requires Aligned(t) && Aligned(u)
    ensures RowOf(Concat(t, u), k) == Concat(RowOf(t, k), RowOf(u, k))
    decreases |u.rw|
  {
    var tu := Concat(t, u);
    if |u.rw| == 0 {
      assert u == NoTriplets;
      ConcatNone(t);
      ConcatNone(RowOf(t, k));
    } else {
      var n, m := |tu.rw| - 1, |u.rw| - 1;
      FrontConcat(t, u);
      RowOfConcat(t, Front(u), k);
      assert tu.rw[n] == u.rw[m] && tu.cl[n] == u.cl[m] && tu.nz[n] == u.nz[m];
      if u.rw[m] == k {
        ConcatAssoc(RowOf(t, k), RowOf(Front(u), k), Triplets([k], [u.cl[m]], [u.nz[m]]));
      }
    }
  }

  /** Dropping the last triplet of t ++ u, for u non-empty, drops it from u. */
  lemma FrontConcat(t: Triplets, u: Triplets)
    requires Aligned(t) && Aligned(u) && |u.rw| > 0
    ensures Front(Concat(t, u)) == Concat(t, Front(u))
  {
    var n, m := |t.rw| + |u.rw| - 1, |u.rw| - 1;
    assert (t.rw + u.rw)[..n] == t.rw + u.rw[..m];
    assert (t.cl + u.cl)[..n] == t.cl + u.cl[..m];
    assert (t.nz + u.nz)[..n] == t.nz + u.nz[..m];
  }

  lemma ConcatAssoc(a: Triplets, b: Triplets, c: Triplets)
    ensures Concat(Concat(a, b), c) == Concat(a, Concat(b, c))
  {
    assert (a.rw + b.rw) + c.rw == a.rw + (b.rw + c.rw);
    assert (a.cl + b.cl) + c.cl == a.cl + (b.cl + c.cl);
    assert (a.nz + b.nz) + c.nz == a.nz + (b.nz + c.nz);
  }

  /** The last triplet on its own. */
  function Last(t: Triplets): (r: Triplets)
    requires Aligned(t) && |t.rw| > 0
    ensures Aligned(r) && |r.rw| == 1
  {
    var n := |t.rw| - 1;
    Triplets([t.rw[n]], [t.cl[n]], [t.nz[n]])
  }

  /** Splitting off the last triplet and putting it back gives the same lists. */
  lemma FrontLast(t: Triplets)
    requires Aligned(t) && |t.rw| > 0
    ensures Concat(Front(t), Last(t)) == t
  {
    var n := |t.rw| - 1;
    assert t.rw[..n] + [t.rw[n]] == t.rw;
    assert t.cl[..n] + [t.cl[n]] == t.cl;
    assert t.nz[..n] + [t.nz[n]] == t.nz;
  }

  /** Taking a row of a block that lies in one row gives the block or nothing. */
  lemma {:induction false} RowOfInRow(t: Triplets, row: nat, k: nat)
    requires Aligned(t) && InRow(t, row)
    ensures RowOf(t, k) == if k == row then t else NoTriplets
    decreases |t.rw|
  {
    if |t.rw| > 0 {
      var n := |t.rw| - 1;
      var f := Front(t);
      assert InRow(f, row) by {
        forall p | 0 <= p < |f.rw|
          ensures f.rw[p] == row
        {
          assert f.rw[p] == t.rw[p];
        }
      }
      RowOfInRow(f, row, k);
      assert t.rw[n] == row;
      if k == row {
        assert RowOf(t, k) == Concat(f, Last(t));
        FrontLast(t);
      } else {
        assert RowOf(t, k) == RowOf(f, k);
      }
    }
  }

  /** Appending the block of row `last` adds that block to row `last` and leaves every other
      row as it was. */
  lemma RowOfAppend(done: Triplets, row: Triplets, last: nat, k: nat)
    requires Aligned(done) && Aligned(row) && InRow(row, last)
    requires RowOf(done, last) == NoTriplets
    ensures RowOf(Concat(done, row), k) == if k == last then row else RowOf(done, k)
  {
    RowOfConcat(done, row, k);
    RowOfInRow(row, last, k);
    var before := RowOf(done, k);
    if k == last {
      ConcatNone(row);
    } else {
      ConcatNone(before);
    }
  }

  /** No triplets is a unit of Concat on either side. */
  lemma ConcatNone(t: Triplets)
    ensures Concat(NoTriplets, t) == t && Concat(t, NoTriplets) == t
  {
    assert [] + t.rw == t.rw && t.rw + [] == t.rw;
    assert [] + t.cl == t.cl && t.cl + [] == t.cl;
    assert [] + t.nz == t.nz && t.nz + [] == t.nz;
  }

  /** After `count` queries, row k of the lists is exactly what query k contributed, and rows
      not yet reached are empty. */
  lemma {:induction false} RowsRowOf(xin: seq<real>, xout1: seq<real>, xout2: seq<real>, count: nat, k: nat)
    requires count <= |xout1| && Rows(xin, xout1, xout2, count).Ok?
    ensures k < count ==> (Row(xin, xout1, xout2, k).Ok? &&
      RowOf(Rows(xin, xout1, xout2, count).value, k) == Row(xin, xout1, xout2, k).value)
    ensures k >= count ==> RowOf(Rows(xin, xout1, xout2, count).value, k) == NoTriplets
    decreases count
  {
    if count > 0 {
      var done := Rows(xin, xout1, xout2, count - 1).value;
      var row := Row(xin, xout1, xout2, count - 1).value;
      assert Rows(xin, xout1, xout2, count).value == Concat(done, row);
      RowsRowOf(xin, xout1, xout2, count - 1, k);
      RowsRowOf(xin, xout1, xout2, count - 1, count - 1);
      RowOfAppend(done, row, count - 1, k);
    }
  }

  /** Row k of the matrix sample returns holds exactly the triplets query k produces. */
  lemma SampleRow(xin: seq<real>, xout1: seq<real>, xout2: seq<real>, k: nat)
    requires SampleSpec(xin, xout1, xout2).Ok? && k < |xout1|
    ensures Row(xin, xout1, xout2, k).Ok?
    ensures RowOf(SampleSpec(xin, xout1, xout2).value.entries, k) == Row(xin, xout1, xout2, k).value
  {
    RowsRowOf(xin, xout1, xout2, |xout1|, k);
  }

  /** The sum of nz[p] * v[cl[p]] over the triplets: for the triplets of row k, entry k of the
      coordinate matrix times v (duplicates add up, as in coo_matrix). */
  function Apply(t: Triplets, v: seq<real>): real
    requires Aligned(t)
    decreases |t.rw|
  {
    if |t.rw| == 0 then 0.0
    else
      var n := |t.rw| - 1;
      Apply(Front(t), v) + Term(t.nz[n], t.cl[n], v)
  }

  /** One triplet's contribution: its weight times the entry of v in its column. */
  function Term(w: real, c: nat, v: seq<real>): real
  {
    if c < |v| then w * v[c] else 0.0
  }

  /** Entry k of P @ v. */
  function MatVec(P: Coo, v: seq<real>, k: nat): real
    requires Aligned(P.entries)
  {
    Apply(RowOf(P.entries, k), v)
  }

  lemma ApplyPair(k: nat, c0: nat, c1: nat, w0: real, w1: real, v: seq<real>)
    requires c0 < |v| && c1 < |v|
    ensures Apply(Triplets([k, k], [c0, c1], [w0, w1]), v) == w0 * v[c0] + w1 * v[c1]
  {
    var t2 := Triplets([k, k], [c0, c1], [w0, w1]);
    var t1 := Front(t2);
    assert Apply(t2, v) == Apply(t1, v) + Term(w1, c1, v);
    assert Apply(t1, v) == Apply(Front(t1), v) + Term(w0, c0, v);
    assert Apply(Front(t1), v) == 0.0;
  }

  /** A row of four triplets applied to v, where e lists the entries of v the four columns pick
      and r is the weighted sum of those entries. */
  lemma ApplyQuad(k: nat, cs: seq<nat>, ws: seq<real>, v: seq<real>, e: seq<real>, r: real)
    requires |cs| == 4 && |ws| == 4 && |e| == 4
    requires cs[0] < |v| && cs[1] < |v| && cs[2] < |v| && cs[3] < |v|
    requires v[cs[0]] == e[0] && v[cs[1]] == e[1] && v[cs[2]] == e[2] && v[cs[3]] == e[3]
    requires ws[0] * e[0] + ws[1] * e[1] + ws[2] * e[2] + ws[3] * e[3] == r
    ensures Apply(Triplets([k, k, k, k], cs, ws), v) == r
  {
    var t4 := Triplets([k, k, k, k], cs, ws);
    var t3 := Front(t4);
    var t2 := Front(t3);
    var t1 := Front(t2);
    assert Apply(t4, v) == Apply(t3, v) + Term(ws[3], cs[3], v);
    assert Apply(t3, v) == Apply(t2, v) + Term(ws[2], cs[2], v);
    assert Apply(t2, v) == Apply(t1, v) + Term(ws[1], cs[1], v);
    assert Apply(t1, v) == Apply(Front(t1), v) + Term(ws[0], cs[0], v);
    assert Apply(Front(t1), v) == 0.0;
    assert Term(ws[0], cs[0], v) == ws[0] * e[0];
    assert Term(ws[1], cs[1], v) == ws[1] * e[1];
    assert Term(ws[2], cs[2], v) == ws[2] * e[2];
    assert Term(ws[3], cs[3], v) == ws[3] * e[3];
  }

  function Ones(n: nat): (r: seq<real>)
    ensures |r| == n && forall p :: 0 <= p < n ==> r[p] == 1.0
  {
    seq(n, _ => 1.0)
  }

  /** The first coordinate of every node of the nx-by-nx grid, in row-major order. */
  function XGrid(xin: seq<real>): (r: seq<real>)
    ensures |r| == |xin| * |xin|
  {
    XRows(xin, |xin|)
  }

  /** The second coordinate of every node of the nx-by-nx grid, in row-major order. */
  function YGrid(xin: seq<real>): (r: seq<real>)
    ensures |r| == |xin| * |xin|
  {
    YRows(xin, |xin|)
  }

  /** The first `rows` grid rows of XGrid: each row runs through xin. */
  function XRows(xin: seq<real>, rows: nat): (r: seq<real>)
    ensures |r| == rows * |xin|
  {
    if rows == 0 then [] else XRows(xin, rows - 1) + xin
  }

  /** The first `rows` grid rows of YGrid: row b holds xin[b] throughout. */
  function YRows(xin: seq<real>, rows: nat): (r: seq<real>)
    requires rows <= |xin|
    ensures |r| == rows * |xin|
  {
    if rows == 0 then [] else YRows(xin, rows - 1) + seq(|xin|, _ => xin[rows - 1])
  }

  /** Node (a, b) of the first `rows` grid rows sits at Cell(nx, a, b), with coordinates
      (xin[a], xin[b]). */
  lemma {:induction false} RowsAt(xin: seq<real>, rows: nat, a: nat, b: nat)
    requires rows <= |xin| && a < |xin| && b < rows
    ensures Cell(|xin|, a, b) < rows * |xin|
    ensures XRows(xin, rows)[Cell(|xin|, a, b)] == xin[a]
    ensures YRows(xin, rows)[Cell(|xin|, a, b)] == xin[b]
    decreases rows
  {
    var nx := |xin|;
    var front := (rows - 1) * nx;
    assert rows * nx == front + nx;
    if b == rows - 1 {
      assert Cell(nx, a, b) == front + a;
    } else {
      RowsAt(xin, rows - 1, a, b);
    }
  }

  /** In 1-D the matrix interpolates: for a query whose bracket i is below nx-1, applied to
      the nodes themselves it gives back the query and applied to all-ones it gives 1; the
      rows of the other queries are empty. */
  lemma SampleInterpolatesLine(xin: seq<real>, xout1: seq<real>, xout2: seq<real>, k: nat, i: nat, P: Coo)
    requires !TwoD(xout2) && SampleSpec(xin, xout1, xout2) == Ok(P) && k < |xout1|
    requires FirstAtLeast(xin, xout1[k]) == Some(i)
    ensures i < |xin| - 1 ==> MatVec(P, xin, k) == xout1[k] && MatVec(P, Ones(|xin|), k) == 1.0
    ensures i >= |xin| - 1 ==> RowOf(P.entries, k) == NoTriplets
  {
    SampleRow(xin, xout1, xout2, k);
    var t := Row1(xin, xout1[k], k).value;
    Row1Entries(xin, xout1[k], k, i, t);
    assert RowOf(P.entries, k) == t;
    if i < |xin| - 1 {
      PairInterpolates(t, k, i, xin, xout1[k]);
    }
  }

  /** Two triplets whose weights sum to 1 and reproduce x at the nodes they sit on. */
  lemma PairInterpolates(t: Triplets, k: nat, i: nat, xin: seq<real>, x: real)
    requires i + 1 < |xin|
    requires t.rw == [k, k] && t.cl == [i, i + 1] && |t.nz| == 2
    requires t.nz[0] + t.nz[1] == 1.0 && t.nz[0] * xin[i] + t.nz[1] * xin[i + 1] == x
    ensures Apply(t, xin) == x && Apply(t, Ones(|xin|)) == 1.0
  {
    var a, b := t.nz[0], t.nz[1];
    assert t == Triplets([k, k], [i, i + 1], [a, b]);
    ApplyPair(k, i, i + 1, a, b, xin);
    ApplyPair(k, i, i + 1, a, b, Ones(|xin|));
  }

  /** In 2-D the matrix interpolates bilinearly: for a query whose brackets i and j are below
      nx-1, applied to the two coordinate fields of the grid it gives back both coordinates
      of the query, and applied to all-ones it gives 1; the rows of the other queries are
      empty. */
  lemma SampleInterpolatesGrid(xin: seq<real>, xout1: seq<real>, xout2: seq<real>, k: nat, i: nat, j: nat, P: Coo)
    requires TwoD(xout2) && SampleSpec(xin, xout1, xout2) == Ok(P) && k < |xout1| && k < |xout2|
    requires FirstAtLeast(xin, xout1[k]) == Some(i) && FirstAtLeast(xin, xout2[k]) == Some(j)
    ensures i < |xin| - 1 && j < |xin| - 1 ==>
      MatVec(P, XGrid(xin), k) == xout1[k] && MatVec(P, YGrid(xin), k) == xout2[k] &&
      MatVec(P, Ones(|xin| * |xin|), k) == 1.0
    ensures !(i < |xin| - 1 && j < |xin| - 1) ==> RowOf(P.entries, k) == NoTriplets
  {
    SampleRow(xin, xout1, xout2, k);
    var t := Row2(xin, xout1, xout2, k).value;
    Row2Entries(xin, xout1, xout2, k, i, j, t);
    assert RowOf(P.entries, k) == t;
    if i < |xin| - 1 && j < |xin| - 1 {
      QuadInterpolates(t, k, i, j, xin, xout1[k], xout2[k]);
    }
  }

  /** The four corner triplets of cell (i, j) whose weights sum to 1 and reproduce (x, y). */
  lemma QuadInterpolates(t: Triplets, k: nat, i: nat, j: nat, xin: seq<real>, x: real, y: real)
    requires i + 1 < |xin| && j + 1 < |xin| && xin[i] != xin[i + 1] && xin[j] != xin[j + 1]
    requires t.rw == [k, k, k, k] && t.cl == Corners(|xin|, i, j)
    requires t.nz == Weights2(xin[i], xin[i + 1], xin[j], xin[j + 1], x, y)
    ensures Apply(t, XGrid(xin)) == x && Apply(t, YGrid(xin)) == y && Apply(t, Ones(|xin| * |xin|)) == 1.0
  {
    BilinearBasis(xin[i], xin[i + 1], xin[j], xin[j + 1], x, y, t.nz);
    assert t == Triplets([k, k, k, k], t.cl, t.nz);
    CornersApply(k, i, j, xin, t.nz, x, y);
  }

  /** The coordinate fields and all-ones read at the four corners of cell (i, j). */
  lemma CornerValues(xin: seq<real>, i: nat, j: nat, cs: seq<nat>)
    requires i + 1 < |xin| && j + 1 < |xin| && cs == Corners(|xin|, i, j)
    ensures cs[0] < |XGrid(xin)| && cs[1] < |XGrid(xin)| && cs[2] < |XGrid(xin)| && cs[3] < |XGrid(xin)|
    ensures XGrid(xin)[cs[0]] == xin[i] && XGrid(xin)[cs[1]] == xin[i + 1]
    ensures XGrid(xin)[cs[2]] == xin[i] && XGrid(xin)[cs[3]] == xin[i + 1]
    ensures YGrid(xin)[cs[0]] == xin[j] && YGrid(xin)[cs[1]] == xin[j]
    ensures YGrid(xin)[cs[2]] == xin[j + 1] && YGrid(xin)[cs[3]] == xin[j + 1]
    ensures Ones(|xin| * |xin|)[cs[0]] == 1.0 && Ones(|xin| * |xin|)[cs[1]] == 1.0
    ensures Ones(|xin| * |xin|)[cs[2]] == 1.0 && Ones(|xin| * |xin|)[cs[3]] == 1.0
  {
    var i1, j1 := i + 1, j + 1;
    assert cs[0] == Cell(|xin|, i, j) && cs[1] == Cell(|xin|, i1, j);
    assert cs[2] == Cell(|xin|, i, j1) && cs[3] == Cell(|xin|, i1, j1);
    GridAt(xin, i, j);
    GridAt(xin, i1, j);
    GridAt(xin, i, j1);
    GridAt(xin, i1, j1);
  }

  /** The coordinate fields and all-ones read at grid node (a, b). */
  lemma GridAt(xin: seq<real>, a: nat, b: nat)
    requires a < |xin| && b < |xin|
    ensures Cell(|xin|, a, b) < |XGrid(xin)| && XGrid(xin)[Cell(|xin|, a, b)] == xin[a]
    ensures YGrid(xin)[Cell(|xin|, a, b)] == xin[b]
    ensures Ones(|xin| * |xin|)[Cell(|xin|, a, b)] == 1.0
  {
    RowsAt(xin, |xin|, a, b);
  }

  /** Weights that sum to 1 and reproduce (x, y) on the corners of cell (i, j) make the
      four corner triplets reproduce x, y and 1 from the coordinate fields and all-ones. */
  lemma CornersApply(k: nat, i: nat, j: nat, xin: seq<real>, w: seq<real>, x: real, y: real)
    requires i + 1 < |xin| && j + 1 < |xin| && |w| == 4
    requires w[0] + w[1] + w[2] + w[3] == 1.0
    requires w[0] * xin[i] + w[1] * xin[i + 1] + w[2] * xin[i] + w[3] * xin[i + 1] == x
    requires w[0] * xin[j] + w[1] * xin[j] + w[2] * xin[j + 1] + w[3] * xin[j + 1] == y
    ensures var t := Triplets([k, k, k, k], Corners(|xin|, i, j), w);
      Apply(t, XGrid(xin)) == x && Apply(t, YGrid(xin)) == y && Apply(t, Ones(|xin| * |xin|)) == 1.0
  {
    var nx := |xin|;
    var cs := Corners(nx, i, j);
    var X, Y, I := XGrid(xin), YGrid(xin), Ones(nx * nx);
    CornerValues(xin, i, j, cs);
    ApplyQuad(k, cs, w, X, [xin[i], xin[i + 1], xin[i], xin[i + 1]], x);
    ApplyQuad(k, cs, w, Y, [xin[j], xin[j], xin[j + 1], xin[j + 1]], y);
    assert w[0] * 1.0 + w[1] * 1.0 + w[2] * 1.0 + w[3] * 1.0 == 1.0;
    ApplyQuad(k, cs, w, I, [1.0, 1.0, 1.0, 1.0], 1.0);
  }

  // ---------------------------------------------------------------------------------------
  // When sample succeeds

  predicate StrictlyIncreasing(xin: seq<real>)
  {
    forall p, q :: 0 <= p < q < |xin| ==> xin[p] < xin[q]
  }

  /** x does not lie beyond the last node, so the scan stops inside xin. */
  predicate Covered(xin: seq<real>, x: real)
  {
    |xin| > 0 && x <= xin[|xin| - 1]
  }

  /** Every one of the first `count` queries has its coordinates covered. */
  predicate QueriesCovered(xin: seq<real>, xout1: seq<real>, xout2: seq<real>, count: nat)
    requires count <= |xout1|
  {
    forall k :: 0 <= k < count ==> QueryCovered(xin, xout1, xout2, k)
  }

  /** Query k has its coordinates covered (and, in 2-D, an entry in xout2). */
  predicate QueryCovered(xin: seq<real>, xout1: seq<real>, xout2: seq<real>, k: nat)
    requires k < |xout1|
  {
    Covered(xin, xout1[k]) && (TwoD(xout2) ==> k < |xout2| && Covered(xin, xout2[k]))
  }

  lemma QueriesCoveredStep(xin: seq<real>, xout1: seq<real>, xout2: seq<real>, count: nat)
    requires 0 < count <= |xout1|
    ensures QueriesCovered(xin, xout1, xout2, count) <==>
      QueriesCovered(xin, xout1, xout2, count - 1) && QueryCovered(xin, xout1, xout2, count - 1)
  {
  }

  /** On increasing nodes the scan finds a bracket exactly when x is covered. */
  lemma ScanFinds(xin: seq<real>, x: real)
    requires StrictlyIncreasing(xin)
    ensures FirstAtLeast(xin, x).Some? <==> Covered(xin, x)
  {
    if FirstAtLeast(xin, x).Some? {
      var i := FirstAtLeast(xin, x).value;
      if i < |xin| - 1 {
        assert xin[i] < xin[|xin| - 1];
      }
    }
  }

  lemma RowSucceeds(xin: seq<real>, xout1: seq<real>, xout2: seq<real>, k: nat)
    requires StrictlyIncreasing(xin) && k < |xout1|
    ensures Row(xin, xout1, xout2, k).Ok? <==> QueryCovered(xin, xout1, xout2, k)
    ensures Row(xin, xout1, xout2, k).Err? ==> Row(xin, xout1, xout2, k).error == IndexOutOfRange
  {
    ScanFinds(xin, xout1[k]);
    if k < |xout2| {
      ScanFinds(xin, xout2[k]);
    }
  }

  /** The results of the first `count` queries taken one by one, in query order. */
  function RowResults(xin: seq<real>, xout1: seq<real>, xout2: seq<real>, count: nat): (r: seq<Result<Triplets, SampleError>>)
    requires count <= |xout1|
    ensures |r| == count
    decreases count
  {
    if count == 0 then [] else RowResults(xin, xout1, xout2, count - 1) + [Row(xin, xout1, xout2, count - 1)]
  }

  lemma {:induction false} RowResultsAt(xin: seq<real>, xout1: seq<real>, xout2: seq<real>, count: nat, k: nat)
    requires k < count <= |xout1|
    ensures RowResults(xin, xout1, xout2, count)[k] == Row(xin, xout1, xout2, k)
    decreases count
  {
    if k < count - 1 {
      RowResultsAt(xin, xout1, xout2, count - 1, k);
    }
  }

  /** The exception of the first failing result, scanning from the front. */
  function FirstError(rs: seq<Result<Triplets, SampleError>>): (r: Option<SampleError>)
    ensures r.None? <==> forall i :: 0 <= i < |rs| ==> rs[i].Ok?
    ensures r.Some? ==> exists i :: 0 <= i < |rs| && rs[i] == Err(r.value) && forall j :: 0 <= j < i ==> rs[j].Ok?
  {
    if |rs| == 0 then None
    else if rs[0].Err? then Some(rs[0].error)
    else
      var r := FirstError(rs[1..]);
      assert r.Some? ==> exists i :: 0 <= i < |rs| && rs[i] == Err(r.value) && forall j :: 0 <= j < i ==> rs[j].Ok? by {
        if r.Some? {
          var i :| 0 <= i < |rs| - 1 && rs[1..][i] == Err(r.value) && forall j :: 0 <= j < i ==> rs[1..][j].Ok?;
          assert forall j :: 0 <= j < i + 1 ==> rs[j].Ok? by {
            forall j | 0 <= j < i + 1 ensures rs[j].Ok? {
              if j > 0 { assert rs[j] == rs[1..][j - 1]; }
            }
          }
        }
      }
      r
  }

  /** Appending a result changes the first error only when there was none. */
  lemma {:induction false} FirstErrorSnoc(rs: seq<Result<Triplets, SampleError>>, x: Result<Triplets, SampleError>)
    ensures FirstError(rs + [x]) == if FirstError(rs).Some? then FirstError(rs) else if x.Err? then Some(x.error) else None
    decreases |rs|
  {
    if |rs| > 0 {
      assert (rs + [x])[1..] == rs[1..] + [x];
      FirstErrorSnoc(rs[1..], x);
    }
  }

  /** sample raises exactly the exception of the first query that fails. */
  lemma {:induction false} RowsFirstError(xin: seq<real>, xout1: seq<real>, xout2: seq<real>, count: nat)
    requires count <= |xout1|
    ensures Rows(xin, xout1, xout2, count).Err? <==> FirstError(RowResults(xin, xout1, xout2, count)).Some?
    ensures Rows(xin, xout1, xout2, count).Err? ==>
      Rows(xin, xout1, xout2, count).error == FirstError(RowResults(xin, xout1, xout2, count)).value
    decreases count
  {
    if count > 0 {
      RowsFirstError(xin, xout1, xout2, count - 1);
      RowsStep(xin, xout1, xout2, count);
      FirstErrorSnoc(RowResults(xin, xout1, xout2, count - 1), Row(xin, xout1, xout2, count - 1));
    }
  }

  lemma RowsSucceed(xin: seq<real>, xout1: seq<real>, xout2: seq<real>, count: nat)
    requires StrictlyIncreasing(xin) && count <= |xout1|
    ensures Rows(xin, xout1, xout2, count).Ok? <==> QueriesCovered(xin, xout1, xout2, count)
    ensures Rows(xin, xout1, xout2, count).Err? ==> Rows(xin, xout1, xout2, count).error == IndexOutOfRange
  {
    var rs := RowResults(xin, xout1, xout2, count);
    RowsFirstError(xin, xout1, xout2, count);
    forall k | 0 <= k < count
      ensures rs[k].Ok? <==> QueryCovered(xin, xout1, xout2, k)
      ensures rs[k].Err? ==> rs[k].error == IndexOutOfRange
    {
      RowResultsAt(xin, xout1, xout2, count, k);
      RowSucceeds(xin, xout1, xout2, k);
    }
  }

  /** One more query: the lists survive it exactly when they had survived so far and its
      row succeeds, and an error is the earlier one or the row's own. */
  lemma RowsStep(xin: seq<real>, xout1: seq<real>, xout2: seq<real>, count: nat)
    requires 0 < count <= |xout1|
    ensures Rows(xin, xout1, xout2, count).Ok? <==>
      Rows(xin, xout1, xout2, count - 1).Ok? && Row(xin, xout1, xout2, count - 1).Ok?
    ensures Rows(xin, xout1, xout2, count).Err? ==>
      (Rows(xin, xout1, xout2, count - 1).Err? && Rows(xin, xout1, xout2, count).error == Rows(xin, xout1, xout2, count - 1).error) ||
      (Row(xin, xout1, xout2, count - 1).Err? && Rows(xin, xout1, xout2, count).error == Row(xin, xout1, xout2, count - 1).error)
  {
  }

  /** On strictly increasing nodes, sample raises no ZeroDivisionError, and it returns a
      matrix exactly when no query coordinate lies beyond the last node (and, in 2-D, xout2
      has an entry for every query); otherwise it raises IndexError. */
  lemma SampleSucceeds(xin: seq<real>, xout1: seq<real>, xout2: seq<real>)
    requires StrictlyIncreasing(xin)
    ensures SampleSpec(xin, xout1, xout2).Ok? <==> QueriesCovered(xin, xout1, xout2, |xout1|)
    ensures SampleSpec(xin, xout1, xout2).Err? ==> SampleSpec(xin, xout1, xout2).error == IndexOutOfRange
  {
    RowsSucceed(xin, xout1, xout2, |xout1|);
  }

  // ---------------------------------------------------------------------------------------
  // The bracket as written and the bracket intended

  /** On a rising pair of nodes, a query between them gets weights in [0, 1]. */
  lemma ConvexWeights(x0: real, x1: real, x: real)
    requires x0 < x1 && x0 <= x <= x1
    ensures 0.0 <= Weight0(x0, x1, x) <= 1.0 && 0.0 <= Weight1(x0, x1, x) <= 1.0
  {
    var d := x1 - x0;
    assert Weight0(x0, x1, x) == (x1 - x) / d;
    FractionBounds(x1 - x, d);
    FractionBounds(x - x0, d);
  }

  lemma FractionBounds(n: real, d: real)
    requires 0.0 <= n <= d && d > 0.0
    ensures 0.0 <= n / d <= 1.0
  {
    var q := n / d;
    assert q * d == n;
  }

  /** A query strictly inside the cell (xin[i-1], xin[i]) is given weights from the cell to its
      right: the weight of xin[i] exceeds 1 and that of xin[i+1] is negative, so the row
      extrapolates instead of interpolating. */
  lemma AsWrittenExtrapolates(xin: seq<real>, x: real, k: nat, i: nat)
    requires StrictlyIncreasing(xin) && FirstAtLeast(xin, x) == Some(i)
    requires 0 < i < |xin| - 1 && x < xin[i]
    ensures Row1(xin, x, k).Ok?
    ensures Row1(xin, x, k).value.cl == [i, i + 1]
    ensures Row1(xin, x, k).value.nz[0] > 1.0 && Row1(xin, x, k).value.nz[1] < 0.0
  {
    assert xin[i] < xin[i + 1];
    LinearBasis(xin[i], xin[i + 1], x);
    var d := xin[i + 1] - xin[i];
    var w := Weight1(xin[i], xin[i + 1], x);
    assert w * d == x - xin[i];
  }

  /** A query in the last cell (xin[nx-2], xin[nx-1]], the last node included, gets an empty
      row: the code's bracket is nx-1, which has no right neighbour. */
  lemma AsWrittenDropsLastCell(xin: seq<real>, x: real, k: nat)
    requires StrictlyIncreasing(xin) && |xin| >= 2
    requires xin[|xin| - 2] < x <= xin[|xin| - 1]
    ensures FirstAtLeast(xin, x) == Some(|xin| - 1)
    ensures Row1(xin, x, k) == Ok(NoTriplets)
  {
    var n := |xin| - 1;
    assert forall p :: 0 <= p < n ==> xin[p] <= xin[n - 1];
    var i := FirstAtLeast(xin, x).value;
    assert i == n;
  }

  /** The bracket the code evidently intends: lo, one before the first node at least x, so
      that the cell [xin[lo], xin[lo+1]] contains the query. */
  function IntendedBracket(xin: seq<real>, x: real): (r: Option<nat>)
    ensures r.Some? ==> r.value < |xin|
    ensures r.None? <==> FirstAtLeast(xin, x).None?
  {
    match FirstAtLeast(xin, x)
    case None => None
    case Some(i) => Some(if i > 0 then i - 1 else 0)
  }

  /** The row the code evidently intends in 1-D: weights from the cell [xin[lo], xin[lo+1]]. */
  function IntendedRow1(xin: seq<real>, x: real, k: nat): (r: Result<Triplets, SampleError>)
    ensures r.Ok? ==> Aligned(r.value) && InRow(r.value, k)
    ensures r.Ok? ==> forall p :: 0 <= p < |r.value.cl| ==> r.value.cl[p] < |xin|
  {
    match IntendedBracket(xin, x)
    case None => Err(IndexOutOfRange)
    case Some(lo) =>
      if lo < |xin| - 1 then
        if xin[lo] == xin[lo + 1] then Err(ZeroDivision)
        else Ok(Triplets([k, k], [lo, lo + 1], [Weight0(xin[lo], xin[lo + 1], x), Weight1(xin[lo], xin[lo + 1], x)]))
      else Ok(NoTriplets)
  }

  /** The row the code evidently intends in 2-D: the intended bracket on each axis, and the
      code's corner columns and bilinear weights on that cell. */
  function IntendedRow2(xin: seq<real>, x: real, y: real, k: nat): (r: Result<Triplets, SampleError>)
    ensures r.Ok? ==> Aligned(r.value) && InRow(r.value, k)
    ensures r.Ok? ==> forall p :: 0 <= p < |r.value.cl| ==> r.value.cl[p] < |xin| * |xin|
  {
    match IntendedBracket(xin, x)
    case None => Err(IndexOutOfRange)
    case Some(i) =>
      match IntendedBracket(xin, y)
      case None => Err(IndexOutOfRange)
      case Some(j) =>
        if i < |xin| - 1 && j < |xin| - 1 then
          if xin[i] == xin[i + 1] || xin[j] == xin[j + 1] then Err(ZeroDivision)
          else
            CornerIndices(|xin|, i, j);
            Ok(Triplets([k, k, k, k], Corners(|xin|, i, j), Weights2(xin[i], xin[i + 1], xin[j], xin[j + 1], x, y)))
        else Ok(NoTriplets)
  }

  /** On strictly increasing nodes, a query inside the grid gets an intended bracket lo with
      xin[lo] <= x <= xin[lo+1]. */
  lemma IntendedBracketEncloses(xin: seq<real>, x: real) returns (lo: nat)
    requires StrictlyIncreasing(xin) && |xin| >= 2 && xin[0] <= x <= xin[|xin| - 1]
    ensures IntendedBracket(xin, x) == Some(lo)
    ensures lo + 1 < |xin| && xin[lo] < xin[lo + 1] && xin[lo] <= x <= xin[lo + 1]
  {
    var i := FirstAtLeast(xin, x).value;
    lo := if i > 0 then i - 1 else 0;
    assert xin[lo] < xin[lo + 1];
  }

  /** With the intended bracket, every query inside the grid of strictly increasing nodes gets
      two triplets on adjacent nodes that enclose it, with weights in [0, 1] that sum to 1 and
      reproduce the query. */
  lemma IntendedRowInterpolates(xin: seq<real>, x: real, k: nat)
    requires StrictlyIncreasing(xin) && |xin| >= 2 && xin[0] <= x <= xin[|xin| - 1]
    ensures IntendedRow1(xin, x, k).Ok?
    ensures |IntendedRow1(xin, x, k).value.cl| == 2
    ensures var t := IntendedRow1(xin, x, k).value;
      t.cl[1] == t.cl[0] + 1 && t.cl[1] < |xin| && xin[t.cl[0]] <= x <= xin[t.cl[1]] &&
      0.0 <= t.nz[0] <= 1.0 && 0.0 <= t.nz[1] <= 1.0 && t.nz[0] + t.nz[1] == 1.0 &&
      t.nz[0] * xin[t.cl[0]] + t.nz[1] * xin[t.cl[1]] == x
  {
    var lo := IntendedBracketEncloses(xin, x);
    LinearBasis(xin[lo], xin[lo + 1], x);
    ConvexWeights(xin[lo], xin[lo + 1], x);
  }

  /** With the intended bracket on each axis, every query inside the grid gets the four
      corners of the cell that encloses it, with weights in [0, 1] that sum to 1 and reproduce
      both coordinates. */
  lemma IntendedGridInterpolates(xin: seq<real>, x: real, y: real, k: nat)
    requires StrictlyIncreasing(xin) && |xin| >= 2
    requires xin[0] <= x <= xin[|xin| - 1] && xin[0] <= y <= xin[|xin| - 1]
    ensures IntendedBracket(xin, x).Some? && IntendedBracket(xin, y).Some?
    ensures IntendedRow2(xin, x, y, k).Ok?
    ensures CellInterpolates(xin, IntendedBracket(xin, x).value, IntendedBracket(xin, y).value, x, y,
                             IntendedRow2(xin, x, y, k).value)
  {
    var i := IntendedBracketEncloses(xin, x);
    var j := IntendedBracketEncloses(xin, y);
    var t := Triplets([k, k, k, k], Corners(|xin|, i, j), Weights2(xin[i], xin[i + 1], xin[j], xin[j + 1], x, y));
    assert IntendedRow2(xin, x, y, k) == Ok(t);
    BilinearBasis(xin[i], xin[i + 1], xin[j], xin[j + 1], x, y, t.nz);
    BilinearCell(xin[i], xin[i + 1], xin[j], xin[j + 1], x, y, t.nz);
  }

  /** Inside its cell, weights that are products of the 1-D bases and reproduce the query
      also lie in [0, 1]. */
  lemma BilinearCell(xi: real, xi1: real, xj: real, xj1: real, x: real, y: real, w: seq<real>)
    requires xi < xi1 && xj < xj1 && xi <= x <= xi1 && xj <= y <= xj1
    requires TensorWeights(xi, xi1, xj, xj1, x, y, w) && Reproduces(xi, xi1, xj, xj1, x, y, w)
    ensures CellWeights(xi, xi1, xj, xj1, x, y, w)
  {
    ConvexWeights(xi, xi1, x);
    ConvexWeights(xj, xj1, y);
    UnitProducts(Weight0(xi, xi1, x), Weight1(xi, xi1, x), Weight0(xj, xj1, y), Weight1(xj, xj1, y), w);
  }

  /** t is the row of the cell (i, j) that encloses (x, y): its four corner columns, with
      the weights of that cell. */
  predicate CellInterpolates(xin: seq<real>, i: nat, j: nat, x: real, y: real, t: Triplets)
  {
    i + 1 < |xin| && j + 1 < |xin| &&
    xin[i] <= x <= xin[i + 1] && xin[j] <= y <= xin[j + 1] &&
    t.cl == Corners(|xin|, i, j) && CellWeights(xin[i], xin[i + 1], xin[j], xin[j + 1], x, y, t.nz)
  }

  /** Four weights in [0, 1] that reproduce (x, y): see Reproduces. */
  predicate CellWeights(xi: real, xi1: real, xj: real, xj1: real, x: real, y: real, w: seq<real>)
  {
    Reproduces(xi, xi1, xj, xj1, x, y, w) &&
    0.0 <= w[0] <= 1.0 && 0.0 <= w[1] <= 1.0 && 0.0 <= w[2] <= 1.0 && 0.0 <= w[3] <= 1.0
  }

  /** Four weights that sum to 1 and reproduce both coordinates of (x, y) from the corners
      (xi, xj), (xi1, xj), (xi, xj1), (xi1, xj1). */
  predicate Reproduces(xi: real, xi1: real, xj: real, xj1: real, x: real, y: real, w: seq<real>)
  {
    |w| == 4 &&
    w[0] + w[1] + w[2] + w[3] == 1.0 &&
    w[0] * xi + w[1] * xi1 + w[2] * xi + w[3] * xi1 == x &&
    w[0] * xj + w[1] * xj + w[2] * xj1 + w[3] * xj1 == y
  }

  /** Four products of weights in [0, 1] lie in [0, 1]. */
  lemma UnitProducts(u0: real, u1: real, v0: real, v1: real, w: seq<real>)
    requires 0.0 <= u0 <= 1.0 && 0.0 <= u1 <= 1.0 && 0.0 <= v0 <= 1.0 && 0.0 <= v1 <= 1.0
    requires |w| == 4 && w[0] == u0 * v0 && w[1] == u1 * v0 && w[2] == u0 * v1 && w[3] == u1 * v1
    ensures forall p :: 0 <= p < 4 ==> 0.0 <= w[p] <= 1.0
  {
    UnitProduct(u0, v0);
    UnitProduct(u1, v0);
    UnitProduct(u0, v1);
    UnitProduct(u1, v1);
  }

  lemma UnitProduct(u: real, v: real)
    requires 0.0 <= u <= 1.0 && 0.0 <= v <= 1.0
    ensures 0.0 <= u * v <= 1.0
  {
    assert 0.0 <= u * v;
    assert u * (1.0 - v) >= 0.0;
    assert u * v <= u;
  }

  /** sample([0, 1, 2, 3], [0.5]): the code puts the query 0.5 in the cell [1, 2] with weights
      1.5 and -0.5; the intended row puts it in [0, 1] with weights 0.5 and 0.5. */
  lemma LineExample()
    ensures SampleSpec([0.0, 1.0, 2.0, 3.0], [0.5], []) == Ok(Coo(1, 4, Triplets([0, 0], [1, 2], [1.5, -0.5])))
    ensures IntendedRow1([0.0, 1.0, 2.0, 3.0], 0.5, 0) == Ok(Triplets([0, 0], [0, 1], [0.5, 0.5]))
  {
    var xs := [0.0, 1.0, 2.0, 3.0];
    assert ScanFrom(xs, 0.5, 1) == Some(1);
    assert FirstAtLeast(xs, 0.5) == Some(1);
    assert Row1(xs, 0.5, 0) == Ok(Triplets([0, 0], [1, 2], [1.5, -0.5]));
    assert Rows(xs, [0.5], [], 1) == Ok(Concat(NoTriplets, Triplets([0, 0], [1, 2], [1.5, -0.5])));
    assert Concat(NoTriplets, Triplets([0, 0], [1, 2], [1.5, -0.5])) == Triplets([0, 0], [1, 2], [1.5, -0.5]);
    assert Weight0(0.0, 1.0, 0.5) == 0.5 && Weight1(0.0, 1.0, 0.5) == 0.5;
  }

  /** sample([0, 1, 2, 3], [0.5], [1.5]): four triplets at the corners 9, 10, 13, 14 of the
      cell (1, 2), with weights 2.25, -0.75, -0.75, 0.25 (they sum to 1 but extrapolate); the
      intended row uses the cell (0, 1), at 4, 5, 8, 9, with weight 0.25 at each corner. */
  lemma GridExample()
    ensures SampleSpec([0.0, 1.0, 2.0, 3.0], [0.5], [1.5])
         == Ok(Coo(1, 16, Triplets([0, 0, 0, 0], [9, 10, 13, 14], [2.25, -0.75, -0.75, 0.25])))
    ensures IntendedRow2([0.0, 1.0, 2.0, 3.0], 0.5, 1.5, 0)
         == Ok(Triplets([0, 0, 0, 0], [4, 5, 8, 9], [0.25, 0.25, 0.25, 0.25]))
  {
    var xs := [0.0, 1.0, 2.0, 3.0];
    assert ScanFrom(xs, 0.5, 1) == Some(1);
    assert ScanFrom(xs, 1.5, 2) == Some(2);
    assert ScanFrom(xs, 1.5, 1) == Some(2);
    assert FirstAtLeast(xs, 0.5) == Some(1);
    assert FirstAtLeast(xs, 1.5) == Some(2);
    assert Corners(4, 1, 2) == [9, 10, 13, 14];
    assert Weights2(1.0, 2.0, 2.0, 3.0, 0.5, 1.5) == [2.25, -0.75, -0.75, 0.25];
    var t := Triplets([0, 0, 0, 0], [9, 10, 13, 14], [2.25, -0.75, -0.75, 0.25]);
    assert Row2(xs, [0.5], [1.5], 0) == Ok(t);
    assert Rows(xs, [0.5], [1.5], 1) == Ok(Concat(NoTriplets, t));
    assert Concat(NoTriplets, t) == t;
    assert Width(xs, [1.5]) == 16;
    assert IntendedBracket(xs, 0.5) == Some(0) && IntendedBracket(xs, 1.5) == Some(1);
    assert Corners(4, 0, 1) == [4, 5, 8, 9];
    assert Weights2(0.0, 1.0, 1.0, 2.0, 0.5, 1.5) == [0.25, 0.25, 0.25, 0.25];
  }
}
