/** The time-stepper of the wave kernel (solve): the leap-frog recurrence
    u[:, k+1] = A u[:, k] + L u[:, k] + B u[:, k-1] + dx^2 C q[:, k]
    run column by column over a zero-initialised field. */
module LeapFrog {
  import opened Basics
  import opened Sums
  import opened Operators

  /** numpy refuses A @ u[:, k] when the field has nx**n rows but the operators are built
      for a different grid size (for nx >= 2, exactly when n is outside {1, 2}). */
  datatype SolveError = ShapeMismatch

  /** Entry (p, k) of the source after q.resize((rows, nt)): q's elements in row-major
      order, reinterpreted with nt columns, truncated or padded with zeros. */
  function Resized(q: seq<real>, nt: nat, p: int, k: int): real
  {
    var idx := p * nt + k;
    if 0 <= idx < |q| then q[idx] else 0.0
  }

  /** Column k of the resized source. */
  function SourceColumn(q: seq<real>, rows: nat, nt: nat, k: nat): (col: seq<real>)
    ensures |col| == rows
  {
    seq(rows, p => Resized(q, nt, p, k))
  }

  function Zeros(n: nat): (z: seq<real>)
    ensures |z| == n
  {
    seq(n, _ => 0.0)
  }

  /** (L @ v)[p]. */
  function LApply(ops: Operators, v: seq<real>, p: int): real
  {
    Dot(LRow(ops, p), v)
  }

  /** One leap-frog update: the field at time k+1 from the fields at k and k-1 and the
      source at k. */
  function Step(ops: Operators, dx: real, cur: seq<real>, prev: seq<real>, src: seq<real>): (next: seq<real>)
    requires WellFormed(ops)
    requires |cur| == Size(ops) && |prev| == Size(ops) && |src| == Size(ops)
    ensures |next| == Size(ops)
  {
    seq(Size(ops), p requires 0 <= p < Size(ops) =>
      ops.a[p] * cur[p] + LApply(ops, cur, p) + ops.b[p] * prev[p] + dx * dx * ops.c[p] * src[p])
  }

  /** The first `count` columns of the field solve computes: two zero columns, then one
      leap-frog step per further column. */
  function Field(ops: Operators, dx: real, q: seq<real>, rows: nat, nt: nat, count: nat): (cols: seq<seq<real>>)
    requires WellFormed(ops)
    requires count <= 2 || rows == Size(ops)
    ensures |cols| == count
    ensures forall j :: 0 <= j < count ==> |cols[j]| == rows
    decreases count
  {
    if count <= 2 then seq(count, _ => Zeros(rows))
    else
      var done := Field(ops, dx, q, rows, nt, count - 1);
      var k := count - 2;
      done + [Step(ops, dx, done[k], done[k - 1], SourceColumn(q, rows, nt, k))]
  }

  /** (L @ u[:, k])[p], accumulated one column of L at a time. */
  method ApplyRow(ops: Operators, u: array2<real>, k: nat, p: nat, ghost cur: seq<real>) returns (s: real)
    requires u.Length0 == |cur| && k < u.Length1
    requires forall j :: 0 <= j < |cur| ==> u[j, k] == cur[j]
    ensures s == LApply(ops, cur, p)
  {
    s := 0.0;
    var j := 0;
    while j < u.Length0
      invariant 0 <= j <= u.Length0
      invariant s == Sum(DotTerms(LRow(ops, p), cur), 0, j)
    {
      s := s + LAt(ops, p, j) * u[j, k];
      j := j + 1;
    }
  }

  /** Line 19 for one k: writes column k + 1 of u from columns k and k - 1 and source
      column k, row by row, and touches no other column. */
  method StepColumn(ops: Operators, dx: real, q: seq<real>, u: array2<real>, k: nat,
                    ghost cur: seq<real>, ghost prev: seq<real>)
    requires WellFormed(ops) && u.Length0 == Size(ops)
    requires 1 <= k && k + 1 < u.Length1
    requires |cur| == Size(ops) && |prev| == Size(ops)
    requires forall p :: 0 <= p < |cur| ==> u[p, k] == cur[p]
    requires forall p :: 0 <= p < |prev| ==> u[p, k - 1] == prev[p]
    modifies u
    ensures forall p :: 0 <= p < u.Length0 ==>
      u[p, k + 1] == Step(ops, dx, cur, prev, SourceColumn(q, u.Length0, u.Length1, k))[p]
    ensures forall p, j :: 0 <= p < u.Length0 && 0 <= j < u.Length1 && j != k + 1 ==> u[p, j] == old(u[p, j])
  {
    var next, last := k + 1, k - 1;
    var rows, nt := u.Length0, u.Length1;
    ghost var src := SourceColumn(q, rows, nt, k);
    ghost var target := Step(ops, dx, cur, prev, src);
    var p := 0;
    while p < rows
      invariant 0 <= p <= rows
      invariant forall p' :: 0 <= p' < p ==> u[p', next] == target[p']
      invariant forall p', j :: 0 <= p' < rows && 0 <= j < nt && j != next ==> u[p', j] == old(u[p', j])
    {
      var lu := ApplyRow(ops, u, k, p, cur);
      var value := ops.a[p] * u[p, k] + lu + ops.b[p] * u[p, last] + dx * dx * ops.c[p] * Resized(q, nt, p, k);
      assert value == target[p] by {
        assert u[p, k] == cur[p] && u[p, last] == prev[p];
        assert src[p] == Resized(q, nt, p, k);
      }
      u[p, next] := value;
      p := p + 1;
    }
  }

  /** solve: build the operators, allocate a zero field of nx**n rows and nt columns, and fill
      columns 2 .. nt-1 in order, each from the two before it and one source column. */
  method Solve(q: seq<real>, gamma: real, dx: real, nt: nat, nx: nat, n: nat) returns (r: Result<array2<real>, SolveError>)
    requires nx >= 1
    ensures r.Err? <==> nt >= 3 && Pow(nx, n) != GridSize(nx, n != 1)
    ensures r.Ok? ==> r.value.Length0 == Pow(nx, n) && r.value.Length1 == nt
    ensures r.Ok? ==> forall p, k :: 0 <= p < Pow(nx, n) && 0 <= k < nt ==>
      r.value[p, k] == Field(Matrices(gamma, nx, n), dx, q, Pow(nx, n), nt, nt)[k][p]
  {
    var rows := Pow(nx, n);
    var ops := GetMatrices(gamma, nx, n);
    var u := new real[rows, nt]((_, _) => 0.0);
    if nt >= 3 && rows != Size(ops) {
      return Err(ShapeMismatch);
    }
    ghost var field := Field(ops, dx, q, rows, nt, nt);
    InitialColumnsZero(ops, dx, q, rows, nt, nt);
    var k := 1;
    while k < nt - 1
      invariant 1 <= k && (nt >= 2 ==> k <= nt - 1)
      invariant forall p, j :: 0 <= p < rows && 0 <= j < nt && j <= k ==> u[p, j] == field[j][p]
      invariant forall p, j :: 0 <= p < rows && k < j < nt ==> u[p, j] == 0.0
    {
      FieldRecurrence(ops, dx, q, rows, nt, nt, k);
      StepColumn(ops, dx, q, u, k, field[k], field[k - 1]);
      k := k + 1;
    }
    return Ok(u);
  }

  // ---------------------------------------------------------------------------------------
  // Properties of the field

  /** Computing more columns does not change the earlier ones. */
  lemma {:induction false} FieldPrefix(ops: Operators, dx: real, q: seq<real>, rows: nat, nt: nat, c1: nat, c2: nat, j: nat)
    requires WellFormed(ops)
    requires c2 <= 2 || rows == Size(ops)
    requires j < c1 <= c2
    ensures Field(ops, dx, q, rows, nt, c1)[j] == Field(ops, dx, q, rows, nt, c2)[j]
    decreases c2
  {
    if c1 < c2 {
      FieldPrefix(ops, dx, q, rows, nt, c1, c2 - 1, j);
    }
  }

  /** Columns 0 and 1 of the field stay zero: no initial condition is applied. */
  lemma InitialColumnsZero(ops: Operators, dx: real, q: seq<real>, rows: nat, nt: nat, count: nat)
    requires WellFormed(ops)
    requires count <= 2 || rows == Size(ops)
    ensures forall j, p :: 0 <= j < count && j < 2 && 0 <= p < rows ==> Field(ops, dx, q, rows, nt, count)[j][p] == 0.0
  {
    forall j | 0 <= j < count && j < 2
      ensures Field(ops, dx, q, rows, nt, count)[j] == Zeros(rows)
    {
      FieldPrefix(ops, dx, q, rows, nt, if count < 2 then count else 2, count, j);
    }
  }

  /** Column k+1 is the leap-frog step of columns k and k-1 and source column k, and of
      nothing else. */
  lemma FieldRecurrence(ops: Operators, dx: real, q: seq<real>, rows: nat, nt: nat, count: nat, k: nat)
    requires WellFormed(ops) && rows == Size(ops)
    requires 1 <= k && k + 1 < count
    ensures var f := Field(ops, dx, q, rows, nt, count);
      f[k + 1] == Step(ops, dx, f[k], f[k - 1], SourceColumn(q, rows, nt, k))
  {
    var next, last := k + 1, k - 1;
    var h := Field(ops, dx, q, rows, nt, next);
    var g := Field(ops, dx, q, rows, nt, next + 1);
    var step := Step(ops, dx, h[k], h[last], SourceColumn(q, rows, nt, k));
    assert g == h + [step];
    assert g[next] == step && g[k] == h[k] && g[last] == h[last];
    FieldPrefix(ops, dx, q, rows, nt, next + 1, count, next);
    FieldPrefix(ops, dx, q, rows, nt, next + 1, count, k);
    FieldPrefix(ops, dx, q, rows, nt, next + 1, count, last);
  }

  /** Causality: the first `count` columns depend only on source columns 1 .. count-2. */
  lemma {:induction false} Causality(ops: Operators, dx: real, q1: seq<real>, q2: seq<real>, rows: nat, nt: nat, count: nat)
    requires WellFormed(ops)
    requires count <= 2 || rows == Size(ops)
    requires forall p, k :: 0 <= p < rows && 1 <= k < count - 1 ==> Resized(q1, nt, p, k) == Resized(q2, nt, p, k)
    ensures Field(ops, dx, q1, rows, nt, count) == Field(ops, dx, q2, rows, nt, count)
    decreases count
  {
    if count > 2 {
      Causality(ops, dx, q1, q2, rows, nt, count - 1);
      assert SourceColumn(q1, rows, nt, count - 2) == SourceColumn(q2, rows, nt, count - 2);
    }
  }

  /** L maps the zero vector to zero. */
  lemma LApplyZero(ops: Operators, n: nat, p: int)
    ensures LApply(ops, Zeros(n), p) == 0.0
  {
    DotZero(LRow(ops, p), Zeros(n));
  }

  /** With a zero source the whole field stays zero. */
  lemma {:induction false} ZeroSourceZeroField(ops: Operators, dx: real, q: seq<real>, rows: nat, nt: nat, count: nat)
    requires WellFormed(ops)
    requires count <= 2 || rows == Size(ops)
    requires forall i :: 0 <= i < |q| ==> q[i] == 0.0
    ensures forall j :: 0 <= j < count ==> Field(ops, dx, q, rows, nt, count)[j] == Zeros(rows)
    decreases count
  {
    if count > 2 {
      ZeroSourceZeroField(ops, dx, q, rows, nt, count - 1);
      var k := count - 2;
      assert SourceColumn(q, rows, nt, k) == Zeros(rows);
      forall p | 0 <= p < rows {
        LApplyZero(ops, rows, p);
      }
    }
  }

  /** The combination alpha * v + beta * w of two vectors of equal length. */
  function Combine(alpha: real, v: seq<real>, beta: real, w: seq<real>): (r: seq<real>)
    requires |v| == |w|
    ensures |r| == |v|
  {
    seq(|v|, i requires 0 <= i < |v| => alpha * v[i] + beta * w[i])
  }

  lemma LApplyLinear(ops: Operators, alpha: real, v: seq<real>, beta: real, w: seq<real>, p: int)
    requires |v| == |w|
    ensures LApply(ops, Combine(alpha, v, beta, w), p) == alpha * LApply(ops, v, p) + beta * LApply(ops, w, p)
  {
    DotLinear(LRow(ops, p), alpha, v, beta, w, Combine(alpha, v, beta, w));
  }

  /** One step is linear in the two history columns and the source together. */
  lemma StepLinear(ops: Operators, dx: real, alpha: real, beta: real,
                   cur1: seq<real>, prev1: seq<real>, src1: seq<real>,
                   cur2: seq<real>, prev2: seq<real>, src2: seq<real>)
    requires WellFormed(ops)
    requires |cur1| == |prev1| == |src1| == |cur2| == |prev2| == |src2| == Size(ops)
    ensures Step(ops, dx, Combine(alpha, cur1, beta, cur2), Combine(alpha, prev1, beta, prev2), Combine(alpha, src1, beta, src2))
         == Combine(alpha, Step(ops, dx, cur1, prev1, src1), beta, Step(ops, dx, cur2, prev2, src2))
  {
    var lhs := Step(ops, dx, Combine(alpha, cur1, beta, cur2), Combine(alpha, prev1, beta, prev2), Combine(alpha, src1, beta, src2));
    var rhs := Combine(alpha, Step(ops, dx, cur1, prev1, src1), beta, Step(ops, dx, cur2, prev2, src2));
    forall p | 0 <= p < Size(ops)
      ensures lhs[p] == rhs[p]
    {
      StepLinearAt(ops, dx, alpha, beta, cur1, prev1, src1, cur2, prev2, src2, p);
    }
  }

  /** StepLinear at one grid point p. */
  lemma StepLinearAt(ops: Operators, dx: real, alpha: real, beta: real,
                     cur1: seq<real>, prev1: seq<real>, src1: seq<real>,
                     cur2: seq<real>, prev2: seq<real>, src2: seq<real>, p: nat)
    requires WellFormed(ops) && p < Size(ops)
    requires |cur1| == |prev1| == |src1| == |cur2| == |prev2| == |src2| == Size(ops)
    ensures Step(ops, dx, Combine(alpha, cur1, beta, cur2), Combine(alpha, prev1, beta, prev2), Combine(alpha, src1, beta, src2))[p]
         == alpha * Step(ops, dx, cur1, prev1, src1)[p] + beta * Step(ops, dx, cur2, prev2, src2)[p]
  {
    var cur, prev, src := Combine(alpha, cur1, beta, cur2), Combine(alpha, prev1, beta, prev2), Combine(alpha, src1, beta, src2);
    LApplyLinear(ops, alpha, cur1, beta, cur2, p);
    StepAt(ops, dx, cur, prev, src, p);
    StepAt(ops, dx, cur1, prev1, src1, p);
    StepAt(ops, dx, cur2, prev2, src2, p);
    var a, b, cd := ops.a[p], ops.b[p], dx * dx * ops.c[p];
    var c1, c2, l1, l2, lc := cur1[p], cur2[p], LApply(ops, cur1, p), LApply(ops, cur2, p), LApply(ops, cur, p);
    var p1, p2, s1, s2 := prev1[p], prev2[p], src1[p], src2[p];
    CombineAt(alpha, cur1, beta, cur2, p);
    CombineAt(alpha, prev1, beta, prev2, p);
    CombineAt(alpha, src1, beta, src2, p);
    StepPointLinear(a, b, cd, alpha, beta, c1, c2, l1, l2, lc, p1, p2, s1, s2);
  }

  lemma CombineAt(alpha: real, v: seq<real>, beta: real, w: seq<real>, p: nat)
    requires |v| == |w| && p < |v|
    ensures Combine(alpha, v, beta, w)[p] == alpha * v[p] + beta * w[p]
  {
  }

  /** Entry p of one step, with the source term grouped as (dx^2 c[p]) q[p]. */
  lemma StepAt(ops: Operators, dx: real, cur: seq<real>, prev: seq<real>, src: seq<real>, p: nat)
    requires WellFormed(ops)
    requires |cur| == Size(ops) && |prev| == Size(ops) && |src| == Size(ops) && p < Size(ops)
    ensures Step(ops, dx, cur, prev, src)[p]
         == ops.a[p] * cur[p] + LApply(ops, cur, p) + ops.b[p] * prev[p] + (dx * dx * ops.c[p]) * src[p]
  {
  }

  /** The arithmetic of StepLinear at one grid point. */
  lemma StepPointLinear(a: real, b: real, cd: real, alpha: real, beta: real,
                        c1: real, c2: real, l1: real, l2: real, lc: real,
                        p1: real, p2: real, s1: real, s2: real)
    requires lc == alpha * l1 + beta * l2
    ensures a * (alpha * c1 + beta * c2) + lc + b * (alpha * p1 + beta * p2) + cd * (alpha * s1 + beta * s2)
         == alpha * (a * c1 + l1 + b * p1 + cd * s1) + beta * (a * c2 + l2 + b * p2 + cd * s2)
  {
    Distribute(a, alpha, c1, beta, c2);
    Distribute(b, alpha, p1, beta, p2);
    Distribute(cd, alpha, s1, beta, s2);
  }

  /** Superposition: the field of alpha * q1 + beta * q2 is alpha times the field of q1 plus
      beta times the field of q2, column by column. */
  lemma {:induction false} FieldLinear(ops: Operators, dx: real, alpha: real, q1: seq<real>, beta: real, q2: seq<real>,
                                       rows: nat, nt: nat, count: nat)
    requires WellFormed(ops)
    requires count <= 2 || rows == Size(ops)
    requires |q1| == |q2|
    ensures forall j :: 0 <= j < count ==>
      Field(ops, dx, Combine(alpha, q1, beta, q2), rows, nt, count)[j]
        == Combine(alpha, Field(ops, dx, q1, rows, nt, count)[j], beta, Field(ops, dx, q2, rows, nt, count)[j])
    decreases count
  {
    var q := Combine(alpha, q1, beta, q2);
    if count <= 2 {
      var z := Zeros(rows);
      forall i | 0 <= i < rows
        ensures Combine(alpha, z, beta, z)[i] == z[i]
      {
        assert alpha * 0.0 + beta * 0.0 == 0.0;
      }
      assert Combine(alpha, z, beta, z) == z;
      var f, f1, f2 := Field(ops, dx, q, rows, nt, count), Field(ops, dx, q1, rows, nt, count), Field(ops, dx, q2, rows, nt, count);
      forall j | 0 <= j < count
        ensures f[j] == Combine(alpha, f1[j], beta, f2[j])
      {
        assert f[j] == z && f1[j] == z && f2[j] == z;
      }
    } else {
      FieldLinear(ops, dx, alpha, q1, beta, q2, rows, nt, count - 1);
      var k := count - 2;
      var f := Field(ops, dx, q, rows, nt, count - 1);
      var f1 := Field(ops, dx, q1, rows, nt, count - 1);
      var f2 := Field(ops, dx, q2, rows, nt, count - 1);
      var src, src1, src2 := SourceColumn(q, rows, nt, k), SourceColumn(q1, rows, nt, k), SourceColumn(q2, rows, nt, k);
      forall p | 0 <= p < rows
        ensures src[p] == Combine(alpha, src1, beta, src2)[p]
      {
        var idx := p * nt + k;
        if !(0 <= idx < |q|) {
          assert alpha * 0.0 + beta * 0.0 == 0.0;
        }
      }
      assert src == Combine(alpha, src1, beta, src2);
      StepLinear(ops, dx, alpha, beta, f1[k], f1[k - 1], src1, f2[k], f2[k - 1], src2);
      var g, g1, g2 := Field(ops, dx, q, rows, nt, count), Field(ops, dx, q1, rows, nt, count), Field(ops, dx, q2, rows, nt, count);
      assert g == f + [Step(ops, dx, f[k], f[k - 1], src)];
      assert g1 == f1 + [Step(ops, dx, f1[k], f1[k - 1], src1)];
      assert g2 == f2 + [Step(ops, dx, f2[k], f2[k - 1], src2)];
      assert forall j :: 0 <= j < count - 1 ==> f[j] == Combine(alpha, f1[j], beta, f2[j]);
      assert f[k] == Combine(alpha, f1[k], beta, f2[k]);
      assert f[k - 1] == Combine(alpha, f1[k - 1], beta, f2[k - 1]);
      forall j | 0 <= j < count
        ensures g[j] == Combine(alpha, g1[j], beta, g2[j])
      {
        if j < count - 1 {
          assert g[j] == f[j] && g1[j] == f1[j] && g2[j] == f2[j];
        }
      }
    }
  }

  /** At a boundary point the update ignores the previous time level and the source:
      b = c = 0 there, and a = 1. */
  lemma BoundaryUpdate(gamma: real, nx: nat, n: int, dx: real, cur: seq<real>, prev: seq<real>, src: seq<real>, p: nat)
    requires nx >= 1
    requires |cur| == |prev| == |src| == GridSize(nx, n != 1)
    requires p < GridSize(nx, n != 1) && OnEdge(nx, n != 1, p)
    ensures var ops := Matrices(gamma, nx, n);
      Step(ops, dx, cur, prev, src)[p] == cur[p] + LApply(ops, cur, p)
  {
    Coefficients(gamma, nx, n, p);
  }

  /** A constant vector of length n. */
  function Constant(n: nat, v: real): (r: seq<real>)
    ensures |r| == n
  {
    seq(n, _ => v)
  }

  /** A constant field with no source is a fixed point of the update: a + b = 1 keeps the
      value and L, whose rows sum to zero, adds nothing. */
  lemma ConstantIsSteady(gamma: real, nx: nat, n: int, dx: real, v: real)
    requires nx >= 2
    ensures var ops := Matrices(gamma, nx, n);
      var k := Constant(Size(ops), v);
      Step(ops, dx, k, k, Zeros(Size(ops))) == k
  {
    var ops := Matrices(gamma, nx, n);
    var size := Size(ops);
    var k := Constant(size, v);
    forall p | 0 <= p < size
      ensures Step(ops, dx, k, k, Zeros(size))[p] == v
    {
      ConstantStepAt(gamma, nx, n, dx, v, p);
    }
  }

  lemma ConstantStepAt(gamma: real, nx: nat, n: int, dx: real, v: real, p: nat)
    requires nx >= 2
    requires p < GridSize(nx, n != 1)
    ensures var ops := Matrices(gamma, nx, n);
      var k := Constant(Size(ops), v);
      Step(ops, dx, k, k, Zeros(Size(ops)))[p] == v
  {
    var ops := Matrices(gamma, nx, n);
    var k := Constant(Size(ops), v);
    var z := Zeros(Size(ops));
    Coefficients(gamma, nx, n, p);
    LRowSum(gamma, nx, n, p);
    DotConstant(LRow(ops, p), k, v);
    StepAt(ops, dx, k, k, z, p);
    var a, b, cd := ops.a[p], ops.b[p], dx * dx * ops.c[p];
    assert LApply(ops, k, p) == 0.0;
    assert k[p] == v && z[p] == 0.0;
    assert cd * 0.0 == 0.0;
    assert a * v + b * v == (a + b) * v;
  }
}
