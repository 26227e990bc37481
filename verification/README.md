# Leap-frog wave kernel: a Dafny model

This project models the numerical core of `exercises/week10/waves.py`, a small
finite-difference solver for the scalar wave equation on a line (1-D) or on a square
grid (2-D). It covers three functions.

- **`getMatrices(gamma, nx, n)`**, the operator builder (`operators.dfy`). It builds:
  - a 3-by-`nx` band template `l`, with γ² everywhere, −2γ² on the middle row, and a
    one-sided ±γ stencil at the two ends;
  - three diagonal scalings `A`, `B` and `C`. Their diagonals `a`, `b`, `c` are 2, −1, γ²
    inside the domain and 1, 0, 0 on its boundary;
  - the Laplacian-like operator `L`. On the line it is the tridiagonal `diags(l, [-1,0,1])`.
    On the grid it is the Kronecker sum `kron(T, I) + kron(I, T)`.

  The methods overwrite arrays in place as the code does. They are proved equal to the
  specification function `Matrices`. L is given entry by entry (`LAt`), following scipy's
  convention that a diagonal longer than needed keeps its leading entries.
- **`solve`**, the time stepper (`leapfrog.dfy`). It allocates a zero field `u` of `nx**n`
  rows and `nt` columns. Then it fills columns 2 … nt−1 with the leap-frog update
  `u[:,k+1] = A u[:,k] + L u[:,k] + B u[:,k-1] + dx² C q[:,k]`. The source `q` is
  given as its flat row-major data. `q.resize((nx**n, nt))` is modelled as a reinterpretation
  of that data, truncated or padded with zeros. The method writes into an `array2` column by
  column. Every entry it writes is proved equal to the specification function `Field`.
- **`sample(xin, xout1, xout2)`**, the interpolation-matrix builder (`sampling.dfy`). For
  each query it finds the bracket with a linear scan and appends coordinate triplets to the
  lists `rw`, `cl` and `nz`. In 1-D a query gets two triplets; in 2-D it gets four, on the
  `nx*nx` tensor grid. The method is proved equal to the specification function `SampleSpec`.
  The code's exceptions are modelled as error results:
  - `IndexError` when the scan runs off the end of `xin`, or `xout2` is too short, becomes
    `IndexOutOfRange`;
  - `ZeroDivisionError` on two equal nodes becomes `ZeroDivision`.

`basics.dfy` holds the shared `Option`/`Result` types, Python's integer power, the
uniqueness of division with remainder and the decoding of row-major indices. `sums.dfy` holds finite sums over integer ranges and
the dot product. Floats are modelled as exact reals.

## Model

| member | source | states |
|---|---|---|
| Operators.TemplateAt | exercises/week10/waves.py:109-114 | l[r, s] after the fill and the overwrites: γ² everywhere, −2γ² on row 1, −γ at (1, 0) and (1, nx−1), γ at (2, 0) and at (0, nx−2), where nx−2 wraps to the last column when nx = 1. |
| Operators.BandTemplate | exercises/week10/waves.py:109-114 | The array the code fills and overwrites holds γ² everywhere, −2γ² on row 1, −γ at l[1,0] and l[1,nx−1], γ at l[2,0] and γ at l[0,nx−2] (the last column when nx = 1, as Python's index −1). |
| Operators.EdgeVector | exercises/week10/waves.py:116-151 | After the boundary overwrites (and, on the grid, the row-major flattening), a, b and c hold the edge value exactly at boundary points and the interior value elsewhere. Their length is nx or nx². |
| Operators.GridEdgeVector | exercises/week10/waves.py:132-151 | Overwriting the first and last rows and columns of an nx-by-nx array and flattening it gives the edge value exactly where the row or the column is 0 or nx−1. |
| Operators.Matrices | exercises/week10/waves.py:106-159 | The operators getMatrices returns. The grid layout is chosen iff n ≠ 1. The band is the 3-by-nx template TemplateAt. a, b, c hold 2, −1, γ² inside the domain and 1, 0, 0 on its boundary. |
| Operators.GetMatrices | exercises/week10/waves.py:106-159 | Returns exactly Matrices(gamma, nx, n). The grid layout is chosen iff n ≠ 1. The template is 3-by-nx and a, b, c have the grid's size. |
| Basics.FlatIndex | exercises/week10/waves.py:137 | Row-major flattening: the index r·nx + s has row r and column s, and lies below nx² when r < nx. |
| Operators.Coefficients | exercises/week10/waves.py:116-151 | At a boundary point a, b, c are 1, 0, 0. At an interior point they are 2, −1, γ². So a + b = 1 everywhere. |
| Operators.GridCoefficients | exercises/week10/waves.py:131-151 | On the grid, point (r, s) is at index r·nx + s. Its coefficients are the boundary values exactly when r or s is 0 or nx−1. |
| Operators.BandAt | exercises/week10/waves.py:129 | T = diags(l, [−1, 0, 1], shape=(nx, nx)) entry by entry, in scipy's convention that each diagonal takes the leading entries of its row of l: T[j+1, j] = l[0, j], T[j, j] = l[1, j], T[i, i+1] = l[2, i]. Every other entry is 0, and so is every entry outside the nx-by-nx shape. |
| Operators.LAt | exercises/week10/waves.py:129-153 | L[row, col]: T on the line. On the grid it is kron(T, I) + kron(I, T), where kron(X, Y)[r, c] = X[r / nx, c / nx] · Y[r % nx, c % nx], and 0 outside the nx²-by-nx² shape. |
| Operators.BandIsTridiagonal | exercises/week10/waves.py:129 | T has no entries more than one place off the diagonal. |
| Operators.BandBoundaryRows | exercises/week10/waves.py:109-114 | The first row of T is (−γ, γ, 0, …) and the last is (…, 0, γ, −γ). |
| Operators.BandInteriorRow | exercises/week10/waves.py:109-110 | An interior row of T is the second difference (γ², −2γ², γ²). |
| Operators.BandRowSum | exercises/week10/waves.py:109-129 | For nx ≥ 2 every row of T sums to 0, so T maps constants to zero. |
| Operators.KroneckerSumEntries | exercises/week10/waves.py:153 | On the grid, L[r·nx+s, r'·nx+s'] = T[r,r']·[s=s'] + [r=r']·T[s,s']. |
| Operators.FivePointStencil | exercises/week10/waves.py:153 | At interior grid points L is the five-point Laplacian: −4γ² at the centre and γ² at the four neighbours. |
| Operators.GridBlockSum | exercises/week10/waves.py:153 | Summing a grid row of L over one block of nx columns leaves T[r, r']. |
| Operators.GridRowSum | exercises/week10/waves.py:153 | Every row of the grid operator sums to 0. |
| Operators.LRowSum | exercises/week10/waves.py:129-153 | Every row of L sums to 0, on the line and on the grid (nx ≥ 2). |
| LeapFrog.Resized | exercises/week10/waves.py:11 | Entry (p, k) of q after q.resize((rows, nt)): element p·nt + k of q's flat data, or 0 past its end. |
| LeapFrog.SourceColumn | exercises/week10/waves.py:11 | Column k of the resized source, q[:, k], with one entry per grid point. |
| LeapFrog.Step | exercises/week10/waves.py:19 | One update, A u[:,k] + L u[:,k] + B u[:,k−1] + dx² C q[:,k], point by point. It has one entry per grid point. |
| LeapFrog.Field | exercises/week10/waves.py:16-19 | The first count columns of u: two zero columns, then one Step per further column. There are count columns of rows entries each. |
| LeapFrog.ApplyRow | exercises/week10/waves.py:19 | The accumulated sum is (L @ u[:,k])[p]. |
| LeapFrog.StepColumn | exercises/week10/waves.py:19 | Column k+1 becomes the leap-frog step of columns k and k−1 and source column k. Every other column is unchanged. |
| LeapFrog.Solve | exercises/week10/waves.py:4-21 | Fails iff nt ≥ 3 and nx**n differs from the operators' size (for nx ≥ 2: exactly when n ∉ {1, 2}). Otherwise it returns an nx**n-by-nt array whose every entry equals the specification field Field. |
| LeapFrog.FieldPrefix | exercises/week10/waves.py:18-19 | Computing more columns never changes the earlier ones. |
| LeapFrog.InitialColumnsZero | exercises/week10/waves.py:16-18 | Columns 0 and 1 of the field are zero. |
| LeapFrog.FieldRecurrence | exercises/week10/waves.py:18-19 | Column k+1 of the field is the step of columns k and k−1 and source column k, for every 1 ≤ k. |
| LeapFrog.Causality | exercises/week10/waves.py:18-19 | The first count columns depend only on source columns 1 … count−2. |
| LeapFrog.ZeroSourceZeroField | exercises/week10/waves.py:16-19 | A zero source gives an all-zero field. |
| LeapFrog.LApplyLinear | exercises/week10/waves.py:19 | L @ (αv + βw) = α L@v + β L@w, row by row. |
| LeapFrog.StepLinear | exercises/week10/waves.py:19 | One update is linear in the two history columns and the source together. |
| LeapFrog.StepLinearAt | exercises/week10/waves.py:19 | At one grid point, the update of a combination of columns is the same combination of the two updates. |
| LeapFrog.FieldLinear | exercises/week10/waves.py:11-19 | Superposition: the field of αq₁ + βq₂ is α times the field of q₁ plus β times the field of q₂, column by column. |
| LeapFrog.BoundaryUpdate | exercises/week10/waves.py:19 | At a boundary point the update is u[p] + (L u)[p]: neither the previous level nor the source enters. |
| LeapFrog.ConstantIsSteady | exercises/week10/waves.py:19 | With no source, a constant field is a fixed point of the update (nx ≥ 2). |
| Sampling.ScanFrom | exercises/week10/waves.py:60-62 | The scan started at i stops at a node ≥ x with every node before it below x. It runs off the end iff every remaining node is below x. |
| Sampling.FirstAtLeast | exercises/week10/waves.py:60-62 | The bracket is the first index whose node is ≥ x. There is none iff every node is below x. |
| Sampling.Scan | exercises/week10/waves.py:60-62 | The while loop ends at FirstAtLeast(xin, x), or runs off the end when that is None. |
| Sampling.Weight0 | exercises/week10/waves.py:64 | a = (x − xin[i+1]) / (xin[i] − xin[i+1]), defined when the two nodes differ. |
| Sampling.Weight1 | exercises/week10/waves.py:65 | b = (x − xin[i]) / (xin[i+1] − xin[i]), defined when the two nodes differ. |
| Sampling.LinearBasis | exercises/week10/waves.py:64-65 | The two 1-D weights sum to 1 and reproduce the query. They are (1, 0) at xin[i] and (0, 1) at xin[i+1]. |
| Sampling.Weight2 | exercises/week10/waves.py:82-85 | One 2-D weight with the code's grouping: (x − x₁)(y − y₁)/(c₀ − c₁)/(d₀ − d₁). |
| Sampling.Weights2 | exercises/week10/waves.py:82-85 | The four weights a, b, c, d, in the code's order and with its pairs of nodes. |
| Sampling.Weight2Product | exercises/week10/waves.py:82-85 | A 2-D weight, with the code's grouping (x−x₁)(y−y₁)/(c₀−c₁)/(d₀−d₁), is the product of the two 1-D quotients. |
| Sampling.BilinearBasis | exercises/week10/waves.py:82-85 | Each 2-D weight is the product of the two 1-D bases. The four weights sum to 1 and reproduce both coordinates of the query. |
| Sampling.Cell | exercises/week10/waves.py:88 | The column i + nx·j of grid node (i, j). |
| Sampling.Corners | exercises/week10/waves.py:87-101 | The four columns i+nx·j, i+1+nx·j, i+nx·(j+1), i+1+nx·(j+1), in the order the code appends them. |
| Sampling.CornerIndices | exercises/week10/waves.py:87-101 | The four corner columns are pairwise distinct and below nx². They decode to (i, j), (i+1, j), (i, j+1), (i+1, j+1). |
| Sampling.Row1 | exercises/week10/waves.py:60-71 | A 1-D row's triplets are aligned, all in row k, all in columns < nx. |
| Sampling.Row2 | exercises/week10/waves.py:75-101 | A 2-D row's triplets are aligned, all in row k, all in columns < nx². |
| Sampling.Row | exercises/week10/waves.py:58-102 | A row's triplets are aligned, in row k, and inside the matrix width. |
| Sampling.Rows | exercises/week10/waves.py:58-102 | After count queries the lists are aligned, with rows < count and columns < width. |
| Sampling.SampleSpec | exercises/week10/waves.py:43-104 | The matrix is m × nx in 1-D and m × nx² in 2-D, with 2-D iff xout2 is non-empty. rw, cl, nz have equal length and every index is inside the shape. |
| Sampling.RowsErrSticky | exercises/week10/waves.py:58-102 | An exception raised by one query aborts the whole call with that exception. |
| Sampling.Sample | exercises/week10/waves.py:43-104 | The loop over queries returns exactly SampleSpec: the same triplets in the same order, or the same exception. |
| Sampling.AppendLineRow | exercises/week10/waves.py:59-71 | One pass of the 1-D loop appends exactly the row's triplets, or raises the row's exception. |
| Sampling.AppendGridRow | exercises/week10/waves.py:74-101 | One pass of the 2-D loop appends exactly the row's four triplets, or raises the row's exception. |
| Sampling.Row1Entries | exercises/week10/waves.py:63-71 | Row k gets the triplets (k, i), (k, i+1) when i < nx−1, and none otherwise. The weights sum to 1, reproduce the query, and are (1, 0) when the query is xin[i]. |
| Sampling.Row2Entries | exercises/week10/waves.py:81-101 | Row k gets four triplets only when i < nx−1 and j < nx−1. They sit at i+nx·j, i+1+nx·j, i+nx·(j+1), i+1+nx·(j+1), pairwise distinct and < nx², with the code's bilinear weights. Otherwise the row is empty. |
| Sampling.RowsRowOf | exercises/week10/waves.py:58-102 | After count queries, row k of the lists holds exactly what query k appended. Rows not yet reached are empty. |
| Sampling.SampleRow | exercises/week10/waves.py:72 | Row k of the returned matrix holds exactly the triplets query k produced. |
| Sampling.SampleInterpolatesLine | exercises/week10/waves.py:58-72 | In 1-D, a row with a bracket below nx−1 maps the node values to the query and all-ones to 1. Every other row is empty. |
| Sampling.SampleInterpolatesGrid | exercises/week10/waves.py:73-102 | In 2-D, such a row maps the two coordinate fields of the grid to the two coordinates of the query and all-ones to 1. Every other row is empty. |
| Sampling.ScanFinds | exercises/week10/waves.py:60-62 | On increasing nodes the scan finds a bracket iff the query is not beyond the last node. |
| Sampling.FirstError | exercises/week10/waves.py:58-102 | The first failing result, scanning from the front: none iff every result succeeds, and otherwise the error of a failing result with only successes before it. |
| Sampling.RowsFirstError | exercises/week10/waves.py:58-102 | After count queries, sample has raised iff some query's row fails, and it raised the exception of the first such query. |
| Sampling.RowSucceeds | exercises/week10/waves.py:58-102 | On strictly increasing nodes, one query's row succeeds iff its coordinates are not beyond the last node (and, in 2-D, xout2 has its entry). A failing row raises IndexError. |
| Sampling.RowsSucceed | exercises/week10/waves.py:58-102 | On strictly increasing nodes, the first count queries all pass iff each of them is covered. Any exception is IndexError. |
| Sampling.SampleSucceeds | exercises/week10/waves.py:43-104 | On strictly increasing nodes, sample returns a matrix iff no query coordinate lies beyond the last node and, in 2-D, xout2 has an entry for every query. Otherwise it raises IndexError, never ZeroDivisionError. |
| Sampling.AsWrittenExtrapolates | exercises/week10/waves.py:60-71 | A query strictly inside (xin[i−1], xin[i]) gets weights from (xin[i], xin[i+1]): the first exceeds 1 and the second is negative. |
| Sampling.AsWrittenDropsLastCell | exercises/week10/waves.py:60-63 | A query in the last cell (xin[nx−2], xin[nx−1]], the last node included, gets an empty row. |
| Sampling.IntendedBracket | exercises/week10/waves.py:60-62 | The corrected bracket: the index just below the first node ≥ x, or 0 when that is the first node. It lies inside xin, and there is none iff every node is below x. |
| Sampling.IntendedRow1 | exercises/week10/waves.py:60-71 | The corrected row: aligned, in row k, with columns < nx. |
| Sampling.IntendedRowInterpolates | exercises/week10/waves.py:60-71 | With the corrected bracket, every query in [xin[0], xin[nx−1]] gets two adjacent nodes that enclose it. Its weights lie in [0, 1], sum to 1 and reproduce the query. |
| Sampling.IntendedRow2 | exercises/week10/waves.py:75-101 | The corrected 2-D row, with the corrected bracket on each axis: aligned, in row k, with columns < nx². |
| Sampling.IntendedGridInterpolates | exercises/week10/waves.py:77-101 | With the corrected bracket on both axes, every query in the square [xin[0], xin[nx−1]]² gets the four corners of the cell that encloses it. Its weights lie in [0, 1], sum to 1 and reproduce both coordinates. |
| Sampling.LineExample | exercises/week10/waves.py:43-72 | sample([0,1,2,3], [0.5]) is the 1 × 4 matrix with 1.5 at column 1 and −0.5 at column 2. The corrected row gives 0.5 at columns 0 and 1. |
| Sampling.GridExample | exercises/week10/waves.py:73-102 | sample([0,1,2,3], [0.5], [1.5]) has four triplets, at columns 9, 10, 13, 14, with weights 2.25, −0.75, −0.75 and 0.25. The corrected row gives columns 4, 5, 8, 9 with 0.25 each. |

## Left out

- `multiply` (exercises/week10/waves.py:23-41) is not modelled. Its result `q` is computed but never returned, and `q[k] = …` assigns a row where a column is meant, so there is no coherent contract to state.
- The derived quantities `gamma = dt*c/dx`, `nt = int(T/dt + 1)` and `nx = int(2*L/dx + 2)` (exercises/week10/waves.py:7-9) are left out. The model takes gamma, nt and nx as parameters. The float-to-int truncation is not modelled.
- LeapFrog.Solve models `q.resize` as a reinterpretation of q's flat data. It does not model that the caller's array is resized in place, nor numpy's refusal to resize an array that other references share.
- LeapFrog.Solve takes n as a natural number. A negative n makes `nx**n` a float, which numpy refuses as a shape; that case is excluded by the type.
- Operators.GetMatrices requires nx ≥ 1. With nx = 0 the code raises IndexError at `l[1,0]`, and solve computes nx ≥ 2 anyway.
- Floating point is modelled as exact reals. Rounding, overflow, the CFL stability limit γ ≤ 1 and numpy's inf/nan results are not modelled. Sampling's ZeroDivision follows Python float division, which raises; numpy scalars would instead give inf or nan with a warning.
- scipy's sparse containers are modelled by their content:
  - `A`, `B`, `C` by their diagonals;
  - `L` by its entry function `LAt`;
  - `coo_matrix` by its triplet lists, where `MatVec` gives a row times a vector.

  Storage formats, conversion to dense arrays and duplicate summing beyond `Apply` are not modelled.
- Sampling.AppendGridRow takes the four 2-D weights from `Weights2`, which holds the code's four formulas with the same grouping. It does not repeat the formulas inline.
- Sampling.Sample tests the 1-D/2-D choice inside the loop over queries instead of before it. The choice depends only on `xout2`, so this gives the same triplets and the same exceptions.

## Findings

| source | as written | input that shows it | evidently intended | confidence | as-written member | corrected member |
|---|---|---|---|---|---|---|
| exercises/week10/waves.py:60-71 | The bracket is the first i with xin[i] ≥ x, and the weights come from xin[i] and xin[i+1]. A query between two nodes is extrapolated from the cell to its right. | xin = [0, 1, 2, 3], xout1 = [0.5] gives columns 1, 2 with weights 1.5, −0.5 | Interpolate in the cell that contains the query: columns 0, 1 with weights 0.5, 0.5 | not executed | Sampling.AsWrittenExtrapolates | Sampling.IntendedRowInterpolates |
| exercises/week10/waves.py:60-63 | A query in the last cell, including the last node itself, has bracket nx−1 and gets no triplets. | xin = [0, 1, 2, 3], xout1 = [2.5] (or [3]) gives an empty row | Two triplets on the cell [2, 3] | not executed | Sampling.AsWrittenDropsLastCell | Sampling.IntendedRowInterpolates |
| exercises/week10/waves.py:77-85 | The 2-D scans use the same bracket on each axis, so a query inside a cell gets its weights from the cell above and to the right of it. | xin = [0, 1, 2, 3], xout1 = [0.5], xout2 = [1.5] gives columns 9, 10, 13, 14 with weights 2.25, −0.75, −0.75, 0.25 | Interpolate in the cell that contains the query: columns 4, 5, 8, 9 with weight 0.25 each | not executed | Sampling.GridExample | Sampling.IntendedGridInterpolates |

`Sample` itself keeps the bracket as written, because it models what the code computes.
`IntendedRow1` and `IntendedRow2` are the corrected row rules, on the line and on the grid.
`IntendedRowInterpolates` and `IntendedGridInterpolates` prove the intended property about
them. `LineExample` and `GridExample` show both rules on the same input.
