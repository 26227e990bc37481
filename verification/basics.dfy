/** Small shared vocabulary: optional values, results that carry an error, and natural powers. */
module Basics {

  datatype Option<T> = None | Some(value: T)

  /** The outcome of an operation whose source raises an exception on some inputs. */
  datatype Result<T, E> = Ok(value: T) | Err(error: E)

  /** b ** e for natural numbers, as Python's integer power. */
  function Pow(b: nat, e: nat): nat
  {
    if e == 0 then 1 else b * Pow(b, e - 1)
  }

  /** Row-major decomposition is unique: p == q * nx + s with 0 <= s < nx fixes the
      quotient and the remainder. */
  lemma DivModUnique(p: int, nx: int, q: int, s: int)
    requires nx > 0 && 0 <= s < nx && p == q * nx + s
    ensures p / nx == q && p % nx == s
  {
    var d := q - p / nx;
    assert d * nx == p % nx - s;
  }

  lemma MulMonotone(a: nat, b: nat, c: nat)
    requires a <= b
    ensures a * c <= b * c
  {
  }

  /** Row-major coordinates: p = r * nx + s has row p / nx == r and column p % nx == s, and
      lies inside the grid when r does. */
  lemma FlatIndex(nx: nat, r: nat, s: nat)
    requires s < nx
    ensures (r * nx + s) / nx == r && (r * nx + s) % nx == s
    ensures r < nx ==> r * nx + s < nx * nx
  {
    DivModUnique(r * nx + s, nx, r, s);
    if r < nx {
      MulMonotone(r + 1, nx, nx);
    }
  }
}
