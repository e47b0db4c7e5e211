/**
 * `solve_5x5` of examples/gvp_testing.rs over exact reals: in-place Gaussian elimination with
 * partial pivoting, then back substitution. A zero divisor, which leaves NaN or infinity in f64
 * arithmetic, ends the model with None.
 */
module LinearSolve {
  import opened Prelude

  const N: nat := 5

  type Vec = seq<real>
  type Matrix = seq<seq<real>>

  predicate Shaped(a: Matrix) { |a| == N && forall i | 0 <= i < N :: |a[i]| == N }

  const ZEROS: Vec := [0.0, 0.0, 0.0, 0.0, 0.0]

  // ---- dot products ----------------------------------------------------------

  /** Multiplication, under a name so that proofs can keep products folded. */
  function Times(x: real, y: real): real { x * y }

  lemma TimesFacts(x: real, y: real, z: real)
    ensures Times(x, y) == Times(y, x)
    ensures Times(x, y + z) == Times(x, y) + Times(x, z)
    ensures Times(x, y - z) == Times(x, y) - Times(x, z)
    ensures Times(x, Times(y, z)) == Times(Times(x, y), z)
    ensures Times(0.0, y) == 0.0 && Times(1.0, y) == y && Times(-1.0, y) == -y
  {}

  /** v - f * c, the elimination update. */
  function Sub(v: real, f: real, c: real): real { v - Times(f, c) }

  /** The sum of u[j] * x[j] over j < n. */
  function Dot(u: Vec, x: Vec, n: nat): real
    requires n <= |u| && n <= |x|
  {
    if n == 0 then 0.0 else Dot(u, x, n - 1) + Times(u[n - 1], x[n - 1])
  }

  /** u - f * c */
  function Axpy(u: Vec, f: real, c: Vec): (w: Vec)
    requires |u| == |c|
    ensures |w| == |u| && forall j | 0 <= j < |u| :: w[j] == Sub(u[j], f, c[j])
  {
    seq(|u|, j requires 0 <= j < |u| => Sub(u[j], f, c[j]))
  }

  lemma {:induction false} DotAxpy(u: Vec, f: real, c: Vec, x: Vec, n: nat)
    requires n <= |u| == |c| && n <= |x|
    ensures Dot(Axpy(u, f, c), x, n) == Sub(Dot(u, x, n), f, Dot(c, x, n))
  {
    hide Times;
    TimesFacts(f, 0.0, 0.0);
    TimesFacts(0.0, f, f);
    if n > 0 {
      DotAxpy(u, f, c, x, n - 1);
      var (uj, cj, xj) := (u[n - 1], c[n - 1], x[n - 1]);
      TimesFacts(xj, uj, Times(f, cj));
      TimesFacts(Times(f, cj), xj, xj);
      TimesFacts(uj, xj, xj);
      TimesFacts(Sub(uj, f, cj), xj, xj);
      TimesFacts(f, cj, xj);
      TimesFacts(f, Dot(c, x, n - 1), Times(cj, xj));
    }
  }

  lemma {:induction false} DotSymmetric(u: Vec, x: Vec, n: nat)
    requires n <= |u| && n <= |x|
    ensures Dot(u, x, n) == Dot(x, u, n)
  {
    hide Times;
    if n > 0 {
      DotSymmetric(u, x, n - 1);
      TimesFacts(u[n - 1], x[n - 1], 0.0);
    }
  }

  /** Changing one entry of x changes the product by that entry's share. */
  lemma {:induction false} DotUpdate(u: Vec, x: Vec, k: nat, v: real, n: nat)
    requires n <= |u| && n <= |x| && k < |x|
    ensures k < n ==> Dot(u, x[k := v], n) == Dot(u, x, n) + Times(u[k], v - x[k])
    ensures k >= n ==> Dot(u, x[k := v], n) == Dot(u, x, n)
  {
    hide Times;
    if n > 0 {
      DotUpdate(u, x, k, v, n - 1);
      if k == n - 1 { TimesFacts(u[k], v, x[k]); }
    }
  }

  lemma {:induction false} DotVanishes(u: Vec, x: Vec, n: nat)
    requires n <= |u| && n <= |x|
    requires forall j | 0 <= j < n :: u[j] == 0.0 || x[j] == 0.0
    ensures Dot(u, x, n) == 0.0
  {
    hide Times;
    if n > 0 {
      DotVanishes(u, x, n - 1);
      TimesFacts(u[n - 1], x[n - 1], 0.0);
      TimesFacts(x[n - 1], u[n - 1], 0.0);
    }
  }

  /** Only entry k can contribute. */
  lemma {:induction false} DotSingle(u: Vec, x: Vec, k: nat, n: nat)
    requires k < n <= |u| && n <= |x|
    requires forall j | 0 <= j < n && j != k :: u[j] == 0.0 || x[j] == 0.0
    ensures Dot(u, x, n) == Times(u[k], x[k])
  {
    hide Times;
    if k == n - 1 {
      DotVanishes(u, x, n - 1);
    } else {
      DotSingle(u, x, k, n - 1);
      TimesFacts(u[n - 1], x[n - 1], 0.0);
      TimesFacts(x[n - 1], u[n - 1], 0.0);
    }
  }

  // ---- systems -----------------------------------------------------------------

  predicate Solves(a: Matrix, b: Vec, x: Vec)
    requires Shaped(a) && |b| == N
  {
    |x| == N && forall i | 0 <= i < N :: Dot(a[i], x, |a|) == b[i]
  }

  /** Only the zero vector is mapped to zero. */
  ghost predicate Nonsingular(a: Matrix)
    requires Shaped(a)
  {
    forall x: Vec | Solves(a, ZEROS, x) :: x == ZEROS
  }

  ghost predicate SameSolutions(a: Matrix, b: Vec, a': Matrix, b': Vec)
    requires Shaped(a) && Shaped(a') && |b| == |b'| == N
  {
    forall x: Vec :: Solves(a, b, x) <==> Solves(a', b', x)
  }

  /** The two systems have the same solutions, and so do their homogeneous forms. */
  ghost predicate Equivalent(a: Matrix, b: Vec, a': Matrix, b': Vec)
    requires Shaped(a) && Shaped(a') && |b| == |b'| == N
  {
    SameSolutions(a, b, a', b') && SameSolutions(a, ZEROS, a', ZEROS)
  }

  lemma EquivalentStep(a: Matrix, b: Vec, a': Matrix, b': Vec, a'': Matrix, b'': Vec)
    requires Shaped(a) && Shaped(a') && Shaped(a'') && |b| == |b'| == |b''| == N
    requires Equivalent(a, b, a', b') && Equivalent(a', b', a'', b'')
    ensures Equivalent(a, b, a'', b'')
  {}

  function Swapped<T>(s: seq<T>, i: nat, j: nat): (r: seq<T>)
    requires i < |s| && j < |s|
    ensures |r| == |s|
  {
    s[i := s[j]][j := s[i]]
  }

  lemma SwapKeepsSolutions(a: Matrix, b: Vec, i: nat, j: nat)
    requires Shaped(a) && |b| == N && i < N && j < N
    ensures Shaped(Swapped(a, i, j)) && SameSolutions(a, b, Swapped(a, i, j), Swapped(b, i, j))
  {
    var a', b' := Swapped(a, i, j), Swapped(b, i, j);
    forall x: Vec ensures Solves(a, b, x) <==> Solves(a', b', x) {
      if Solves(a', b', x) {
        forall k | 0 <= k < N ensures Dot(a[k], x, |a|) == b[k] {
          var k' := if k == i then j else if k == j then i else k;
          assert Dot(a'[k'], x, |a'|) == b'[k'];
        }
      }
    }
  }

  lemma SwapEquivalent(a: Matrix, b: Vec, i: nat, j: nat)
    requires Shaped(a) && |b| == N && i < N && j < N
    ensures Shaped(Swapped(a, i, j)) && Equivalent(a, b, Swapped(a, i, j), Swapped(b, i, j))
  {
    SwapKeepsSolutions(a, b, i, j);
    SwapKeepsSolutions(a, ZEROS, i, j);
    assert Swapped(ZEROS, i, j) == ZEROS;
  }

  /** Subtracting f times row `col` from another row. */
  function RowReduced(a: Matrix, row: nat, col: nat, f: real): (r: Matrix)
    requires Shaped(a) && row < N && col < N
    ensures Shaped(r)
  {
    a[row := Axpy(a[row], f, a[col])]
  }

  lemma ReduceKeepsSolutions(a: Matrix, b: Vec, row: nat, col: nat, f: real)
    requires Shaped(a) && |b| == N && row < N && col < N && row != col
    ensures SameSolutions(a, b, RowReduced(a, row, col, f), b[row := Sub(b[row], f, b[col])])
  {
    var a', b' := RowReduced(a, row, col, f), b[row := Sub(b[row], f, b[col])];
    forall x: Vec ensures Solves(a, b, x) <==> Solves(a', b', x) {
      if |x| == N {
        DotAxpy(a[row], f, a[col], x, |a|);
        assert a'[col] == a[col] && b'[col] == b[col];
        if Solves(a', b', x) {
          assert Dot(a'[row], x, |a'|) == b'[row] && Dot(a'[col], x, |a'|) == b'[col];
          forall k | 0 <= k < N ensures Dot(a[k], x, |a|) == b[k] {
            if k != row { assert Dot(a'[k], x, |a'|) == b'[k]; }
          }
        }
      }
    }
  }

  lemma ReduceEquivalent(a: Matrix, b: Vec, row: nat, col: nat, f: real)
    requires Shaped(a) && |b| == N && row < N && col < N && row != col
    ensures Equivalent(a, b, RowReduced(a, row, col, f), b[row := Sub(b[row], f, b[col])])
  {
    ReduceKeepsSolutions(a, b, row, col, f);
    ReduceKeepsSolutions(a, ZEROS, row, col, f);
    assert Sub(ZEROS[row], f, ZEROS[col]) == 0.0;
    assert ZEROS[row := 0.0] == ZEROS;
  }

  // ---- echelon form ------------------------------------------------------------

  /** Columns before `col` are zero below the diagonal. */
  predicate Cleared(a: Matrix, col: nat)
    requires Shaped(a)
  {
    forall r, j | 0 <= r < N && 0 <= j < r && j < col :: a[r][j] == 0.0
  }

  predicate Pivoted(a: Matrix, col: nat)
    requires Shaped(a) && col <= N
  {
    forall c | 0 <= c < col :: a[c][c] != 0.0
  }

  /** Entries of x below k can be chosen so that the rows above k are satisfied too. */
  lemma {:induction false} FillDownwards(a: Matrix, col: nat, k: nat, x: Vec) returns (y: Vec)
    requires Shaped(a) && col < N && k <= col && |x| == N
    requires Cleared(a, col) && Pivoted(a, col)
    requires forall r | k <= r < N :: Dot(a[r], x, |a|) == 0.0
    ensures |y| == N && y[col] == x[col] && Solves(a, ZEROS, y)
    decreases k
  {
    hide Times;
    if k == 0 {
      y := x;
    } else {
      var c := k - 1;
      var v := x[c] - Dot(a[c], x, |a|) / a[c][c];
      DivideBack(Dot(a[c], x, |a|), a[c][c]);
      TimesFacts(a[c][c], 0.0, Dot(a[c], x, |a|) / a[c][c]);
      TimesFacts(0.0, a[c][c], 0.0);
      TimesFacts(a[c][c], 0.0, 0.0);
      forall r | c <= r < N ensures Dot(a[r], x[c := v], |a|) == 0.0 {
        DotUpdate(a[r], x, c, v, |a|);
        if r > c { TimesFacts(a[r][c], v - x[c], 0.0); }
      }
      y := FillDownwards(a, col, c, x[c := v]);
    }
  }

  /** When partial pivoting finds only zeros, the matrix is singular. */
  lemma ZeroColumnSingular(a: Matrix, col: nat)
    requires Shaped(a) && col < N
    requires Cleared(a, col) && Pivoted(a, col)
    requires forall r | col <= r < N :: a[r][col] == 0.0
    ensures !Nonsingular(a)
  {
    var e := ZEROS[col := 1.0];
    forall r | col <= r < N ensures Dot(a[r], e, |a|) == 0.0 {
      DotVanishes(a[r], e, |a|);
    }
    var y := FillDownwards(a, col, col, e);
    assert y[col] != ZEROS[col];
  }

  /** A triangular system with non-zero diagonal determines its unknowns, last first. */
  lemma {:induction false} TriangularDetermines(a: Matrix, b: Vec, x: Vec, y: Vec, k: nat)
    requires Shaped(a) && |b| == N && k < N
    requires Cleared(a, N) && Pivoted(a, N)
    requires Solves(a, b, x) && Solves(a, b, y)
    ensures x[k] == y[k]
    decreases N - k
  {
    hide Times, Dot;
    var z := Axpy(x, 1.0, y);
    forall j | 0 <= j < N ensures z[j] == x[j] - y[j] { TimesFacts(0.0, y[j], 0.0); }
    forall j | k < j < N ensures z[j] == 0.0 {
      TriangularDetermines(a, b, x, y, j);
    }
    DotAxpy(x, 1.0, y, a[k], |a|);
    DotSymmetric(z, a[k], |a|);
    DotSymmetric(x, a[k], |a|);
    DotSymmetric(y, a[k], |a|);
    DotSingle(a[k], z, k, |a|);
    TimesFacts(0.0, Dot(y, a[k], |a|), 0.0);
    NonzeroFactor(a[k][k], z[k]);
  }

  lemma NonzeroFactor(d: real, q: real)
    requires d != 0.0 && Times(d, q) == 0.0
    ensures q == 0.0
  {}

  lemma TriangularUnique(a: Matrix, b: Vec, x: Vec)
    requires Shaped(a) && |b| == N
    requires Cleared(a, N) && Pivoted(a, N) && Solves(a, b, x)
    ensures forall y: Vec | Solves(a, b, y) :: y == x
  {
    forall y: Vec | Solves(a, b, y) ensures y == x {
      forall k | 0 <= k < N ensures x[k] == y[k] { TriangularDetermines(a, b, x, y, k); }
    }
  }

  lemma TriangularNonsingular(a: Matrix)
    requires Shaped(a) && Cleared(a, N) && Pivoted(a, N)
    ensures Nonsingular(a)
  {
    forall i | 0 <= i < N ensures Dot(a[i], ZEROS, |a|) == ZEROS[i] { DotVanishes(a[i], ZEROS, |a|); }
    TriangularUnique(a, ZEROS, ZEROS);
  }

  // ---- the algorithm -----------------------------------------------------------

  function Abs(r: real): real { if r < 0.0 then -r else r }

  ghost predicate Arrays(a: array<seq<real>>, b: array<real>)
    reads a
  {
    a.Length == N && b.Length == N && Shaped(a[..])
  }

  method PivotRow(a: array<seq<real>>, col: nat) returns (maxRow: nat)
    requires a.Length == N && Shaped(a[..]) && col < N
    ensures col <= maxRow < N
    ensures forall r | col <= r < N :: Abs(a[r][col]) <= Abs(a[maxRow][col])
  {
    maxRow := col;
    var maxVal := Abs(a[col][col]);
    for row := col + 1 to N
      invariant col <= maxRow < N && maxVal == Abs(a[maxRow][col])
      invariant forall r | col <= r < row :: Abs(a[r][col]) <= maxVal
    {
      var val := Abs(a[row][col]);
      if val > maxVal {
        maxVal := val;
        maxRow := row;
      }
    }
  }

  lemma SubZero(v: real, f: real)
    ensures Sub(v, f, 0.0) == v
  {}

  /** a[row] -= factor * a[col], entry by entry from column col on; b likewise. */
  method ReduceRow(a: array<seq<real>>, b: array<real>, row: nat, col: nat, factor: real)
    requires Arrays(a, b) && col < row < N
    requires forall j | 0 <= j < col :: a[col][j] == 0.0
    modifies a, b
    ensures Arrays(a, b)
    ensures a[..] == RowReduced(old(a[..]), row, col, factor)
    ensures b[..] == old(b[..])[row := Sub(old(b[row]), factor, old(b[col]))]
  {
    hide Times, Sub;
    forall j | 0 <= j < col ensures Sub(a[row][j], factor, a[col][j]) == a[row][j] { SubZero(a[row][j], factor); }
    ghost var u := a[row];
    ghost var w := Axpy(a[row], factor, a[col]);
    for j := col to N
      invariant |a[row]| == N
      invariant forall i | 0 <= i < N :: b[i] == old(b[i])
      invariant forall i | 0 <= i < N && i != row :: a[i] == old(a[i])
      invariant forall i | 0 <= i < N :: a[row][i] == if i < j then w[i] else u[i]
    {
      a[row] := a[row][j := Sub(a[row][j], factor, a[col][j])];
    }
    assert a[row] == w;
    b[row] := Sub(b[row], factor, b[col]);
  }

  /** Clearing is done up to row `row` of column `col`. */
  predicate PartlyCleared(a: Matrix, row: nat, col: nat)
    requires Shaped(a) && col < row <= N
  {
    Cleared(a, col) && Pivoted(a, col + 1) && forall r | col < r < row :: a[r][col] == 0.0
  }

  /** The system after clearing entry (row, col) with the pivot of column col. */
  function Factor(a: Matrix, row: nat, col: nat): real
    requires Shaped(a) && row < N && col < N && a[col][col] != 0.0
  {
    a[row][col] / a[col][col]
  }

  function RowCleared(a: Matrix, row: nat, col: nat): (r: Matrix)
    requires Shaped(a) && row < N && col < N && a[col][col] != 0.0
    ensures Shaped(r)
  {
    RowReduced(a, row, col, Factor(a, row, col))
  }

  function RhsCleared(a: Matrix, b: Vec, row: nat, col: nat): (r: Vec)
    requires Shaped(a) && |b| == N && row < N && col < N && a[col][col] != 0.0
    ensures |r| == N
  {
    b[row := Sub(b[row], Factor(a, row, col), b[col])]
  }

  lemma ReduceClears(a: Matrix, row: nat, col: nat)
    requires Shaped(a) && col < row < N && PartlyCleared(a, row, col)
    ensures PartlyCleared(RowCleared(a, row, col), row + 1, col)
  {
    var a' := RowCleared(a, row, col);
    hide Times, Sub;
    DivideBack(a[row][col], a[col][col]);
    forall r, j | 0 <= r < N && 0 <= j < r && j < col ensures a'[r][j] == 0.0 {
      if r == row { SubZero(a[row][j], Factor(a, row, col)); }
    }
  }

  lemma ClearedStep(a0: Matrix, b0: Vec, a: Matrix, b: Vec, row: nat, col: nat)
    requires Shaped(a0) && Shaped(a) && |b0| == |b| == N && col < row < N
    requires PartlyCleared(a, row, col) && Equivalent(a0, b0, a, b)
    ensures Equivalent(a0, b0, RowCleared(a, row, col), RhsCleared(a, b, row, col))
  {
    ReduceEquivalent(a, b, row, col, Factor(a, row, col));
    EquivalentStep(a0, b0, a, b, RowCleared(a, row, col), RhsCleared(a, b, row, col));
  }

  method ClearRow(a: array<seq<real>>, b: array<real>, row: nat, col: nat, pivot: real)
    requires Arrays(a, b) && col < row < N && pivot == a[col][col] != 0.0
    requires forall j | 0 <= j < col :: a[col][j] == 0.0
    modifies a, b
    ensures Arrays(a, b)
    ensures a[..] == RowCleared(old(a[..]), row, col)
    ensures b[..] == RhsCleared(old(a[..]), old(b[..]), row, col)
  {
    var factor := a[row][col] / pivot;
    ReduceRow(a, b, row, col, factor);
  }

  /** One column of forward elimination below a non-zero pivot. */
  method EliminateColumn(a: array<seq<real>>, b: array<real>, col: nat)
    requires Arrays(a, b) && col < N
    requires Cleared(a[..], col) && Pivoted(a[..], col + 1)
    modifies a, b
    ensures Arrays(a, b)
    ensures Cleared(a[..], col + 1) && Pivoted(a[..], col + 1)
    ensures Equivalent(old(a[..]), old(b[..]), a[..], b[..])
  {
    ghost var a0, b0 := a[..], b[..];
    var pivot := a[col][col];
    for row := col + 1 to N
      invariant Arrays(a, b)
      invariant PartlyCleared(a[..], row, col) && a[col][col] == pivot
      invariant Equivalent(a0, b0, a[..], b[..])
    {
      ghost var a1, b1 := a[..], b[..];
      ReduceClears(a1, row, col);
      ClearedStep(a0, b0, a1, b1, row, col);
      ClearRow(a, b, row, col, pivot);
      assert a[..][col] == a1[col];
    }
  }

  lemma DivideBack(d: real, p: real)
    requires p != 0.0
    ensures Sub(d, d / p, p) == 0.0 && Times(p, d / p) == d
  {}

  method BackSubstitute(a: array<seq<real>>, b: array<real>) returns (x: Vec)
    requires Arrays(a, b) && Cleared(a[..], N) && Pivoted(a[..], N)
    ensures Solves(a[..], b[..], x)
  {
    hide Times;
    x := [0.0, 0.0, 0.0, 0.0, 0.0];
    for i := N downto 0
      invariant |x| == N
      invariant forall j | 0 <= j < i :: x[j] == 0.0
      invariant forall r | i <= r < N :: Dot(a[r], x, a.Length) == b[r]
    {
      var sum := b[i];
      DotVanishes(a[i], x, i + 1);
      for j := i + 1 to N
        invariant sum == b[i] - Dot(a[i], x, j)
      {
        sum := sum - Times(a[i][j], x[j]);
      }
      var v := sum / a[i][i];
      DivideBack(sum, a[i][i]);
      forall r | i <= r < N ensures Dot(a[r], x[i := v], a.Length) == b[r] {
        DotUpdate(a[r], x, i, v, a.Length);
        if r > i {
          assert a[..][r][i] == 0.0;
          TimesFacts(0.0, v - x[i], 0.0);
        }
      }
      x := x[i := v];
    }
  }

  /**
   * Succeeds exactly on nonsingular matrices, and then returns the one solution of the system
   * it was given, although both arrays have been overwritten.
   */
  method Solve5x5(a: array<seq<real>>, b: array<real>) returns (r: Option<Vec>)
    requires Arrays(a, b)
    modifies a, b
    ensures r.Some? <==> Nonsingular(old(a[..]))
    ensures r.Some? ==> forall x: Vec :: Solves(old(a[..]), old(b[..]), x) <==> x == r.value
  {
    ghost var a0, b0 := a[..], b[..];
    for col := 0 to N
      invariant Arrays(a, b)
      invariant Cleared(a[..], col) && Pivoted(a[..], col)
      invariant Equivalent(a0, b0, a[..], b[..])
    {
      ghost var a1, b1 := a[..], b[..];
      var maxRow := PivotRow(a, col);
      a[col], a[maxRow] := a[maxRow], a[col];
      b[col], b[maxRow] := b[maxRow], b[col];
      assert a[..] == Swapped(a1, col, maxRow) && b[..] == Swapped(b1, col, maxRow);
      SwapEquivalent(a1, b1, col, maxRow);
      EquivalentStep(a0, b0, a1, b1, a[..], b[..]);
      if a[col][col] == 0.0 {  // divisor of the factors below, or of back substitution
        ZeroColumnSingular(a[..], col);
        return None;
      }
      ghost var a2, b2 := a[..], b[..];
      EliminateColumn(a, b, col);
      EquivalentStep(a0, b0, a2, b2, a[..], b[..]);
    }
    var x := BackSubstitute(a, b);
    TriangularNonsingular(a[..]);
    TriangularUnique(a[..], b[..], x);
    return Some(x);
  }
}
