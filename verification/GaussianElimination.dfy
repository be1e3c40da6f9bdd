/**
 Gaussian elimination with partial pivoting, in place, as the differential correction uses it for its
 six-by-six system; stated for every size.
 */
module GaussianElimination {
  import opened Basics
  import opened LinearSystems

  const TINY := 0.000000000000000001

  /** The rows of a matrix held in an array. */
  ghost function Rows(a: array2<real>): (m: Matrix)
    requires a.Length0 == a.Length1
    reads a
    ensures |m| == a.Length0 && Square(m)
    ensures forall i, j :: 0 <= i < a.Length0 && 0 <= j < a.Length1 ==> m[i][j] == a[i, j]
  {
    seq(a.Length0, i requires 0 <= i < a.Length0 reads a =>
      seq(a.Length1, j requires 0 <= j < a.Length1 reads a => a[i, j]))
  }

  // ---- What the elimination does to a matrix, on values ----

  /** Among rows col to r, the row with the largest entry in column col; the first on ties. */
  function PivotTo(m: Matrix, col: nat, r: nat): (best: nat)
    requires Square(m) && col <= r < |m|
    ensures col <= best <= r
    ensures forall k :: col <= k <= r ==> Abs(m[k][col]) <= Abs(m[best][col])
    ensures forall k :: col <= k < best ==> Abs(m[k][col]) < Abs(m[best][col])
    decreases r
  {
    if r == col then col else
      var p := PivotTo(m, col, r - 1);
      if Abs(m[r][col]) > Abs(m[p][col]) then r else p
  }

  /** The matrix with its pivot row for column col moved up to the diagonal. */
  function Pivoted(m: Matrix, col: nat): (n: Matrix)
    requires Square(m) && col < |m|
    ensures |n| == |m| && Square(n)
  {
    Swapped(m, col, PivotTo(m, col, |m| - 1))
  }

  function Quotient(p: real, q: real): real {
    if q == 0.0 then 0.0 else p / q
  }

  /** Rows after col and before r with the multiple of row col taken away that clears their entry in column col. */
  function ClearedTo(m: Matrix, col: nat, r: nat): (n: Matrix)
    requires Square(m) && col < r <= |m|
    ensures |n| == |m| && Square(n)
    decreases r
  {
    if r == col + 1 then m else
      var n := ClearedTo(m, col, r - 1);
      ReducedRows(n, r - 1, col, Quotient(n[r - 1][col], n[col][col]))
  }

  /** The matrix after the first `cols` columns were pivoted and cleared. */
  function Forward(m: Matrix, cols: nat): (n: Matrix)
    requires Square(m) && cols <= |m|
    ensures |n| == |m| && Square(n)
  {
    if cols == 0 then m else ClearedTo(Pivoted(Forward(m, cols - 1), cols - 1), cols - 1, |m|)
  }

  /** Every candidate pivot of column col is below the threshold. */
  predicate NoPivot(m: Matrix, col: nat)
    requires Square(m) && col < |m|
  {
    forall r :: col <= r < |m| ==> Abs(m[r][col]) < TINY
  }

  /** Elimination of the matrix meets a column without a pivot. */
  predicate Refused(m: Matrix)
    requires Square(m)
  {
    exists col :: 0 <= col < |m| && NoPivot(Forward(m, col), col)
  }

  // ---- The same in place ----

  /** The row with the largest entry in a column, from the diagonal down; the first such row on ties. */
  method FindPivot(a: array2<real>, col: nat) returns (best: nat, bestv: real)
    requires a.Length0 == a.Length1 && col < a.Length0
    ensures col <= best < a.Length0 && bestv == Abs(a[best, col])
    ensures forall r :: col <= r < a.Length0 ==> Abs(a[r, col]) <= bestv
    ensures forall r :: col <= r < best ==> Abs(a[r, col]) < bestv
  {
    best := col;
    bestv := Abs(a[col, col]);
    for r := col + 1 to a.Length0
      invariant col <= best < a.Length0 && best < r && bestv == Abs(a[best, col])
      invariant forall k :: col <= k < r ==> Abs(a[k, col]) <= bestv
      invariant forall k :: col <= k < best ==> Abs(a[k, col]) < bestv
    {
      if Abs(a[r, col]) > bestv {
        bestv := Abs(a[r, col]);
        best := r;
      }
    }
  }

  method SwapEquations(a: array2<real>, b: array<real>, i: nat, j: nat)
    requires a.Length0 == a.Length1 == b.Length && i < b.Length && j < b.Length && i != j
    modifies a, b
    ensures Rows(a) == Swapped(old(Rows(a)), i, j)
    ensures b[..] == Swapped(old(b[..]), i, j)
  {
    for c := 0 to a.Length1
      invariant forall k, l :: 0 <= k < a.Length0 && 0 <= l < a.Length1 ==>
        a[k, l] == if l < c && k == i then old(a[j, l]) else if l < c && k == j then old(a[i, l]) else old(a[k, l])
      invariant b[..] == old(b[..])
    {
      var t := a[i, c];
      a[i, c] := a[j, c];
      a[j, c] := t;
    }
    var t := b[i];
    b[i] := b[j];
    b[j] := t;
    ghost var m, n := Rows(a), Swapped(old(Rows(a)), i, j);
    forall k | 0 <= k < a.Length0 ensures m[k] == n[k] {
      assert forall l :: 0 <= l < a.Length1 ==> m[k][l] == a[k, l];
      assert forall l :: 0 <= l < a.Length1 ==> n[k][l] == m[k][l];
    }
  }

  /** Row r less m times row col, from column col on; the columns before are zero in both. */
  method SubtractRow(a: array2<real>, col: nat, r: nat, m: real)
    requires a.Length0 == a.Length1 && col < r < a.Length0
    requires forall c :: 0 <= c < col ==> a[r, c] == 0.0 && a[col, c] == 0.0
    modifies a
    ensures Rows(a) == ReducedRows(old(Rows(a)), r, col, m)
    ensures a[r, col] == old(a[r, col]) - m * old(a[col, col])
    ensures forall l :: 0 <= l < col ==> a[r, l] == 0.0
    ensures forall k, l :: 0 <= k < a.Length0 && k != r && 0 <= l < a.Length1 ==> a[k, l] == old(a[k, l])
  {
    for c := col to a.Length1
      invariant forall k, l :: 0 <= k < a.Length0 && 0 <= l < a.Length1 ==>
        a[k, l] == if k == r && col <= l < c then old(a[r, l]) - m * old(a[col, l]) else old(a[k, l])
    {
      a[r, c] := a[r, c] - m * a[col, c];
    }
    ghost var before, after := old(Rows(a)), Rows(a);
    ghost var want := ReducedRows(before, r, col, m);
    forall k | 0 <= k < a.Length0 ensures after[k] == want[k] {
      forall l | 0 <= l < a.Length1 ensures after[k][l] == want[k][l] {
        assert after[k][l] == a[k, l];
      }
    }
  }

  method SubtractEntry(b: array<real>, col: nat, r: nat, m: real)
    requires col < r < b.Length
    modifies b
    ensures b[..] == ReducedEntries(old(b[..]), r, col, m)
  {
    b[r] := b[r] - m * b[col];
  }

  method SubtractEquation(a: array2<real>, b: array<real>, col: nat, r: nat, m: real)
    requires a.Length0 == a.Length1 == b.Length && col < r < b.Length
    requires forall c :: 0 <= c < col ==> a[r, c] == 0.0 && a[col, c] == 0.0
    modifies a, b
    ensures a[r, col] == old(a[r, col]) - m * old(a[col, col])
    ensures forall k, l :: 0 <= k < a.Length0 && k != r && 0 <= l < a.Length1 ==> a[k, l] == old(a[k, l])
    ensures forall l :: 0 <= l < col ==> a[r, l] == 0.0
    ensures Rows(a) == ReducedRows(old(Rows(a)), r, col, m)
    ensures SameSolutions(old(Rows(a)), old(b[..]), Rows(a), b[..])
  {
    ReduceKeepsSolutions(Rows(a), b[..], r, col, m);
    SubtractRow(a, col, r, m);
    SubtractEntry(b, col, r, m);
  }

  /** The multiplier that clears an entry against a pivot at least as large. */
  method Multiplier(p: real, q: real) returns (m: real)
    requires q != 0.0 && Abs(p) <= Abs(q)
    ensures p - m * q == 0.0 && -1.0 <= m <= 1.0 && m == Quotient(p, q)
  {
    m := p / q;
    Divided(p, q);
  }

  /** Subtract the pivot equation from a lower one so that its entry in the pivot column vanishes. */
  method EliminateRow(a: array2<real>, b: array<real>, col: nat, r: nat) returns (m: real)
    requires a.Length0 == a.Length1 == b.Length && col < r < b.Length
    requires a[col, col] != 0.0 && Abs(a[r, col]) <= Abs(a[col, col])
    requires forall c :: 0 <= c < col ==> a[r, c] == 0.0 && a[col, c] == 0.0
    modifies a, b
    ensures -1.0 <= m <= 1.0 && a[r, col] == 0.0
    ensures forall k, l :: 0 <= k < a.Length0 && k != r && 0 <= l < a.Length1 ==> a[k, l] == old(a[k, l])
    ensures forall l :: 0 <= l < col ==> a[r, l] == 0.0
    ensures Rows(a) == ReducedRows(old(Rows(a)), r, col, Quotient(old(a[r, col]), old(a[col, col])))
    ensures SameSolutions(old(Rows(a)), old(b[..]), Rows(a), b[..])
  {
    m := Multiplier(a[r, col], a[col, col]);
    SubtractEquation(a, b, col, r, m);
  }

  /** Clear a column below its pivot. */
  method EliminateColumn(a: array2<real>, b: array<real>, col: nat)
    requires a.Length0 == a.Length1 == b.Length && col < b.Length
    requires a[col, col] != 0.0
    requires forall r :: col <= r < b.Length ==> Abs(a[r, col]) <= Abs(a[col, col])
    requires Eliminated(Rows(a), col)
    modifies a, b
    ensures Eliminated(Rows(a), col + 1)
    ensures forall k, l :: 0 <= k <= col && 0 <= l < a.Length1 ==> a[k, l] == old(a[k, l])
    ensures Rows(a) == ClearedTo(old(Rows(a)), col, b.Length)
    ensures SameSolutions(old(Rows(a)), old(b[..]), Rows(a), b[..])
  {
    for r := col + 1 to b.Length
      invariant forall k, l :: 0 <= k < a.Length0 && (k <= col || r <= k) && 0 <= l < a.Length1 ==>
        a[k, l] == old(a[k, l])
      invariant forall k, l :: 0 <= l < col && l < k < a.Length0 ==> a[k, l] == 0.0
      invariant forall k :: col < k < r ==> a[k, col] == 0.0
      invariant Rows(a) == ClearedTo(old(Rows(a)), col, r)
      invariant SameSolutions(old(Rows(a)), old(b[..]), Rows(a), b[..])
    {
      ghost var m0, b0 := Rows(a), b[..];
      var m := EliminateRow(a, b, col, r);
      SameSolutionsTrans(old(Rows(a)), old(b[..]), m0, b0, Rows(a), b[..]);
    }
  }

  /** Solve a triangular system from the last unknown up. */
  method BackSubstitute(a: array2<real>, b: array<real>, x: array<real>)
    requires a.Length0 == a.Length1 == b.Length == x.Length && x != b
    requires Eliminated(Rows(a), b.Length) && PivotsNonzero(Rows(a), b.Length)
    modifies x
    ensures Solves(Rows(a), b[..], x[..])
  {
    var n := b.Length;
    ghost var m, rhs := Rows(a), b[..];
    var i := n;
    while i > 0
      invariant 0 <= i <= n
      invariant Rows(a) == m && b[..] == rhs
      invariant forall k :: i <= k < n ==> Dot(m[k], x[..], 0, n) == rhs[k]
    {
      i := i - 1;
      var acc := b[i];
      for c := i + 1 to n
        invariant acc == b[i] - Dot(m[i], x[..], i + 1, c)
      {
        acc := acc - a[i, c] * x[c];
      }
      ghost var was := x[..];
      assert m[i][i] == a[i, i];
      x[i] := acc / a[i, i];
      Divided(acc, a[i, i]);
      Settles(m, was, x[..], i, rhs[i]);
      forall k | i < k < n ensures Dot(m[k], x[..], 0, n) == rhs[k] {
        LaterUntouched(m, was, x[..], i, k);
      }
    }
  }

  /** Setting unknown i leaves the later equations as they were. */
  lemma LaterUntouched(m: Matrix, was: Row, now: Row, i: nat, k: nat)
    requires Square(m) && |was| == |now| == |m| && i < k < |m| && Eliminated(m, |m|)
    requires forall l :: i < l < |m| ==> now[l] == was[l]
    ensures Dot(m[k], now, 0, |m|) == Dot(m[k], was, 0, |m|)
  {
    TriangularTail(m, now, k);
    TriangularTail(m, was, k);
    DotSame(m[k], was, now, k, |m|);
  }

  /** Setting unknown i settles equation i. */
  lemma Settles(m: Matrix, was: Row, now: Row, i: nat, rhs: real)
    requires Square(m) && |was| == |now| == |m| && i < |m| && Eliminated(m, |m|)
    requires forall l :: i < l < |m| ==> now[l] == was[l]
    requires m[i][i] * now[i] + Dot(m[i], was, i + 1, |m|) == rhs
    ensures Dot(m[i], now, 0, |m|) == rhs
  {
    TriangularRow(m, now, i);
    DotSame(m[i], was, now, i + 1, |m|);
  }

  lemma Divided(p: real, q: real)
    requires q != 0.0
    ensures q * (p / q) == p
  {
  }

  /** The row found by the search is the pivot row of the matrix. */
  lemma PivotIs(m: Matrix, col: nat, best: nat)
    requires Square(m) && col <= best < |m|
    requires forall r :: col <= r < |m| ==> Abs(m[r][col]) <= Abs(m[best][col])
    requires forall r :: col <= r < best ==> Abs(m[r][col]) < Abs(m[best][col])
    ensures Pivoted(m, col) == Swapped(m, col, best)
  {
    assert best == PivotTo(m, col, |m| - 1);
  }

  /** Bring the pivot of a column to the diagonal and clear the column below it. */
  method PivotAndClear(a: array2<real>, b: array<real>, col: nat, best: nat)
    requires a.Length0 == a.Length1 == b.Length && col <= best < b.Length && a[best, col] != 0.0
    requires forall r :: col <= r < b.Length ==> Abs(a[r, col]) <= Abs(a[best, col])
    requires forall r :: col <= r < best ==> Abs(a[r, col]) < Abs(a[best, col])
    requires Eliminated(Rows(a), col) && PivotsNonzero(Rows(a), col)
    modifies a, b
    ensures Eliminated(Rows(a), col + 1) && PivotsNonzero(Rows(a), col + 1)
    ensures Rows(a) == ClearedTo(Pivoted(old(Rows(a)), col), col, b.Length)
    ensures SameSolutions(old(Rows(a)), old(b[..]), Rows(a), b[..])
  {
    ghost var m0 := Rows(a);
    PivotIs(m0, col, best);
    if best != col {
      SwapKeepsSolutions(Rows(a), b[..], col, best);
      SwapEquations(a, b, col, best);
      SwapKeepsShape(m0, Rows(a), col, best);
    }
    assert Rows(a) == Pivoted(m0, col);
    ghost var m1, b1 := Rows(a), b[..];
    EliminateColumn(a, b, col);
    SameSolutionsTrans(old(Rows(a)), old(b[..]), m1, b1, Rows(a), b[..]);
  }

  /** The system (n, d) is what elimination makes of (m, c) in `col` columns, each of which had a pivot. */
  ghost predicate Reached(m: Matrix, c: Row, n: Matrix, d: Row, col: nat)
    requires Square(m) && |c| == |m| && col <= |m|
  {
    && n == Forward(m, col) && |d| == |c|
    && Eliminated(n, col) && PivotsNonzero(n, col) && SameSolutions(m, c, n, d)
    && HadPivots(m, col)
  }

  ghost predicate HadPivots(m: Matrix, cols: nat)
    requires Square(m) && cols <= |m|
  {
    forall k :: 0 <= k < cols ==> !NoPivot(Forward(m, k), k)
  }

  lemma ForwardNext(m: Matrix, col: nat)
    requires Square(m) && col < |m|
    ensures Forward(m, col + 1) == ClearedTo(Pivoted(Forward(m, col), col), col, |m|)
    ensures HadPivots(m, col + 1) <==> HadPivots(m, col) && !NoPivot(Forward(m, col), col)
  {
  }

  lemma ReachedNext(m: Matrix, c: Row, n: Matrix, d: Row, n': Matrix, d': Row, col: nat)
    requires Square(m) && |c| == |m| && col < |m|
    requires Reached(m, c, n, d, col) && !NoPivot(n, col)
    requires n' == ClearedTo(Pivoted(n, col), col, |m|) && |d'| == |c|
    requires Eliminated(n', col + 1) && PivotsNonzero(n', col + 1) && SameSolutions(n, d, n', d')
    ensures Reached(m, c, n', d', col + 1)
  {
    ForwardNext(m, col);
    SameSolutionsTrans(m, c, n, d, n', d');
  }

  lemma ReachedStuck(m: Matrix, c: Row, n: Matrix, d: Row, col: nat)
    requires Square(m) && |c| == |m| && col < |m|
    requires Reached(m, c, n, d, col) && NoPivot(n, col)
    ensures Refused(m) && Stuck(n, col) && SameSolutions(m, c, n, d)
  {
  }

  /** Forward elimination: it stops at a column without a pivot, or makes the system triangular. */
  method Eliminate(a: array2<real>, b: array<real>) returns (rc: int)
    requires a.Length0 == a.Length1 == b.Length
    modifies a, b
    ensures rc == 0 || rc == -1
    ensures rc == 0 ==> Reached(old(Rows(a)), old(b[..]), Rows(a), b[..], b.Length)
    ensures rc == -1 ==> Refused(old(Rows(a))) && exists col: nat :: Stuck(Rows(a), col)
    ensures SameSolutions(old(Rows(a)), old(b[..]), Rows(a), b[..])
  {
    ghost var m, c := Rows(a), b[..];
    for col := 0 to b.Length
      invariant Reached(m, c, Rows(a), b[..], col)
    {
      var best, bestv := FindPivot(a, col);
      ghost var m0, b0 := Rows(a), b[..];
      assert bestv == Abs(m0[best][col]);
      assert NoPivot(m0, col) <==> bestv < TINY;
      if bestv < TINY {
        ReachedStuck(m, c, m0, b0, col);
        return -1;
      }
      PivotAndClear(a, b, col, best);
      ReachedNext(m, c, m0, b0, Rows(a), b[..], col);
    }
    rc := 0;
  }

  /**
   Zero is returned only with the one solution of the original system, so never for a singular matrix;
   minus one exactly for the matrices `Refused` names, leaving an equivalent system with a pivot column
   in which nothing above the threshold is left.
   */
  method Solve(a: array2<real>, b: array<real>, x: array<real>) returns (rc: int)
    requires a.Length0 == a.Length1 == b.Length == x.Length && x != b
    modifies a, b, x
    ensures rc == 0 || rc == -1
    ensures rc == 0 ==> Solves(old(Rows(a)), old(b[..]), x[..])
    ensures rc == 0 ==> forall y :: Solves(old(Rows(a)), old(b[..]), y) ==> y == x[..]
    ensures rc == 0 ==> !Singular(old(Rows(a)))
    ensures rc == -1 <==> Refused(old(Rows(a)))
    ensures rc == -1 ==> exists col: nat :: Stuck(Rows(a), col)
    ensures SameSolutions(old(Rows(a)), old(b[..]), Rows(a), b[..])
  {
    rc := Eliminate(a, b);
    if rc == 0 {
      BackSubstitute(a, b, x);
      Unique(old(Rows(a)), old(b[..]), Rows(a), b[..], x[..]);
    }
  }

  /** Column `col` is reached with every candidate pivot below the threshold. */
  ghost predicate Stuck(m: Matrix, col: nat)
    requires Square(m)
  {
    && col < |m| && Eliminated(m, col)
    && forall r :: col <= r < |m| ==> Abs(m[r][col]) < TINY
  }

  lemma SwapKeepsShape(m: Matrix, n: Matrix, col: nat, best: nat)
    requires Square(m) && col < best < |m| && n == Swapped(m, col, best)
    requires Eliminated(m, col) && PivotsNonzero(m, col)
    ensures Square(n) && Eliminated(n, col) && PivotsNonzero(n, col)
  {
  }

  lemma Unique(m: Matrix, b: Row, t: Matrix, c: Row, x: Row)
    requires Square(m) && |b| == |m| && Square(t) && |c| == |t| && |t| == |m|
    requires SameSolutions(m, b, t, c) && Solves(t, c, x)
    requires Eliminated(t, |t|) && PivotsNonzero(t, |t|)
    ensures Solves(m, b, x) && !Singular(m)
    ensures forall y :: Solves(m, b, y) ==> y == x
  {
    forall y | Solves(m, b, y) ensures y == x {
      TriangularUnique(t, c, x, y, 0);
    }
    UniqueMeansNonsingular(m, b, x);
  }

  // ---- Singular matrices are refused ----

  /** The same vectors are sent to zero. */
  ghost predicate SameKernel(m: Matrix, n: Matrix)
    requires Square(m) && Square(n)
  {
    |n| == |m| && SameSolutions(m, Zeros(|m|), n, Zeros(|n|))
  }

  lemma PivotedShape(m: Matrix, col: nat)
    requires Square(m) && col < |m| && Eliminated(m, col) && PivotsNonzero(m, col) && !NoPivot(m, col)
    ensures var n := Pivoted(m, col);
      SameKernel(m, n) && Eliminated(n, col) && PivotsNonzero(n, col) && n[col][col] != 0.0
  {
    var p := PivotTo(m, col, |m| - 1);
    var z := Zeros(|m|);
    assert Swapped(z, col, p) == z;
    SwapKeepsSolutions(m, z, col, p);
    var r :| col <= r < |m| && Abs(m[r][col]) >= TINY;
    assert Abs(m[p][col]) >= TINY;
    if p != col {
      SwapKeepsShape(m, Pivoted(m, col), col, p);
    } else {
      assert Pivoted(m, col) == m;
    }
  }

  lemma ZerosReduced(n: nat, r: nat, p: nat, k: real)
    requires r < n && p < n
    ensures ReducedEntries(Zeros(n), r, p, k) == Zeros(n)
  {
    var z := Zeros(n);
    assert z[r] == 0.0 && z[p] == 0.0;
    assert 0.0 - k * 0.0 == 0.0;
    assert z[r := 0.0] == z;
  }

  lemma RowCleared(n: Matrix, r: nat, col: nat)
    requires Square(n) && col < r < |n| && n[col][col] != 0.0 && Eliminated(n, col)
    ensures var q := ReducedRows(n, r, col, Quotient(n[r][col], n[col][col]));
      SameKernel(n, q) && Eliminated(q, col) && q[r][col] == 0.0
  {
    var k, z := Quotient(n[r][col], n[col][col]), Zeros(|n|);
    Divided(n[r][col], n[col][col]);
    ReduceKeepsSolutions(n, z, r, col, k);
    ZerosReduced(|n|, r, col, k);
    var q := ReducedRows(n, r, col, k);
    forall i, j | 0 <= j < col && j < i < |q| ensures q[i][j] == 0.0 {
      assert i == r ==> q[i][j] == n[r][j] - k * n[col][j];
    }
  }

  lemma {:induction false} ClearedShape(m: Matrix, col: nat, r: nat)
    requires Square(m) && col < r <= |m| && Eliminated(m, col) && m[col][col] != 0.0
    ensures var n := ClearedTo(m, col, r);
      && SameKernel(m, n) && Eliminated(n, col)
      && (forall k :: 0 <= k <= col || r <= k < |m| ==> n[k] == m[k])
      && (forall k :: col < k < r ==> n[k][col] == 0.0)
    decreases r
  {
    if r > col + 1 {
      ClearedShape(m, col, r - 1);
      RowCleared(ClearedTo(m, col, r - 1), r - 1, col);
    }
  }

  lemma {:induction false} ForwardShape(m: Matrix, cols: nat)
    requires Square(m) && cols <= |m| && HadPivots(m, cols)
    ensures var n := Forward(m, cols); SameKernel(m, n) && Eliminated(n, cols) && PivotsNonzero(n, cols)
    decreases cols
  {
    if cols > 0 {
      var col := cols - 1;
      var n := Forward(m, col);
      ForwardNext(m, col);
      ForwardShape(m, col);
      PivotedShape(n, col);
      ColumnShape(n, Pivoted(n, col), col);
    }
  }

  lemma ColumnShape(n: Matrix, p: Matrix, col: nat)
    requires Square(n) && Square(p) && col < |n| && SameKernel(n, p)
    requires Eliminated(p, col) && PivotsNonzero(p, col) && p[col][col] != 0.0
    ensures var q := ClearedTo(p, col, |p|); SameKernel(n, q) && Eliminated(q, col + 1) && PivotsNonzero(q, col + 1)
  {
    ClearedShape(p, col, |p|);
  }

  /** Every singular matrix is refused. */
  lemma SingularIsRefused(m: Matrix)
    requires Square(m) && Singular(m)
    ensures Refused(m)
  {
    if !Refused(m) {
      NotRefusedIsNonsingular(m);
    }
  }

  lemma NotRefusedIsNonsingular(m: Matrix)
    requires Square(m) && !Refused(m)
    ensures !Singular(m)
  {
    assert HadPivots(m, |m|);
    ForwardShape(m, |m|);
    var t, z := Forward(m, |m|), Zeros(|m|);
    forall y | Solves(m, z, y) ensures y == z {
      assert Solves(t, z, y);
      ZeroSolves(t);
      TriangularUnique(t, z, y, z, 0);
    }
  }

  lemma ZeroSolves(t: Matrix)
    requires Square(t)
    ensures Solves(t, Zeros(|t|), Zeros(|t|))
  {
    forall i | 0 <= i < |t| ensures Dot(t[i], Zeros(|t|), 0, |t|) == 0.0 {
      DotOfZeros(t[i], |t|, |t|);
    }
  }

  lemma {:induction false} DotOfZeros(u: Row, n: nat, hi: nat)
    requires hi <= |u| && hi <= n
    ensures Dot(u, Zeros(n), 0, hi) == 0.0
    decreases hi
  {
    if hi > 0 {
      DotOfZeros(u, n, hi - 1);
    }
  }

  // ---- Refused is more than singular ----

  /** e times the identity. */
  function Scalar(n: nat, e: real): (m: Matrix)
    ensures |m| == n && Square(m)
  {
    seq(n, i => seq(n, j => if i == j then e else 0.0))
  }

  lemma {:induction false} DotScalar(n: nat, e: real, y: Row, i: nat, hi: nat)
    requires i < n && hi <= n && |y| == n
    ensures Dot(Scalar(n, e)[i], y, 0, hi) == if i < hi then e * y[i] else 0.0
    decreases hi
  {
    if hi > 0 {
      DotScalar(n, e, y, i, hi - 1);
    }
  }

  /** The converse fails at every size: a small enough matrix is refused although it is not singular. */
  lemma SmallMatrixIsRefused(n: nat, e: real)
    requires n > 0 && 0.0 < e < TINY
    ensures Refused(Scalar(n, e)) && !Singular(Scalar(n, e))
  {
    var m := Scalar(n, e);
    assert NoPivot(Forward(m, 0), 0);
    forall y | Solves(m, Zeros(n), y) ensures y == Zeros(n) {
      forall i | 0 <= i < n ensures y[i] == 0.0 {
        DotScalar(n, e, y, i, n);
        assert Dot(m[i], y, 0, n) == Zeros(n)[i];
        Cancel(e, y[i], 0.0, 0.0, 0.0);
      }
    }
  }
}
