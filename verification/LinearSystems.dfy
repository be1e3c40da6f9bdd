/** Linear systems over the reals: dot products, solutions, and the row operations that keep them. */
module LinearSystems {

  type Row = seq<real>
  type Matrix = seq<Row>

  predicate Square(m: Matrix) {
    forall i :: 0 <= i < |m| ==> |m[i]| == |m|
  }

  /** Sum of u[k] * v[k] for lo <= k < hi. */
  function Dot(u: Row, v: Row, lo: nat, hi: nat): real
    requires lo <= hi <= |u| && hi <= |v|
    decreases hi - lo
  {
    if lo == hi then 0.0 else Dot(u, v, lo, hi - 1) + u[hi - 1] * v[hi - 1]
  }

  ghost predicate Solves(m: Matrix, b: Row, y: Row)
    requires Square(m) && |b| == |m|
  {
    |y| == |m| && forall i :: 0 <= i < |m| ==> Dot(m[i], y, 0, |m|) == b[i]
  }

  /** Two systems have the same solutions. */
  ghost predicate SameSolutions(m: Matrix, b: Row, m': Matrix, b': Row)
    requires Square(m) && |b| == |m| && Square(m') && |b'| == |m'|
  {
    forall y :: Solves(m, b, y) <==> Solves(m', b', y)
  }

  function Swapped<T>(s: seq<T>, i: nat, j: nat): (r: seq<T>)
    requires i < |s| && j < |s|
    ensures |r| == |s|
  {
    s[i := s[j]][j := s[i]]
  }

  /** u - k * v, entry by entry. */
  function Minus(u: Row, k: real, v: Row): (r: Row)
    requires |u| == |v|
    ensures |r| == |u|
  {
    seq(|u|, i requires 0 <= i < |u| => u[i] - k * v[i])
  }

  /** Equation r less k times equation p: the matrix side and the right-hand side. */
  function ReducedRows(m: Matrix, r: nat, p: nat, k: real): (n: Matrix)
    requires r < |m| && p < |m| && |m[r]| == |m[p]|
    ensures |n| == |m|
  {
    m[r := Minus(m[r], k, m[p])]
  }

  function ReducedEntries(b: Row, r: nat, p: nat, k: real): (c: Row)
    requires r < |b| && p < |b|
    ensures |c| == |b|
  {
    b[r := b[r] - k * b[p]]
  }

  lemma {:induction false} DotMinus(u: Row, k: real, v: Row, y: Row, hi: nat)
    requires |u| == |v| && hi <= |u| && hi <= |y|
    ensures Dot(Minus(u, k, v), y, 0, hi) == Dot(u, y, 0, hi) - k * Dot(v, y, 0, hi)
    decreases hi
  {
    if hi > 0 {
      var i := hi - 1;
      DotMinus(u, k, v, y, i);
      var a, c := Dot(u, y, 0, i), Dot(v, y, 0, i);
      calc {
        Dot(Minus(u, k, v), y, 0, hi);
        a - k * c + (u[i] - k * v[i]) * y[i];
        a + u[i] * y[i] - k * (c + v[i] * y[i]);
      }
    }
  }

  /** Exchanging two equations changes no solution. */
  lemma SwapKeepsSolutions(m: Matrix, b: Row, i: nat, j: nat)
    requires Square(m) && |b| == |m| && i < |m| && j < |m|
    ensures Square(Swapped(m, i, j))
    ensures SameSolutions(m, b, Swapped(m, i, j), Swapped(b, i, j))
  {
    var n, c := Swapped(m, i, j), Swapped(b, i, j);
    forall y ensures Solves(m, b, y) <==> Solves(n, c, y) {
      if Solves(n, c, y) {
        forall k | 0 <= k < |m| ensures Dot(m[k], y, 0, |m|) == b[k] {
          var l := if k == i then j else if k == j then i else k;
          assert n[l] == m[k] && c[l] == b[k];
        }
      }
    }
  }

  /** Subtracting a multiple of another equation changes no solution. */
  lemma ReduceKeepsSolutions(m: Matrix, b: Row, r: nat, p: nat, k: real)
    requires Square(m) && |b| == |m| && r < |m| && p < |m| && r != p
    ensures Square(ReducedRows(m, r, p, k))
    ensures SameSolutions(m, b, ReducedRows(m, r, p, k), ReducedEntries(b, r, p, k))
  {
    var n, c := ReducedRows(m, r, p, k), ReducedEntries(b, r, p, k);
    forall y ensures Solves(m, b, y) <==> Solves(n, c, y) {
      if |y| == |m| {
        DotMinus(m[r], k, m[p], y, |m|);
        if Solves(n, c, y) {
          assert Dot(n[p], y, 0, |m|) == c[p];
          assert Dot(n[r], y, 0, |m|) == c[r];
          forall i | 0 <= i < |m| ensures Dot(m[i], y, 0, |m|) == b[i] {
            assert i != r ==> n[i] == m[i] && c[i] == b[i];
          }
        }
        if Solves(m, b, y) {
          assert Dot(m[p], y, 0, |m|) == b[p] && Dot(m[r], y, 0, |m|) == b[r];
        }
      }
    }
  }

  lemma SameSolutionsTrans(m: Matrix, b: Row, m': Matrix, b': Row, m'': Matrix, b'': Row)
    requires Square(m) && |b| == |m| && Square(m') && |b'| == |m'| && Square(m'') && |b''| == |m''|
    requires SameSolutions(m, b, m', b') && SameSolutions(m', b', m'', b'')
    ensures SameSolutions(m, b, m'', b'')
  {
  }

  // ---- Triangular systems ----

  /** Zero below the diagonal in the first `cols` columns. */
  ghost predicate Eliminated(m: Matrix, cols: nat)
    requires Square(m)
  {
    forall i, j :: 0 <= j < cols && j < i < |m| ==> m[i][j] == 0.0
  }

  ghost predicate PivotsNonzero(m: Matrix, cols: nat)
    requires Square(m) && cols <= |m|
  {
    forall i :: 0 <= i < cols ==> m[i][i] != 0.0
  }

  lemma {:induction false} DotSplit(u: Row, v: Row, mid: nat, hi: nat)
    requires mid <= hi <= |u| && hi <= |v|
    ensures Dot(u, v, 0, hi) == Dot(u, v, 0, mid) + Dot(u, v, mid, hi)
    decreases hi
  {
    if mid < hi {
      DotSplit(u, v, mid, hi - 1);
    }
  }

  lemma {:induction false} DotZero(u: Row, v: Row, hi: nat)
    requires hi <= |u| && hi <= |v|
    requires forall k :: 0 <= k < hi ==> u[k] == 0.0
    ensures Dot(u, v, 0, hi) == 0.0
    decreases hi
  {
    if hi > 0 {
      DotZero(u, v, hi - 1);
    }
  }

  lemma {:induction false} DotSame(u: Row, v: Row, w: Row, lo: nat, hi: nat)
    requires lo <= hi <= |u| && hi <= |v| && hi <= |w|
    requires forall k :: lo <= k < hi ==> v[k] == w[k]
    ensures Dot(u, v, lo, hi) == Dot(u, w, lo, hi)
    decreases hi - lo
  {
    if lo < hi {
      DotSame(u, v, w, lo, hi - 1);
    }
  }

  lemma {:induction false} DotHead(u: Row, v: Row, lo: nat, hi: nat)
    requires lo < hi <= |u| && hi <= |v|
    ensures Dot(u, v, lo, hi) == u[lo] * v[lo] + Dot(u, v, lo + 1, hi)
    decreases hi
  {
    if lo + 1 < hi {
      DotHead(u, v, lo, hi - 1);
    } else {
      assert Dot(u, v, lo, lo) == 0.0;
    }
  }

  /** In an eliminated system, equation i involves only the unknowns from i on. */
  lemma TriangularTail(m: Matrix, y: Row, i: nat)
    requires Square(m) && |y| == |m| && i < |m| && Eliminated(m, |m|)
    ensures Dot(m[i], y, 0, |m|) == Dot(m[i], y, i, |m|)
  {
    DotSplit(m[i], y, i, |m|);
    DotZero(m[i], y, i);
  }

  lemma TriangularRow(m: Matrix, y: Row, i: nat)
    requires Square(m) && |y| == |m| && i < |m| && Eliminated(m, |m|)
    ensures Dot(m[i], y, 0, |m|) == m[i][i] * y[i] + Dot(m[i], y, i + 1, |m|)
  {
    TriangularTail(m, y, i);
    DotHead(m[i], y, i, |m|);
  }

  /** A triangular system with nonzero diagonal has at most one solution. */
  lemma {:induction false} TriangularUnique(m: Matrix, b: Row, x: Row, y: Row, i: nat)
    requires Square(m) && |b| == |m| && Eliminated(m, |m|) && PivotsNonzero(m, |m|)
    requires Solves(m, b, x) && Solves(m, b, y) && i <= |m|
    ensures forall k :: i <= k < |m| ==> x[k] == y[k]
    decreases |m| - i
  {
    if i < |m| {
      TriangularUnique(m, b, x, y, i + 1);
      DotSame(m[i], x, y, i + 1, |m|);
      RowValue(m, b, x, i, Dot(m[i], x, i + 1, |m|));
      RowValue(m, b, y, i, Dot(m[i], x, i + 1, |m|));
      Cancel(m[i][i], x[i], y[i], Dot(m[i], x, i + 1, |m|), b[i]);
    }
  }

  lemma RowValue(m: Matrix, b: Row, x: Row, i: nat, tail: real)
    requires Square(m) && |b| == |m| && Eliminated(m, |m|) && Solves(m, b, x) && i < |m|
    requires tail == Dot(m[i], x, i + 1, |m|)
    ensures m[i][i] * x[i] + tail == b[i]
  {
    TriangularRow(m, x, i);
  }

  lemma Cancel(a: real, x: real, y: real, tail: real, b: real)
    requires a != 0.0 && a * x + tail == b && a * y + tail == b
    ensures x == y
  {
    var r := b - tail;
    assert x == r / a && y == r / a;
  }

  // ---- Singular matrices ----

  function Plus(u: Row, v: Row): (r: Row)
    requires |u| == |v|
    ensures |r| == |u|
  {
    seq(|u|, i requires 0 <= i < |u| => u[i] + v[i])
  }

  lemma {:induction false} DotPlus(u: Row, x: Row, y: Row, hi: nat)
    requires |x| == |y| && hi <= |u| && hi <= |x|
    ensures Dot(u, Plus(x, y), 0, hi) == Dot(u, x, 0, hi) + Dot(u, y, 0, hi)
    decreases hi
  {
    if hi > 0 {
      DotPlus(u, x, y, hi - 1);
      assert u[hi - 1] * (x[hi - 1] + y[hi - 1]) == u[hi - 1] * x[hi - 1] + u[hi - 1] * y[hi - 1];
    }
  }

  /** Some nonzero vector is sent to zero. */
  ghost predicate Singular(m: Matrix)
    requires Square(m)
  {
    exists y :: Solves(m, Zeros(|m|), y) && y != Zeros(|m|)
  }

  function Zeros(n: nat): (r: Row)
    ensures |r| == n
  {
    seq(n, _ => 0.0)
  }

  /** A system with exactly one solution has a nonsingular matrix. */
  lemma UniqueMeansNonsingular(m: Matrix, b: Row, x: Row)
    requires Square(m) && |b| == |m| && Solves(m, b, x)
    requires forall y :: Solves(m, b, y) ==> y == x
    ensures !Singular(m)
  {
    forall y | Solves(m, Zeros(|m|), y) ensures y == Zeros(|m|) {
      var z := Plus(x, y);
      forall i | 0 <= i < |m| ensures Dot(m[i], z, 0, |m|) == b[i] {
        DotPlus(m[i], x, y, |m|);
        assert Dot(m[i], y, 0, |m|) == Zeros(|m|)[i];
      }
      assert Solves(m, b, z) && z == x;
      forall k | 0 <= k < |m| ensures y[k] == 0.0 {
        assert z[k] == x[k] + y[k];
      }
    }
  }
}
