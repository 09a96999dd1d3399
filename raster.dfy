/** Row-major concatenation of six-element blocks: the shape shared by the
    per-frame point emission (one block of six floats per pixel, rows
    outermost) and by the grid vertex generator (one block of six floats per
    line segment, outer index outermost). The cell contents are a parameter,
    so the lemmas here are about order and length only. */
module Raster {

  /** `cell` is defined on every cell of an `m`-row, `w`-column raster and
      always yields a block of six elements. */
  ghost predicate Sixes<T>(cell: (nat, nat) --> seq<T>, w: nat, m: nat) {
    forall v: nat, u: nat :: v < m && u < w ==> cell.requires(v, u) && |cell(v, u)| == 6
  }

  /** The blocks of cells (v, 0), ..., (v, n-1), in that order. */
  function Row<T>(cell: (nat, nat) --> seq<T>, v: nat, n: nat): seq<T>
    requires forall u: nat :: u < n ==> cell.requires(v, u)
  {
    if n == 0 then [] else Row(cell, v, n - 1) + cell(v, n - 1)
  }

  /** The rows 0, ..., m-1 of a `w`-column raster, in that order. */
  function Rows<T>(cell: (nat, nat) --> seq<T>, w: nat, m: nat): seq<T>
    requires forall v: nat, u: nat :: v < m && u < w ==> cell.requires(v, u)
  {
    if m == 0 then [] else Rows(cell, w, m - 1) + Row(cell, m - 1, w)
  }

  /** Appending cell (v, n) after the first `n` cells of row `v` gives the
      first n+1 cells of that row. */
  lemma RowStep<T>(prefix: seq<T>, cell: (nat, nat) --> seq<T>, v: nat, n: nat)
    requires forall u: nat :: u <= n ==> cell.requires(v, u)
    ensures prefix + Row(cell, v, n) + cell(v, n) == prefix + Row(cell, v, n + 1)
  {
    assert Row(cell, v, n + 1) == Row(cell, v, n) + cell(v, n);
  }

  /** Appending row `m` after the first `m` rows gives the first m+1 rows. */
  lemma RowsStep<T>(prefix: seq<T>, cell: (nat, nat) --> seq<T>, w: nat, m: nat)
    requires forall v: nat, u: nat :: v <= m && u < w ==> cell.requires(v, u)
    ensures prefix + Rows(cell, w, m) + Row(cell, m, w) == prefix + Rows(cell, w, m + 1)
  {
    assert Rows(cell, w, m + 1) == Rows(cell, w, m) + Row(cell, m, w);
  }

  lemma {:induction false} RowLength<T>(cell: (nat, nat) --> seq<T>, v: nat, n: nat)
    requires forall u: nat :: u < n ==> cell.requires(v, u) && |cell(v, u)| == 6
    ensures |Row(cell, v, n)| == 6 * n
  {
    if n > 0 {
      RowLength(cell, v, n - 1);
    }
  }

  /** A raster of `m` rows and `w` columns holds exactly 6 * m * w elements. */
  lemma {:induction false} RowsLength<T>(cell: (nat, nat) --> seq<T>, w: nat, m: nat)
    requires Sixes(cell, w, m)
    ensures |Rows(cell, w, m)| == 6 * (m * w)
  {
    if m > 0 {
      RowsLength(cell, w, m - 1);
      RowLength(cell, m - 1, w);
      assert m * w == (m - 1) * w + w;
    }
  }

  /** Cell `u` of row `v` occupies elements 6u .. 6u+5 of the row. */
  lemma {:induction false} RowAt<T>(cell: (nat, nat) --> seq<T>, v: nat, n: nat, u: nat)
    requires forall u': nat :: u' < n ==> cell.requires(v, u') && |cell(v, u')| == 6
    requires u < n
    ensures 6 * u + 6 <= |Row(cell, v, n)|
    ensures Row(cell, v, n)[6 * u .. 6 * u + 6] == cell(v, u)
  {
    RowLength(cell, v, n);
    RowLength(cell, v, n - 1);
    var prev := Row(cell, v, n - 1);
    assert Row(cell, v, n) == prev + cell(v, n - 1);
    if u < n - 1 {
      RowAt(cell, v, n - 1, u);
      assert Row(cell, v, n)[6 * u .. 6 * u + 6] == prev[6 * u .. 6 * u + 6];
    }
  }

  /** The raster of the first `v` rows is a prefix of the raster of the
      first `m` rows. */
  lemma {:induction false} RowsPrefix<T>(cell: (nat, nat) --> seq<T>, w: nat, v: nat, m: nat)
    requires Sixes(cell, w, m)
    requires v <= m
    ensures |Rows(cell, w, v)| <= |Rows(cell, w, m)|
    ensures Rows(cell, w, m)[..|Rows(cell, w, v)|] == Rows(cell, w, v)
  {
    if v < m {
      RowsPrefix(cell, w, v, m - 1);
      var prev := Rows(cell, w, m - 1);
      assert Rows(cell, w, m) == prev + Row(cell, m - 1, w);
      assert Rows(cell, w, m)[..|Rows(cell, w, v)|] == prev[..|Rows(cell, w, v)|];
    }
  }

  /** The position of cell (v, u) of a `w`-column raster in row-major order. */
  function Position(w: nat, v: nat, u: nat): nat {
    v * w + u
  }

  /** Concatenation is associative; stated as a lemma so that a proof can
      regroup one concatenation without exposing sequence axioms to the rest
      of its context. */
  lemma ConcatAssoc<T>(a: seq<T>, b: seq<T>, c: seq<T>)
    ensures a + (b + c) == a + b + c
  {
  }

  /** A slice of a prefix is the same slice of the whole sequence. */
  lemma SliceOfPrefix<T>(s: seq<T>, p: seq<T>, i: nat, j: nat)
    requires |p| <= |s| && s[..|p|] == p
    requires i <= j <= |p|
    ensures s[i .. j] == p[i .. j]
  {
    forall k | 0 <= k < j - i
      ensures s[i .. j][k] == p[i .. j][k]
    {
      assert s[..|p|][i + k] == s[i + k];
    }
  }

  /** A slice within `a` of `a + b` is a slice of `a`. */
  lemma SliceOfPrefixPart<T>(a: seq<T>, b: seq<T>, i: nat, j: nat)
    requires i <= j <= |a|
    ensures (a + b)[i .. j] == a[i .. j]
  {
    SliceOfPrefix(a + b, a, i, j);
  }

  /** A slice past the end of `a` in `a + b` is a slice of `b`. */
  lemma SliceOfSuffix<T>(a: seq<T>, b: seq<T>, k: nat, len: nat)
    requires k + len <= |b|
    ensures (a + b)[|a| + k .. |a| + k + len] == b[k .. k + len]
  {
  }

  /** Row-major order: cell (v, u) of a `w`-column raster occupies elements
      6 Position(w, v, u) .. 6 Position(w, v, u) + 5. */
  lemma RowsAt<T>(cell: (nat, nat) --> seq<T>, w: nat, m: nat, v: nat, u: nat)
    requires Sixes(cell, w, m)
    requires v < m && u < w
    ensures 6 * Position(w, v, u) + 6 <= |Rows(cell, w, m)|
    ensures Rows(cell, w, m)[6 * Position(w, v, u) .. 6 * Position(w, v, u) + 6] == cell(v, u)
  {
    var before := Rows(cell, w, v);
    var row := Row(cell, v, w);
    var off := 6 * Position(w, v, u);
    assert off == |before| + 6 * u by {
      RowsLength(cell, w, v);
    }
    RowAt(cell, v, w, u);
    assert Rows(cell, w, v + 1) == before + row;
    SliceOfSuffix(before, row, 6 * u, 6);
    RowsPrefix(cell, w, v + 1, m);
    SliceOfPrefix(Rows(cell, w, m), Rows(cell, w, v + 1), off, off + 6);
  }
}
