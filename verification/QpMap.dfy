/** Quantiser maps of 16x16 blocks: smoothing a map so that neighbours differ by a bounded
    amount, and building the map of a frame. */
module QpMap {
  import opened Arith
  import opened Basics

  /** The value moved into [prev - delta, prev + delta]. */
  function Near(cur: int, prev: int, delta: int): int {
    Max(prev - delta, Min(prev + delta, cur))
  }

  ghost predicate Close(a: int, b: int, delta: int) {
    -delta <= a - b <= delta
  }

  /** `v` is `x` moved into [lo, hi], and not further. */
  predicate MovedInto(v: int, x: int, lo: int, hi: int) {
    (lo <= x <= hi ==> v == x) && (x < lo ==> v == lo) && (x > hi ==> v == hi)
  }

  // ----- a map as a grid

  type Grid = seq<seq<int>>

  ghost predicate IsGrid(g: Grid, rows: nat, cols: nat) {
    |g| == rows && forall y :: 0 <= y < rows ==> |g[y]| == cols
  }

  /** A row in which each value is pulled towards its smoothed left neighbour. */
  function SmoothRow(row: seq<int>, delta: int): (r: seq<int>)
    ensures |r| == |row|
  {
    if |row| <= 1 then row
    else
      var before := SmoothRow(row[..|row| - 1], delta);
      before + [Near(row[|row| - 1], before[|row| - 2], delta)]
  }

  /** A row in which each value is pulled towards the smoothed value above it. */
  function PullRow(row: seq<int>, above: seq<int>, delta: int): (r: seq<int>)
    requires |row| == |above|
    ensures |r| == |row|
  {
    seq(|row|, x requires 0 <= x < |row| => Near(row[x], above[x], delta))
  }

  /** The whole smoothing: rows first, then columns from top to bottom. */
  function Smoothed(g: Grid, rows: nat, cols: nat, delta: int): (r: Grid)
    requires IsGrid(g, rows, cols)
    ensures IsGrid(r, rows, cols)
  {
    if rows == 0 then []
    else
      var row := SmoothRow(g[rows - 1], delta);
      if rows == 1 then [row]
      else
        var above := Smoothed(g[..rows - 1], rows - 1, cols, delta);
        above + [PullRow(row, above[rows - 2], delta)]
  }

  ghost predicate RowBound(row: seq<int>, delta: int) {
    forall x :: 0 < x < |row| ==> Close(row[x], row[x - 1], delta)
  }

  ghost predicate ColumnBound(row: seq<int>, above: seq<int>, delta: int) {
    |row| == |above| && forall x :: 0 <= x < |row| ==> Close(row[x], above[x], delta)
  }

  /** Every pair of horizontal and of vertical neighbours differs by at most delta. */
  ghost predicate Bounded(g: Grid, delta: int) {
    && (forall y :: 0 <= y < |g| ==> RowBound(g[y], delta))
    && (forall y :: 0 < y < |g| ==> ColumnBound(g[y], g[y - 1], delta))
  }

  ghost predicate Within(row: seq<int>, lo: int, hi: int) {
    forall x :: 0 <= x < |row| ==> lo <= row[x] <= hi
  }

  ghost predicate AllWithin(g: Grid, lo: int, hi: int) {
    forall y :: 0 <= y < |g| ==> Within(g[y], lo, hi)
  }

  lemma {:induction false} SmoothRowBound(row: seq<int>, delta: int)
    requires delta >= 0
    ensures RowBound(SmoothRow(row, delta), delta)
    decreases |row|
  {
    if |row| > 1 {
      SmoothRowBound(row[..|row| - 1], delta);
    }
  }

  /** Pulling a bounded row towards a bounded row keeps it bounded: the median of three
      sequences with steps at most delta again has steps at most delta. */
  lemma PullKeepsRowBound(row: seq<int>, above: seq<int>, delta: int)
    requires |row| == |above| && delta >= 0
    requires RowBound(row, delta) && RowBound(above, delta)
    ensures RowBound(PullRow(row, above, delta), delta)
    ensures ColumnBound(PullRow(row, above, delta), above, delta)
  {
    forall x | 0 < x < |row|
      ensures Close(PullRow(row, above, delta)[x], PullRow(row, above, delta)[x - 1], delta)
    {
      assert Close(row[x], row[x - 1], delta) && Close(above[x], above[x - 1], delta);
    }
  }

  /** After smoothing with any delta >= 0 both bounds hold everywhere; the column pass does
      not undo the row pass. */
  lemma {:induction false} SmoothedIsBounded(g: Grid, rows: nat, cols: nat, delta: int)
    requires IsGrid(g, rows, cols) && delta >= 0
    ensures Bounded(Smoothed(g, rows, cols, delta), delta)
  {
    if rows > 0 {
      SmoothRowBound(g[rows - 1], delta);
      if rows > 1 {
        var above := Smoothed(g[..rows - 1], rows - 1, cols, delta);
        SmoothedIsBounded(g[..rows - 1], rows - 1, cols, delta);
        assert RowBound(above[rows - 2], delta);
        PullKeepsRowBound(SmoothRow(g[rows - 1], delta), above[rows - 2], delta);
        var s := Smoothed(g, rows, cols, delta);
        forall y | 0 <= y < rows ensures RowBound(s[y], delta) {
          if y < rows - 1 { assert s[y] == above[y]; }
        }
        forall y | 0 < y < rows ensures ColumnBound(s[y], s[y - 1], delta) {
          if y < rows - 1 { assert s[y] == above[y] && s[y - 1] == above[y - 1]; }
        }
      }
    }
  }

  lemma {:induction false} SmoothRowWithin(row: seq<int>, delta: int, lo: int, hi: int)
    requires delta >= 0 && Within(row, lo, hi)
    ensures Within(SmoothRow(row, delta), lo, hi)
    decreases |row|
  {
    if |row| > 1 {
      SmoothRowWithin(row[..|row| - 1], delta, lo, hi);
    }
  }

  /** Smoothing stays between any bounds on the input, hence between its least and greatest value. */
  lemma {:induction false} SmoothedStaysWithin(g: Grid, rows: nat, cols: nat, delta: int, lo: int, hi: int)
    requires IsGrid(g, rows, cols) && delta >= 0 && AllWithin(g, lo, hi)
    ensures AllWithin(Smoothed(g, rows, cols, delta), lo, hi)
  {
    if rows > 0 {
      assert Within(g[rows - 1], lo, hi);
      SmoothRowWithin(g[rows - 1], delta, lo, hi);
      if rows > 1 {
        var above := Smoothed(g[..rows - 1], rows - 1, cols, delta);
        SmoothedStaysWithin(g[..rows - 1], rows - 1, cols, delta, lo, hi);
        var s := Smoothed(g, rows, cols, delta);
        forall y | 0 <= y < rows ensures Within(s[y], lo, hi) {
          assert Within(above[rows - 2], lo, hi);
          if y < rows - 1 { assert s[y] == above[y]; }
        }
      }
    }
  }

  lemma RowBoundPrefix(row: seq<int>, n: nat, delta: int)
    requires RowBound(row, delta) && n <= |row|
    ensures RowBound(row[..n], delta)
  {
    var prefix := row[..n];
    forall x | 0 < x < n ensures Close(prefix[x], prefix[x - 1], delta) {
      assert Close(row[x], row[x - 1], delta);
    }
  }

  lemma {:induction false} SmoothRowFixes(row: seq<int>, delta: int)
    requires RowBound(row, delta)
    ensures SmoothRow(row, delta) == row
    decreases |row|
  {
    if |row| > 1 {
      var n := |row| - 1;
      RowBoundPrefix(row, n, delta);
      SmoothRowFixes(row[..n], delta);
      assert Close(row[n], row[n - 1], delta);
    }
  }

  lemma BoundedPrefix(g: Grid, n: nat, delta: int)
    requires Bounded(g, delta) && n <= |g|
    ensures Bounded(g[..n], delta)
  {
    var upper := g[..n];
    forall y | 0 < y < n ensures ColumnBound(upper[y], upper[y - 1], delta) {
      assert ColumnBound(g[y], g[y - 1], delta);
    }
    forall y | 0 <= y < n ensures RowBound(upper[y], delta) {
      assert RowBound(g[y], delta);
    }
  }

  lemma PullFixes(row: seq<int>, above: seq<int>, delta: int)
    requires |row| == |above| && ColumnBound(row, above, delta)
    ensures PullRow(row, above, delta) == row
  {
  }

  /** A map that already keeps the bounds is left alone. */
  lemma {:induction false} BoundedIsFixed(g: Grid, rows: nat, cols: nat, delta: int)
    requires IsGrid(g, rows, cols) && Bounded(g, delta)
    ensures Smoothed(g, rows, cols, delta) == g
  {
    if rows > 0 {
      assert RowBound(g[rows - 1], delta);
      SmoothRowFixes(g[rows - 1], delta);
      if rows > 1 {
        assert ColumnBound(g[rows - 1], g[rows - 2], delta);
        PullFixes(g[rows - 1], g[rows - 2], delta);
        BoundedPrefix(g, rows - 1, delta);
        BoundedIsFixed(g[..rows - 1], rows - 1, cols, delta);
      }
    }
  }

  /** Smoothing changes a map exactly when the map breaks a bound. */
  lemma FixedIffBounded(g: Grid, rows: nat, cols: nat, delta: int)
    requires IsGrid(g, rows, cols) && delta >= 0
    ensures Smoothed(g, rows, cols, delta) == g <==> Bounded(g, delta)
  {
    SmoothedIsBounded(g, rows, cols, delta);
    if Bounded(g, delta) {
      BoundedIsFixed(g, rows, cols, delta);
    }
  }

  lemma SmoothingIsIdempotent(g: Grid, rows: nat, cols: nat, delta: int)
    requires IsGrid(g, rows, cols) && delta >= 0
    ensures var s := Smoothed(g, rows, cols, delta);
            Smoothed(s, rows, cols, delta) == s
  {
    SmoothedIsBounded(g, rows, cols, delta);
    BoundedIsFixed(Smoothed(g, rows, cols, delta), rows, cols, delta);
  }

  // ----- the final clamp

  function ClampRow(row: seq<int>, lo: int, hi: int): (r: seq<int>)
    ensures |r| == |row|
  {
    seq(|row|, x requires 0 <= x < |row| => Max(lo, Min(hi, row[x])))
  }

  function Clamped(g: Grid, lo: int, hi: int): (r: Grid)
    ensures |r| == |g|
  {
    seq(|g|, y requires 0 <= y < |g| => ClampRow(g[y], lo, hi))
  }

  lemma ClampKeepsBound(g: Grid, delta: int, lo: int, hi: int)
    requires Bounded(g, delta) && lo <= hi
    ensures Bounded(Clamped(g, lo, hi), delta) && AllWithin(Clamped(g, lo, hi), lo, hi)
  {
    var c := Clamped(g, lo, hi);
    forall y | 0 <= y < |c| ensures RowBound(c[y], delta) {
      assert RowBound(g[y], delta);
      forall x | 0 < x < |c[y]| ensures Close(c[y][x], c[y][x - 1], delta) {
        assert Close(g[y][x], g[y][x - 1], delta);
      }
    }
    forall y | 0 < y < |c| ensures ColumnBound(c[y], c[y - 1], delta) {
      assert ColumnBound(g[y], g[y - 1], delta);
      forall x | 0 <= x < |c[y]| ensures Close(c[y][x], c[y - 1][x], delta) {
        assert Close(g[y][x], g[y - 1][x], delta);
      }
    }
  }

  // ----- cell by cell

  /** Row by row, each value is moved as little as possible to within delta of its left neighbour. */
  ghost predicate RowsSmoothed(g: Grid, h: Grid, delta: int) {
    && |h| == |g| && (forall y :: 0 <= y < |g| ==> |h[y]| == |g[y]|)
    && (forall y :: 0 <= y < |g| && g[y] != [] ==> h[y][0] == g[y][0])
    && (forall y, x :: 0 <= y < |g| && 0 < x < |g[y]| ==>
          MovedInto(h[y][x], g[y][x], h[y][x - 1] - delta, h[y][x - 1] + delta))
  }

  /** From the second row down, each value is moved as little as possible to within delta of the
      value above it. */
  ghost predicate ColumnsSmoothed(h: Grid, s: Grid, cols: nat, delta: int) {
    && |s| == |h| && (forall y :: 0 <= y < |h| ==> |s[y]| == |h[y]| == cols)
    && (h != [] ==> s[0] == h[0])
    && (forall y, x :: 0 < y < |h| && 0 <= x < cols ==>
          MovedInto(s[y][x], h[y][x], s[y - 1][x] - delta, s[y - 1][x] + delta))
  }

  lemma RowsCellByCell(g: Grid, delta: int)
    requires delta >= 0
    ensures RowsSmoothed(g, SmoothRows(g, delta), delta)
  {
    hide SmoothRow;
    var h := SmoothRows(g, delta);
    forall y | 0 <= y < |g| && g[y] != [] ensures h[y][0] == g[y][0] {
      SmoothRowAt(g[y], delta, 0);
    }
    forall y, x | 0 <= y < |g| && 0 < x < |g[y]|
      ensures MovedInto(h[y][x], g[y][x], h[y][x - 1] - delta, h[y][x - 1] + delta)
    {
      SmoothRowAt(g[y], delta, x);
    }
  }

  lemma ColumnsCellByCell(g: Grid, rows: nat, cols: nat, delta: int)
    requires IsGrid(g, rows, cols) && delta >= 0
    ensures ColumnsSmoothed(SmoothRows(g, delta), Smoothed(g, rows, cols, delta), cols, delta)
  {
    hide SmoothRow, Smoothed;
    var h, s := SmoothRows(g, delta), Smoothed(g, rows, cols, delta);
    if rows > 0 { SmoothedRows(g, rows, cols, delta, 0); }
    forall y, x | 0 < y < rows && 0 <= x < cols
      ensures MovedInto(s[y][x], h[y][x], s[y - 1][x] - delta, s[y - 1][x] + delta)
    {
      SmoothedRows(g, rows, cols, delta, y);
    }
  }

  /** Every value of `c` is the value of `g` moved into [lo, hi]. */
  ghost predicate CellsMoved(g: Grid, c: Grid, lo: int, hi: int) {
    && |c| == |g| && (forall y :: 0 <= y < |g| ==> |c[y]| == |g[y]|)
    && forall y, x :: 0 <= y < |g| && 0 <= x < |g[y]| ==> MovedInto(c[y][x], g[y][x], lo, hi)
  }

  lemma ClampCellByCell(g: Grid, lo: int, hi: int)
    requires lo <= hi
    ensures CellsMoved(g, Clamped(g, lo, hi), lo, hi)
  {
    var c := Clamped(g, lo, hi);
    forall y, x | 0 <= y < |g| && 0 <= x < |g[y]| ensures MovedInto(c[y][x], g[y][x], lo, hi) {
      assert c[y] == ClampRow(g[y], lo, hi);
    }
  }

  // ----- the map in memory

  ghost function Row(q: seq<int>, cols: nat, y: nat): (r: seq<int>)
    requires (y + 1) * cols <= |q|
    ensures |r| == cols
  {
    assert (y + 1) * cols == y * cols + cols;
    q[y * cols..y * cols + cols]
  }

  lemma RowFits(rows: nat, cols: nat, y: nat)
    requires y < rows
    ensures 0 <= y * cols && (y + 1) * cols == y * cols + cols && (y + 1) * cols <= rows * cols
  {
    var rest := rows - 1 - y;
    assert rows * cols == (y + 1) * cols + rest * cols;
  }

  ghost function ToGrid(q: seq<int>, rows: nat, cols: nat): (g: Grid)
    requires rows * cols <= |q|
    ensures IsGrid(g, rows, cols)
  {
    seq(rows, y requires 0 <= y < rows => RowFits(rows, cols, y); Row(q, cols, y))
  }

  /** `q` differs from `p` at most in row `y`. */
  ghost predicate OnlyRow(p: seq<int>, q: seq<int>, cols: nat, y: nat) {
    && |p| == |q|
    && forall k :: 0 <= k < |p| && !(y * cols <= k < y * cols + cols) ==> q[k] == p[k]
  }

  lemma OtherRowsStay(p: seq<int>, q: seq<int>, rows: nat, cols: nat, y: nat)
    requires rows * cols <= |p| && y < rows && OnlyRow(p, q, cols, y)
    ensures forall j :: 0 <= j < rows && j != y ==> ToGrid(q, rows, cols)[j] == ToGrid(p, rows, cols)[j]
  {
    RowFits(rows, cols, y);
    forall j | 0 <= j < rows && j != y
      ensures ToGrid(q, rows, cols)[j] == ToGrid(p, rows, cols)[j]
    {
      RowFits(rows, cols, j);
      if j < y { RowFits(y, cols, j); } else { RowFits(j, cols, y); }
      assert Row(q, cols, j) == Row(p, cols, j);
    }
  }

  /** Each row of the smoothed map in terms of the row above it. */
  lemma {:induction false} SmoothedRows(g: Grid, rows: nat, cols: nat, delta: int, y: nat)
    requires IsGrid(g, rows, cols) && y < rows
    ensures var s := Smoothed(g, rows, cols, delta);
            s[y] == if y == 0 then SmoothRow(g[0], delta) else PullRow(SmoothRow(g[y], delta), s[y - 1], delta)
  {
    if rows > 1 && y < rows - 1 {
      SmoothedRows(g[..rows - 1], rows - 1, cols, delta, y);
    }
  }

  /** Each value of a smoothed row in terms of the value to its left. */
  lemma {:induction false} SmoothRowAt(row: seq<int>, delta: int, x: nat)
    requires x < |row|
    ensures SmoothRow(row, delta)[x] == if x == 0 then row[0] else Near(row[x], SmoothRow(row, delta)[x - 1], delta)
    decreases |row|
  {
    if |row| > 1 && x < |row| - 1 {
      SmoothRowAt(row[..|row| - 1], delta, x);
    }
  }

  /** `q` is `p` with the `x` values from `base` on pulled towards the values `cols` before. */
  ghost predicate Pulled(p: seq<int>, q: seq<int>, base: nat, cols: nat, x: nat, delta: int)
    requires cols <= base && base + x <= |p|
  {
    && |q| == |p|
    && forall k {:trigger q[k]} :: 0 <= k < |p| ==>
         q[k] == if base <= k < base + x then Near(p[k], p[k - cols], delta) else p[k]
  }

  lemma PulledRow(p: seq<int>, q: seq<int>, cols: nat, y: nat, delta: int)
    requires 0 < y && (y + 1) * cols <= |p| && 0 <= (y - 1) * cols && y * cols == (y - 1) * cols + cols
    requires (y + 1) * cols == y * cols + cols && Pulled(p, q, y * cols, cols, cols, delta)
    ensures OnlyRow(p, q, cols, y) && |q| == |p|
    ensures Row(q, cols, y) == PullRow(Row(p, cols, y), Row(p, cols, y - 1), delta)
  {
    var row, above := Row(p, cols, y), Row(p, cols, y - 1);
    forall x | 0 <= x < cols ensures Row(q, cols, y)[x] == PullRow(row, above, delta)[x] {
      var k := y * cols + x;
      assert row[x] == p[k] && above[x] == p[k - cols] && q[k] == Near(p[k], p[k - cols], delta);
    }
  }

  lemma PulledNext(p: seq<int>, q: seq<int>, base: nat, cols: nat, x: nat, delta: int)
    requires cols <= base && base + x < |p| && x < cols && Pulled(p, q, base, cols, x, delta)
    ensures Pulled(p, q[base + x := Near(q[base + x], q[base - cols + x], delta)], base, cols, x + 1, delta)
  {
  }

  /** `q` is `p` with the first `x` values of `row` from `base` on. */
  ghost predicate Replaced(p: seq<int>, q: seq<int>, base: nat, row: seq<int>, x: nat)
    requires x <= |row| && base + |row| <= |p|
  {
    && |q| == |p|
    && forall k {:trigger q[k]} :: 0 <= k < |p| ==> q[k] == if base <= k < base + x then row[k - base] else p[k]
  }

  lemma ReplacedNext(p: seq<int>, q: seq<int>, base: nat, row: seq<int>, x: nat)
    requires x < |row| && base + |row| <= |p| && Replaced(p, q, base, row, x)
    ensures Replaced(p, q[base + x := row[x]], base, row, x + 1)
  {
  }

  lemma ReplacedRow(p: seq<int>, q: seq<int>, cols: nat, y: nat, row: seq<int>)
    requires |row| == cols && 0 <= y * cols && y * cols + cols <= |p| && Replaced(p, q, y * cols, row, cols)
    ensures OnlyRow(p, q, cols, y) && |q| == |p| && Row(q, cols, y) == row
  {
    forall x | 0 <= x < cols ensures Row(q, cols, y)[x] == row[x] {
      assert q[y * cols + x] == row[x];
    }
  }

  /** The first `y` rows are those of `done`, the others those of `todo`. */
  ghost predicate Mixed(now: Grid, done: Grid, todo: Grid, y: nat) {
    |now| == |done| == |todo| && forall j :: 0 <= j < |now| ==> now[j] == if j < y then done[j] else todo[j]
  }

  function SmoothRows(g: Grid, delta: int): (r: Grid)
    ensures |r| == |g|
  {
    seq(|g|, y requires 0 <= y < |g| => SmoothRow(g[y], delta))
  }

  /** Pulling row `y` towards the finished row above finishes it. */
  lemma ColumnNext(g: Grid, rows: nat, cols: nat, delta: int, before: Grid, now: Grid, y: nat)
    requires IsGrid(g, rows, cols) && IsGrid(before, rows, cols) && IsGrid(now, rows, cols) && 0 < y < rows
    requires Mixed(before, Smoothed(g, rows, cols, delta), SmoothRows(g, delta), y)
    requires forall j :: 0 <= j < rows && j != y ==> now[j] == before[j]
    requires now[y] == PullRow(before[y], before[y - 1], delta)
    ensures Mixed(now, Smoothed(g, rows, cols, delta), SmoothRows(g, delta), y + 1)
  {
    SmoothedRows(g, rows, cols, delta, y);
  }

  class QpMap16x16 {
    var blockCols: nat
    var blockRows: nat
    var qp: array<Byte>

    constructor (cols: nat, rows: nat, fill: Byte)
      ensures blockCols == cols && blockRows == rows && fresh(qp) && qp.Length == cols * rows
    {
      blockCols, blockRows := cols, rows;
      qp := new Byte[cols * rows](_ => fill);
    }

    ghost predicate Valid()
      reads this
    {
      qp.Length == blockRows * blockCols
    }

    ghost function Blocks(): (g: Grid)
      requires Valid()
      reads this, qp
      ensures IsGrid(g, blockRows, blockCols)
    {
      ToGrid(qp[..], blockRows, blockCols)
    }

    method SmoothRowInPlace(y: nat, delta: int)
      requires Valid() && y < blockRows && delta > 0
      modifies qp
      ensures OnlyRow(old(qp[..]), qp[..], blockCols, y)
      ensures Blocks()[y] == SmoothRow(old(Blocks()[y]), delta)
    {
      RowFits(blockRows, blockCols, y);
      ghost var before: seq<int> := qp[..];
      ghost var row := Row(before, blockCols, y);
      ghost var smooth := SmoothRow(row, delta);
      var base := y * blockCols;
      if blockCols == 0 { return; }
      SmoothRowAt(row, delta, 0);
      for x := 1 to blockCols
        invariant Replaced(before, qp[..], base, smooth, x)
      {
        SmoothRowAt(row, delta, x);
        ghost var now: seq<int> := qp[..];
        ReplacedNext(before, now, base, smooth, x);
        assert now[base + x] == row[x] && now[base + x - 1] == smooth[x - 1];
        var cur, prev: int := qp[base + x], qp[base + x - 1];
        if cur > prev + delta { cur := prev + delta; }
        if prev > cur + delta { cur := prev - delta; }
        qp[base + x] := cur;
        assert qp[..] == now[base + x := cur];
      }
      ReplacedRow(before, qp[..], blockCols, y, smooth);
    }

    method PullRowInPlace(y: nat, delta: int)
      requires Valid() && 0 < y < blockRows && delta > 0
      modifies qp
      ensures OnlyRow(old(qp[..]), qp[..], blockCols, y)
      ensures Blocks()[y] == PullRow(old(Blocks()[y]), old(Blocks()[y - 1]), delta)
    {
      RowFits(blockRows, blockCols, y);
      RowFits(blockRows, blockCols, y - 1);
      var top, base := (y - 1) * blockCols, y * blockCols;
      ghost var before := qp[..];
      for x := 0 to blockCols
        invariant Pulled(before, qp[..], base, blockCols, x, delta)
      {
        PulledNext(before, qp[..], base, blockCols, x, delta);
        ghost var now: seq<int> := qp[..];
        var cur, prev: int := qp[base + x], qp[top + x];
        if cur > prev + delta { cur := prev + delta; }
        if prev > cur + delta { cur := prev - delta; }
        qp[base + x] := cur;
        assert qp[..] == now[base + x := cur];
      }
      PulledRow(before, qp[..], blockCols, y, delta);
    }

    method RowPass(delta: int)
      requires Valid() && delta > 0
      modifies qp
      ensures Blocks() == SmoothRows(old(Blocks()), delta)
    {
      ghost var g := Blocks();
      for y := 0 to blockRows
        invariant Mixed(Blocks(), SmoothRows(g, delta), g, y)
      {
        label L:
        SmoothRowInPlace(y, delta);
        OtherRowsStay(old@L(qp[..]), qp[..], blockRows, blockCols, y);
      }
    }

    method ColumnPass(delta: int, ghost g: Grid)
      requires Valid() && delta > 0 && IsGrid(g, blockRows, blockCols) && Blocks() == SmoothRows(g, delta)
      modifies qp
      ensures Blocks() == Smoothed(g, blockRows, blockCols, delta)
    {
      if blockRows > 0 {
        SmoothedRows(g, blockRows, blockCols, delta, 0);
        for y := 1 to blockRows
          invariant Mixed(Blocks(), Smoothed(g, blockRows, blockCols, delta), SmoothRows(g, delta), y)
        {
          ghost var before := Blocks();
          label L:
          PullRowInPlace(y, delta);
          OtherRowsStay(old@L(qp[..]), qp[..], blockRows, blockCols, y);
          ColumnNext(g, blockRows, blockCols, delta, before, Blocks(), y);
        }
      }
    }

    /** Smooths the map in place; a delta that is not positive leaves it alone. */
    method SmoothQpMap(delta: int)
      requires Valid()
      modifies qp
      ensures Blocks() == if delta <= 0 then old(Blocks()) else Smoothed(old(Blocks()), blockRows, blockCols, delta)
      ensures delta > 0 ==> Bounded(Blocks(), delta)
      ensures delta > 0 ==>
                exists h :: RowsSmoothed(old(Blocks()), h, delta) && ColumnsSmoothed(h, Blocks(), blockCols, delta)
    {
      ghost var g := Blocks();
      if delta > 0 {
        RowsCellByCell(g, delta);
        ColumnsCellByCell(g, blockRows, blockCols, delta);
      }
      if blockCols == 0 || blockRows == 0 || delta <= 0 {
        if delta > 0 { NothingToSmooth(Blocks(), blockRows, blockCols, delta); }
        return;
      }
      RowPass(delta);
      ColumnPass(delta, g);
      SmoothedIsBounded(g, blockRows, blockCols, delta);
    }

    method ClampQpMap(lo: Byte, hi: Byte)
      requires Valid() && lo <= hi
      modifies qp
      ensures Blocks() == Clamped(old(Blocks()), lo, hi)
      ensures CellsMoved(old(Blocks()), Blocks(), lo, hi)
    {
      ClampCellByCell(Blocks(), lo, hi);
      for k := 0 to qp.Length
        invariant forall i :: 0 <= i < qp.Length ==> qp[i] == if i < k then Max(lo, Min(hi, old(qp[i]))) else old(qp[i])
      {
        qp[k] := Max(lo, Min(hi, qp[k]));
      }
      forall y | 0 <= y < blockRows
        ensures Blocks()[y] == Clamped(old(Blocks()), lo, hi)[y]
      {
        RowFits(blockRows, blockCols, y);
        assert Row(qp[..], blockCols, y) == ClampRow(Row(old(qp[..]), blockCols, y), lo, hi);
      }
      assert Blocks() == Clamped(old(Blocks()), lo, hi);
    }
  }

  /** A map without blocks cannot break a bound. */
  lemma NothingToSmooth(g: Grid, rows: nat, cols: nat, delta: int)
    requires IsGrid(g, rows, cols) && (rows == 0 || cols == 0)
    ensures Smoothed(g, rows, cols, delta) == g && Bounded(g, delta)
  {
    BoundedIsFixed(g, rows, cols, delta);
  }

  // ----- building the map of a frame

  /** The quantiser of each 16x16 block, read from the coding-tree unit that covers it. */
  function RawRow(
      ctuCols: int, ctuRows: int, ctuSize: int, qpFor: (int, int) -> Byte, cols: nat, row: nat): (r: seq<Byte>)
    ensures |r| == cols
  {
    seq(cols, bx requires 0 <= bx < cols =>
      qpFor(Min(ctuCols - 1, bx * 16 / Max(1, ctuSize)), Min(ctuRows - 1, row * 16 / Max(1, ctuSize))))
  }

  function RawGrid(ctuCols: int, ctuRows: int, ctuSize: int, qpFor: (int, int) -> Byte, rows: nat, cols: nat): (g: Grid)
    ensures IsGrid(g, rows, cols)
  {
    seq(rows, row requires 0 <= row < rows => RawRow(ctuCols, ctuRows, ctuSize, qpFor, cols, row))
  }

  /** Unit `u` of `count` covers the 16 positions from `16 * b` on; the last one covers whatever
      lies beyond. */
  predicate Covers(count: int, size: int, u: int, b: int) {
    0 <= u < count && u * size <= 16 * b && (16 * b < (u + 1) * size || u == count - 1)
  }

  lemma CoverIs(count: int, size: int, u: int, b: nat)
    requires size > 0 && Covers(count, size, u, b)
    ensures Min(count - 1, b * 16 / size) == u
  {
    var q := b * 16 / size;
    assert b * 16 == q * size + b * 16 % size;
    if q < u { MulGap(q, u, size); }
    if u < q { MulGap(u, q, size); }
  }

  /** Each block of the raw map has the quantiser of the unit that covers it. */
  ghost predicate FromUnits(
      g: Grid, ctuCols: int, ctuRows: int, ctuSize: int, qpFor: (int, int) -> Byte, rows: nat, cols: nat)
  {
    && IsGrid(g, rows, cols)
    && forall y, x, u, v :: 0 <= y < rows && 0 <= x < cols
                            && Covers(ctuCols, ctuSize, u, x) && Covers(ctuRows, ctuSize, v, y) ==>
         g[y][x] == qpFor(u, v)
  }

  lemma RawFromUnits(ctuCols: int, ctuRows: int, ctuSize: int, qpFor: (int, int) -> Byte, rows: nat, cols: nat)
    requires ctuSize > 0
    ensures var g := RawGrid(ctuCols, ctuRows, ctuSize, qpFor, rows, cols);
            FromUnits(g, ctuCols, ctuRows, ctuSize, qpFor, rows, cols)
  {
    var g := RawGrid(ctuCols, ctuRows, ctuSize, qpFor, rows, cols);
    forall y, x, u, v | 0 <= y < rows && 0 <= x < cols
                        && Covers(ctuCols, ctuSize, u, x) && Covers(ctuRows, ctuSize, v, y)
      ensures g[y][x] == qpFor(u, v)
    {
      CoverIs(ctuCols, ctuSize, u, x);
      CoverIs(ctuRows, ctuSize, v, y);
    }
  }

  /** The map of a frame: the quantisers of the covering units, smoothed when that is on, and moved
      into 1..51, cell by cell. */
  ghost predicate IsFrameMap(raw: Grid, out: Grid, cols: nat, smoothing: bool, delta: int) {
    if smoothing && delta > 0 then
      exists h, s :: RowsSmoothed(raw, h, delta) && ColumnsSmoothed(h, s, cols, delta) && CellsMoved(s, out, 1, 51)
    else CellsMoved(raw, out, 1, 51)
  }

  function CeilDiv(value: nat, denom: nat): (r: nat)
    ensures denom > 0 ==> r * denom >= value && (r > 0 ==> (r - 1) * denom < value)
  {
    if denom > 0 then (value + denom - 1) / denom else 0
  }

  method CtuQpTo16x16(ctuCols: int, ctuRows: int, ctuSize: int, width: nat, height: nat, anchor: Byte,
                      qpFor: (int, int) -> Byte, smoothing: bool, delta: int) returns (out: QpMap16x16)
    ensures out.Valid() && out.blockCols == CeilDiv(width, 16) && out.blockRows == CeilDiv(height, 16)
    ensures var raw := RawGrid(ctuCols, ctuRows, ctuSize, qpFor, out.blockRows, out.blockCols);
            var smoothed := if smoothing && delta > 0 then Smoothed(raw, out.blockRows, out.blockCols, delta) else raw;
            out.Blocks() == Clamped(smoothed, 1, 51)
    ensures ctuSize > 0 ==>
              exists raw :: FromUnits(raw, ctuCols, ctuRows, ctuSize, qpFor, out.blockRows, out.blockCols)
                            && IsFrameMap(raw, out.Blocks(), out.blockCols, smoothing, delta)
    ensures AllWithin(out.Blocks(), 1, 51)
    ensures smoothing && delta > 0 ==> Bounded(out.Blocks(), delta)
  {
    var cols, rows := CeilDiv(width, 16), CeilDiv(height, 16);
    out := new QpMap16x16(cols, rows, Max(1, Min(51, anchor)));
    ghost var raw := RawGrid(ctuCols, ctuRows, ctuSize, qpFor, rows, cols);
    for row := 0 to rows
      invariant out.blockCols == cols && out.blockRows == rows && fresh(out) && fresh(out.qp) && out.Valid()
      invariant forall j :: 0 <= j < row ==> out.Blocks()[j] == raw[j]
    {
      label L:
      RowFits(rows, cols, row);
      var ctuY := Min(ctuRows - 1, row * 16 / Max(1, ctuSize));
      for bx := 0 to cols
        invariant out.blockCols == cols && out.blockRows == rows && fresh(out) && fresh(out.qp) && out.Valid()
        invariant out.qp == old@L(out.qp) && OnlyRow(old@L(out.qp[..]), out.qp[..], cols, row)
        invariant forall k :: 0 <= k < bx ==> out.qp[row * cols + k] == raw[row][k]
      {
        var ctuX := Min(ctuCols - 1, bx * 16 / Max(1, ctuSize));
        out.qp[row * cols + bx] := qpFor(ctuX, ctuY);
      }
      OtherRowsStay(old@L(out.qp[..]), out.qp[..], rows, cols, row);
      assert Row(out.qp[..], cols, row) == raw[row];
    }
    assert out.Blocks() == raw;
    if ctuSize > 0 { RawFromUnits(ctuCols, ctuRows, ctuSize, qpFor, rows, cols); }
    if smoothing {
      out.SmoothQpMap(delta);
    }
    ghost var before := out.Blocks();
    out.ClampQpMap(1, 51);
    assert IsFrameMap(raw, out.Blocks(), cols, smoothing, delta);
    ClampWithin(before, 1, 51);
    if smoothing && delta > 0 {
      ClampKeepsBound(before, delta, 1, 51);
    }
  }

  lemma ClampWithin(g: Grid, lo: int, hi: int)
    requires lo <= hi
    ensures AllWithin(Clamped(g, lo, hi), lo, hi)
  {
  }
}
