/** Summed-area tables over a frame and the four-corner lookup of rectangle sums. */
module SummedArea {
  import opened Arith

  /** The value a table adds up at column x and row y. */
  type Source = (int, int) -> int

  /** Sum of row y over the columns [x0, x1). */
  function Line(f: Source, y: int, x0: int, x1: int): int
    decreases x1 - x0
  {
    if x0 >= x1 then 0 else Line(f, y, x0, x1 - 1) + f(x1 - 1, y)
  }

  /** Naive double sum over the columns [x0, x1) and rows [y0, y1). */
  function Area(f: Source, x0: int, y0: int, x1: int, y1: int): int
    decreases y1 - y0
  {
    if y0 >= y1 then 0 else Area(f, x0, y0, x1, y1 - 1) + Line(f, y1 - 1, x0, x1)
  }

  lemma {:induction false} LineSplit(f: Source, y: int, x0: int, x1: int, x2: int)
    requires x0 <= x1 <= x2
    ensures Line(f, y, x0, x2) == Line(f, y, x0, x1) + Line(f, y, x1, x2)
    decreases x2 - x1
  {
    if x1 < x2 {
      LineSplit(f, y, x0, x1, x2 - 1);
    }
  }

  lemma {:induction false} AreaSplitColumns(f: Source, x0: int, x1: int, x2: int, y0: int, y1: int)
    requires x0 <= x1 <= x2
    ensures Area(f, x0, y0, x2, y1) == Area(f, x0, y0, x1, y1) + Area(f, x1, y0, x2, y1)
    decreases y1 - y0
  {
    if y0 < y1 {
      AreaSplitColumns(f, x0, x1, x2, y0, y1 - 1);
      LineSplit(f, y1 - 1, x0, x1, x2);
    }
  }

  lemma {:induction false} AreaSplitRows(f: Source, x0: int, x1: int, y0: int, y1: int, y2: int)
    requires y0 <= y1 <= y2
    ensures Area(f, x0, y0, x1, y2) == Area(f, x0, y0, x1, y1) + Area(f, x0, y1, x1, y2)
    decreases y2 - y1
  {
    if y1 < y2 {
      AreaSplitRows(f, x0, x1, y0, y1, y2 - 1);
    }
  }

  /** Inclusion and exclusion of the areas below the four corners. */
  lemma FourCorners(f: Source, x0: int, y0: int, x1: int, y1: int)
    requires 0 <= x0 <= x1 && 0 <= y0 <= y1
    ensures Area(f, 0, 0, x1, y1) - Area(f, 0, 0, x1, y0) - Area(f, 0, 0, x0, y1) + Area(f, 0, 0, x0, y0)
            == Area(f, x0, y0, x1, y1)
  {
    AreaSplitRows(f, 0, x1, 0, y0, y1);
    AreaSplitRows(f, 0, x0, 0, y0, y1);
    AreaSplitColumns(f, 0, x0, x1, y0, y1);
  }

  lemma {:induction false} EmptyArea(f: Source, x: int, y0: int, y1: int)
    ensures Area(f, x, y0, x, y1) == 0
    decreases y1 - y0
  {
    if y0 < y1 {
      EmptyArea(f, x, y0, y1 - 1);
    }
  }

  /** A 0/1 source counts: its sum over a rectangle lies between 0 and the rectangle's size. */
  lemma {:induction false} CountWithinSize(f: Source, x0: int, y0: int, x1: int, y1: int)
    requires forall x, y :: 0 <= f(x, y) <= 1
    requires x0 <= x1 && y0 <= y1
    ensures 0 <= Area(f, x0, y0, x1, y1) <= (x1 - x0) * (y1 - y0)
    decreases y1 - y0
  {
    if y0 < y1 {
      CountWithinSize(f, x0, y0, x1, y1 - 1);
      LineWithinLength(f, y1 - 1, x0, x1);
      assert (x1 - x0) * (y1 - y0) == (x1 - x0) * (y1 - 1 - y0) + (x1 - x0);
    } else {
      assert (x1 - x0) * (y1 - y0) == 0;
    }
  }

  lemma {:induction false} LineWithinLength(f: Source, y: int, x0: int, x1: int)
    requires forall x, z :: 0 <= f(x, z) <= 1
    requires x0 <= x1
    ensures 0 <= Line(f, y, x0, x1) <= x1 - x0
    decreases x1 - x0
  {
    if x0 < x1 {
      LineWithinLength(f, y, x0, x1 - 1);
    }
  }

  // ----- the tables

  /** Position of corner (x, y) in a table for a frame of width w. */
  function Corner(w: nat, x: nat, y: nat): nat {
    y * (w + 1) + x
  }

  lemma CornersInTable(w: nat, h: nat, x: nat, y: nat)
    requires x <= w && y <= h
    ensures Corner(w, x, y) < (w + 1) * (h + 1)
  {
    var rest := h - y;
    assert (w + 1) * (h + 1) == y * (w + 1) + (w + 1) + rest * (w + 1);
  }

  lemma CornersDiffer(w: nat, x: nat, y: nat, x': nat, y': nat)
    requires x <= w && x' <= w && (x != x' || y != y')
    ensures Corner(w, x, y) != Corner(w, x', y')
  {
    MulGap(y, y', w + 1);
    MulGap(y', y, w + 1);
  }

  /** Entry (x, y) of the table is the area above and to the left of that corner. */
  ghost predicate Holds(t: seq<int>, f: Source, w: nat, h: nat, x: nat, y: nat)
    requires |t| == (w + 1) * (h + 1) && x <= w && y <= h
  {
    CornersInTable(w, h, x, y);
    t[Corner(w, x, y)] == Area(f, 0, 0, x, y)
  }

  ghost predicate IsTable(t: seq<int>, f: Source, w: nat, h: nat) {
    && |t| == (w + 1) * (h + 1)
    && forall x: nat, y: nat :: x <= w && y <= h ==> Holds(t, f, w, h, x, y)
  }

  /** Fills row y + 1 from row y with a running row sum. */
  method FillRow(t: array<int>, f: Source, w: nat, h: nat, y: nat)
    requires t.Length == (w + 1) * (h + 1) && y < h
    requires forall i: nat, j: nat :: i <= w && j <= y ==> Holds(t[..], f, w, h, i, j)
    requires forall j: nat :: j <= h ==> Holds(t[..], f, w, h, 0, j)
    modifies t
    ensures forall i: nat, j: nat :: i <= w && j <= y + 1 ==> Holds(t[..], f, w, h, i, j)
    ensures forall j: nat :: j <= h ==> Holds(t[..], f, w, h, 0, j)
  {
    var rowSum := 0;
    for x := 0 to w
      invariant rowSum == Line(f, y, 0, x)
      invariant forall i: nat, j: nat :: i <= w && j <= y ==> Holds(t[..], f, w, h, i, j)
      invariant forall i: nat, j: nat :: i <= x && j == y + 1 ==> Holds(t[..], f, w, h, i, j)
      invariant forall j: nat :: j <= h ==> Holds(t[..], f, w, h, 0, j)
    {
      rowSum := rowSum + f(x, y);
      CornersInTable(w, h, x + 1, y + 1);
      CornersInTable(w, h, x + 1, y);
      assert Holds(t[..], f, w, h, x + 1, y);
      ghost var before := t[..];
      t[Corner(w, x + 1, y + 1)] := t[Corner(w, x + 1, y)] + rowSum;
      assert t[..] == before[Corner(w, x + 1, y + 1) := Area(f, 0, 0, x + 1, y + 1)];
      HoldsAfterSet(before, f, w, h, x + 1, y + 1);
    }
  }

  lemma HoldsAfterSet(t: seq<int>, f: Source, w: nat, h: nat, x: nat, y: nat)
    requires |t| == (w + 1) * (h + 1) && x <= w && y <= h && Corner(w, x, y) < |t|
    ensures var u := t[Corner(w, x, y) := Area(f, 0, 0, x, y)];
            && Holds(u, f, w, h, x, y)
            && forall i: nat, j: nat :: i <= w && j <= h && Holds(t, f, w, h, i, j) ==> Holds(u, f, w, h, i, j)
  {
    var u := t[Corner(w, x, y) := Area(f, 0, 0, x, y)];
    forall i: nat, j: nat | i <= w && j <= h && Holds(t, f, w, h, i, j) ensures Holds(u, f, w, h, i, j) {
      if i != x || j != y { CornersDiffer(w, i, j, x, y); }
      CornersInTable(w, h, i, j);
    }
  }

  method BuildTable(f: Source, w: nat, h: nat) returns (t: array<int>)
    ensures fresh(t) && IsTable(t[..], f, w, h)
  {
    t := new int[(w + 1) * (h + 1)](_ => 0);
    forall i: nat, j: nat | i <= w && j <= h && (i == 0 || j == 0)
      ensures Holds(t[..], f, w, h, i, j)
    {
      CornersInTable(w, h, i, j);
      EmptyArea(f, 0, 0, j);
    }
    for y := 0 to h
      invariant forall i: nat, j: nat :: i <= w && j <= y ==> Holds(t[..], f, w, h, i, j)
      invariant forall j: nat :: j <= h ==> Holds(t[..], f, w, h, 0, j)
    {
      FillRow(t, f, w, h, y);
    }
  }

  function ClampTo(limit: nat, v: int): (r: nat)
    ensures r <= limit && (0 <= v <= limit ==> r == v)
  {
    if v < 0 then 0 else if v > limit then limit else v
  }

  /** Any rectangle, clamped to the frame, is summed exactly by four table entries; a count is
      never negative and never exceeds the size of the clamped rectangle. */
  method RectSum(t: array<int>, ghost f: Source, w: nat, h: nat, x0: int, y0: int, x1: int, y1: int) returns (sum: int)
    requires IsTable(t[..], f, w, h)
    ensures x0 <= x1 && y0 <= y1 ==>
              sum == Area(f, ClampTo(w, x0), ClampTo(h, y0), ClampTo(w, x1), ClampTo(h, y1))
    ensures x0 <= x1 && y0 <= y1 && (forall x, y :: 0 <= f(x, y) <= 1) ==>
              0 <= sum <= (ClampTo(w, x1) - ClampTo(w, x0)) * (ClampTo(h, y1) - ClampTo(h, y0))
  {
    var l, u, r, d := ClampTo(w, x0), ClampTo(h, y0), ClampTo(w, x1), ClampTo(h, y1);
    CornersInTable(w, h, r, d);
    CornersInTable(w, h, r, u);
    CornersInTable(w, h, l, d);
    CornersInTable(w, h, l, u);
    assert Holds(t[..], f, w, h, r, d) && Holds(t[..], f, w, h, r, u) && Holds(t[..], f, w, h, l, d)
           && Holds(t[..], f, w, h, l, u);
    sum := t[Corner(w, r, d)] - t[Corner(w, r, u)] - t[Corner(w, l, d)] + t[Corner(w, l, u)];
    if x0 <= x1 && y0 <= y1 {
      FourCorners(f, l, u, r, d);
      if forall x, y :: 0 <= f(x, y) <= 1 { CountWithinSize(f, l, u, r, d); }
    }
  }
}
