/** From the foreground mask to the boxes of a frame: regions, trimmed of thin fringes by their
    row and column counts, become the candidates of the selection. */
module RoiTrim {
  import opened Basics
  import opened Regions
  import opened RoiSelection

  datatype Axis = Column | Row

  function Coord(p: Pixel, axis: Axis): int {
    if axis == Column then p.x else p.y
  }

  /** How many pixels lie in one column or row. */
  function Hits(pixels: seq<Pixel>, axis: Axis, at: int): nat {
    if pixels == [] then 0
    else Hits(pixels[..|pixels| - 1], axis, at) + (if Coord(pixels[|pixels| - 1], axis) == at then 1 else 0)
  }

  method CountHits(pixels: seq<Pixel>, axis: Axis, lo: int, hi: int) returns (counts: array<int>)
    requires lo <= hi && forall p :: p in pixels ==> lo <= Coord(p, axis) <= hi
    ensures fresh(counts) && counts.Length == hi - lo + 1
    ensures forall i :: 0 <= i < counts.Length ==> counts[i] == Hits(pixels, axis, lo + i)
  {
    counts := new int[hi - lo + 1](_ => 0);
    for n := 0 to |pixels|
      invariant counts.Length == hi - lo + 1
      invariant forall i :: 0 <= i < counts.Length ==> counts[i] == Hits(pixels[..n], axis, lo + i)
    {
      assert pixels[..n + 1][..n] == pixels[..n] && pixels[n] in pixels;
      var k := Coord(pixels[n], axis) - lo;
      counts[k] := counts[k] + 1;
    }
    assert pixels[..|pixels|] == pixels;
  }

  /** `first` and `last` are the least and the greatest position in [lo, hi] with enough hits;
      they cross when there is none. */
  ghost predicate IsTrim(pixels: seq<Pixel>, axis: Axis, lo: int, hi: int, enough: int, first: int, last: int) {
    && lo <= first && last <= hi
    && (forall at :: lo <= at <= hi && Hits(pixels, axis, at) >= enough ==> first <= at <= last)
    && (first <= last ==> Hits(pixels, axis, first) >= enough && Hits(pixels, axis, last) >= enough)
  }

  method TrimAxis(pixels: seq<Pixel>, axis: Axis, lo: int, hi: int, enough: int) returns (first: int, last: int)
    requires lo <= hi && forall p :: p in pixels ==> lo <= Coord(p, axis) <= hi
    ensures IsTrim(pixels, axis, lo, hi, enough, first, last)
  {
    var counts := CountHits(pixels, axis, lo, hi);
    first, last := lo, hi;
    while first <= last && counts[first - lo] < enough
      invariant lo <= first <= last + 1 == hi + 1
      invariant forall at :: lo <= at < first ==> Hits(pixels, axis, at) < enough
    {
      assert counts[first - lo] == Hits(pixels, axis, lo + (first - lo));
      first := first + 1;
    }
    while last >= first && counts[last - lo] < enough
      invariant lo <= first <= last + 1 <= hi + 1
      invariant first <= hi ==> counts[first - lo] >= enough
      invariant forall at :: last < at <= hi ==> Hits(pixels, axis, at) < enough
    {
      assert counts[last - lo] == Hits(pixels, axis, lo + (last - lo));
      last := last - 1;
    }
    assert first <= last ==>
             && counts[first - lo] == Hits(pixels, axis, lo + (first - lo))
             && counts[last - lo] == Hits(pixels, axis, lo + (last - lo));
  }

  /** Verdict of the tests on floating-point ratios. */
  type Verdict = (Region, int, int, int, int) -> bool

  /** The extent of a region without columns and rows that have too few pixels. */
  ghost predicate TrimmedFrom(r: Region, e: Extent, plausible: Verdict) {
    && e.plausible == plausible(r, e.minX, e.maxX, e.minY, e.maxY)
    && IsTrim(r.pixels, Column, r.minX, r.maxX, Max(2, (r.maxY - r.minY + 1) / 10), e.minX, e.maxX)
    && IsTrim(r.pixels, Row, r.minY, r.maxY, Max(2, (r.maxX - r.minX + 1) / 10), e.minY, e.maxY)
  }

  method TrimRegion(r: Region, plausible: Verdict) returns (e: Extent)
    requires ExactBox(r)
    ensures TrimmedFrom(r, e, plausible)
  {
    var minX, maxX := TrimAxis(r.pixels, Column, r.minX, r.maxX, Max(2, (r.maxY - r.minY + 1) / 10));
    var minY, maxY := TrimAxis(r.pixels, Row, r.minY, r.maxY, Max(2, (r.maxX - r.minX + 1) / 10));
    e := Extent(minX, maxX, minY, maxY, plausible(r, minX, maxX, minY, maxY));
  }

  /** A region lies in the mask. */
  lemma RegionInMask(mask: seq<bool>, w: nat, h: nat, r: Region)
    requires |mask| == w * h && IsRegion(mask, w, h, r)
    ensures 0 <= r.minX <= r.maxX < w && 0 <= r.minY <= r.maxY < h && ExactBox(r)
  {
    forall p | p in r.pixels ensures At(mask, w, h, p) {
      assert Connected(mask, w, h, r.pixels[0], p);
      ConnectedForeground(mask, w, h, r.pixels[0], p);
    }
  }

  lemma ConnectedForeground(mask: seq<bool>, w: nat, h: nat, p: Pixel, q: Pixel)
    requires |mask| == w * h && Connected(mask, w, h, p, q)
    ensures At(mask, w, h, q)
  {
    var path :| |path| > 0 && path[0] == p && path[|path| - 1] == q && IsPath(mask, w, h, path);
  }

  /** A trimmed extent that is not empty stays on the grid of the mask. */
  predicate OnMask(e: Extent, w: nat, h: nat) {
    0 <= e.minX <= e.maxX < w && 0 <= e.minY <= e.maxY < h
  }

  /** The extents that trimming left something of, in order. */
  function NonEmpty(es: seq<Extent>): seq<Extent> {
    if es == [] then []
    else
      var e := es[|es| - 1];
      NonEmpty(es[..|es| - 1]) + (if e.minX <= e.maxX && e.minY <= e.maxY then [e] else [])
  }

  /** Connected components of the mask that partition its foreground, and their trimmed extents. */
  ghost predicate Candidates(mask: seq<bool>, w: nat, h: nat, plausible: Verdict, rs: seq<Region>, all: seq<Extent>)
    requires |mask| == w * h
  {
    && |rs| == |all|
    && (forall i :: 0 <= i < |rs| ==> IsRegion(mask, w, h, rs[i]) && TrimmedFrom(rs[i], all[i], plausible))
    && (forall i, j, p :: 0 <= i < j < |rs| && p in rs[i].pixels ==> p !in rs[j].pixels)
    && (forall p :: At(mask, w, h, p) <==> Covered(rs, p))
  }

  /** The candidates of a mask: its regions in scan order, trimmed; what trims away is left out. */
  method MoverExtents(mask: seq<bool>, w: nat, h: nat, plausible: Verdict)
    returns (es: seq<Extent>, ghost rs: seq<Region>, ghost all: seq<Extent>)
    requires |mask| == w * h
    ensures Candidates(mask, w, h, plausible, rs, all) && es == NonEmpty(all)
    ensures forall i :: 0 <= i < |es| ==> OnMask(es[i], w, h)
  {
    hide IsRegion, TrimmedFrom, Covered, At;
    var regions := ExtractRegions(mask, w, h);
    rs, all, es := regions, [], [];
    for i := 0 to |regions|
      invariant |all| == i && es == NonEmpty(all)
      invariant forall k :: 0 <= k < i ==> TrimmedFrom(rs[k], all[k], plausible)
      invariant forall k :: 0 <= k < |es| ==> OnMask(es[k], w, h)
    {
      RegionInMask(mask, w, h, regions[i]);
      var e := TrimRegion(regions[i], plausible);
      TrimOnMask(regions[i], e, plausible, w, h);
      ghost var before := all;
      all := all + [e];
      assert all[..|all| - 1] == before;
      if e.minX <= e.maxX && e.minY <= e.maxY {
        es := es + [e];
      }
    }
  }

  lemma TrimOnMask(r: Region, e: Extent, plausible: Verdict, w: nat, h: nat)
    requires TrimmedFrom(r, e, plausible) && 0 <= r.minX <= r.maxX < w && 0 <= r.minY <= r.maxY < h
    ensures e.minX <= e.maxX && e.minY <= e.maxY ==> OnMask(e, w, h)
  {
  }

  /** From the mask of a frame to its boxes; the reduced grid has a quarter of the frame's width
      and height.  Whatever the mask, the signs, the text regions and the verdicts are, the
      boxes meet all limits. */
  method AnalyseFrame(mask: seq<bool>, signs: seq<Sign>, texts: seq<Extent>, width: nat, height: nat,
      plausible: Verdict)
    returns (s: Selection, ghost rs: seq<Region>, ghost all: seq<Extent>)
    requires |mask| == Max(1, width / SCALE) * Max(1, height / SCALE)
    ensures Candidates(mask, Max(1, width / SCALE), Max(1, height / SCALE), plausible, rs, all)
    ensures RoiSelection.Good(s, width, height) && ChosenInTurn(NonEmpty(all), signs, texts, width, height, s.objects)
  {
    hide Candidates, ChosenInTurn;
    var es;
    es, rs, all := MoverExtents(mask, Max(1, width / SCALE), Max(1, height / SCALE), plausible);
    s := SelectBoxes(es, signs, texts, width, height);
  }
}
