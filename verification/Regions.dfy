/** Connected foreground regions of a mask: the breadth-first flood fill and the scan that
    collects all regions, as in the analyser of moving objects. */
module Regions {
  import opened Arith

  datatype Pixel = Pixel(x: int, y: int)

  /** One region: its pixels in discovery order and its bounding box. */
  datatype Region = Region(pixels: seq<Pixel>, minX: int, maxX: int, minY: int, maxY: int)

  predicate InFrame(p: Pixel, w: nat, h: nat) {
    0 <= p.x < w && 0 <= p.y < h
  }

  function Index(p: Pixel, w: nat): int {
    p.y * w + p.x
  }

  lemma IndexInRange(p: Pixel, w: nat, h: nat)
    requires InFrame(p, w, h)
    ensures 0 <= Index(p, w) < w * h
  {
    assert (p.y + 1) * w == p.y * w + w;
    var rest := h - 1 - p.y;
    assert h * w == (p.y + 1) * w + rest * w;
  }

  lemma IndexInjective(p: Pixel, q: Pixel, w: nat, h: nat)
    requires InFrame(p, w, h) && InFrame(q, w, h) && p != q
    ensures Index(p, w) != Index(q, w)
  {
    if p.y < q.y {
      MulGap(p.y, q.y, w);
    } else if q.y < p.y {
      MulGap(q.y, p.y, w);
    }
  }

  predicate At(s: seq<bool>, w: nat, h: nat, p: Pixel)
    requires |s| == w * h
  {
    InFrame(p, w, h) && (IndexInRange(p, w, h); s[Index(p, w)])
  }

  lemma AtAfterMark(s: seq<bool>, w: nat, h: nat, p: Pixel)
    requires |s| == w * h && InFrame(p, w, h)
    ensures 0 <= Index(p, w) < |s|
    ensures forall q :: At(s[Index(p, w) := true], w, h, q) <==> At(s, w, h, q) || q == p
  {
    IndexInRange(p, w, h);
    forall q ensures At(s[Index(p, w) := true], w, h, q) <==> At(s, w, h, q) || q == p {
      if InFrame(q, w, h) && q != p {
        IndexInRange(q, w, h);
        IndexInjective(p, q, w, h);
      }
    }
  }

  predicate Adjacent(p: Pixel, q: Pixel) {
    (p.y == q.y && (p.x == q.x + 1 || q.x == p.x + 1)) || (p.x == q.x && (p.y == q.y + 1 || q.y == p.y + 1))
  }

  // ----- connectivity

  /** A walk through foreground pixels, each next to the one before. */
  ghost predicate IsPath(mask: seq<bool>, w: nat, h: nat, path: seq<Pixel>)
    requires |mask| == w * h
  {
    && (forall i :: 0 <= i < |path| ==> At(mask, w, h, path[i]))
    && (forall i :: 0 < i < |path| ==> Adjacent(path[i - 1], path[i]))
  }

  ghost predicate Connected(mask: seq<bool>, w: nat, h: nat, p: Pixel, q: Pixel)
    requires |mask| == w * h
  {
    exists path :: |path| > 0 && path[0] == p && path[|path| - 1] == q && IsPath(mask, w, h, path)
  }

  lemma ConnectedSelf(mask: seq<bool>, w: nat, h: nat, p: Pixel)
    requires |mask| == w * h && At(mask, w, h, p)
    ensures Connected(mask, w, h, p, p)
  {
    assert IsPath(mask, w, h, [p]);
  }

  lemma ConnectedStep(mask: seq<bool>, w: nat, h: nat, p: Pixel, q: Pixel, r: Pixel)
    requires |mask| == w * h && Connected(mask, w, h, p, q) && At(mask, w, h, r) && Adjacent(q, r)
    ensures Connected(mask, w, h, p, r)
  {
    var path :| |path| > 0 && path[0] == p && path[|path| - 1] == q && IsPath(mask, w, h, path);
    assert IsPath(mask, w, h, path + [r]);
  }

  /** Walking backwards. */
  function Reverse(path: seq<Pixel>): (r: seq<Pixel>)
    ensures |r| == |path|
    ensures forall i :: 0 <= i < |path| ==> r[i] == path[|path| - 1 - i]
  {
    seq(|path|, i requires 0 <= i < |path| => path[|path| - 1 - i])
  }

  lemma ConnectedSymmetric(mask: seq<bool>, w: nat, h: nat, p: Pixel, q: Pixel)
    requires |mask| == w * h && Connected(mask, w, h, p, q)
    ensures Connected(mask, w, h, q, p)
  {
    var path :| |path| > 0 && path[0] == p && path[|path| - 1] == q && IsPath(mask, w, h, path);
    assert IsPath(mask, w, h, Reverse(path));
  }

  lemma ConnectedTransitive(mask: seq<bool>, w: nat, h: nat, p: Pixel, q: Pixel, r: Pixel)
    requires |mask| == w * h && Connected(mask, w, h, p, q) && Connected(mask, w, h, q, r)
    ensures Connected(mask, w, h, p, r)
  {
    var a :| |a| > 0 && a[0] == p && a[|a| - 1] == q && IsPath(mask, w, h, a);
    var b :| |b| > 0 && b[0] == q && b[|b| - 1] == r && IsPath(mask, w, h, b);
    var c := a + b[1..];
    forall i | 0 < i < |c| ensures Adjacent(c[i - 1], c[i]) {
      if i >= |a| {
        assert c[i] == b[i - |a| + 1];
        assert c[i - 1] == b[i - |a|];
      }
    }
    assert IsPath(mask, w, h, c);
    assert c[|c| - 1] == r;
  }

  /** A set of pixels that no foreground neighbour leaves. */
  ghost predicate Closed(mask: seq<bool>, w: nat, h: nat, inside: iset<Pixel>)
    requires |mask| == w * h
  {
    forall p, q :: p in inside && At(mask, w, h, p) && At(mask, w, h, q) && Adjacent(p, q) ==> q in inside
  }

  lemma {:induction false} ClosedHoldsPath(mask: seq<bool>, w: nat, h: nat, inside: iset<Pixel>, path: seq<Pixel>)
    requires |mask| == w * h && Closed(mask, w, h, inside)
    requires IsPath(mask, w, h, path) && |path| > 0 && path[0] in inside
    ensures path[|path| - 1] in inside
    decreases |path|
  {
    if |path| > 1 {
      var n := |path| - 1;
      assert IsPath(mask, w, h, path[..n]);
      ClosedHoldsPath(mask, w, h, inside, path[..n]);
    }
  }

  lemma ClosedHoldsConnected(mask: seq<bool>, w: nat, h: nat, inside: iset<Pixel>, p: Pixel, q: Pixel)
    requires |mask| == w * h && Closed(mask, w, h, inside)
    requires p in inside && Connected(mask, w, h, p, q)
    ensures q in inside
  {
    var path :| |path| > 0 && path[0] == p && path[|path| - 1] == q && IsPath(mask, w, h, path);
    ClosedHoldsPath(mask, w, h, inside, path);
  }

  // ----- the flood fill

  ghost predicate Distinct(s: seq<Pixel>) {
    forall i, j :: 0 <= i < j < |s| ==> s[i] != s[j]
  }

  /** Every pixel found so far (collected or waiting) is new foreground connected to the seed. */
  ghost predicate Found(mask: seq<bool>, w: nat, h: nat, before: seq<bool>, now: seq<bool>, seed: Pixel,
      found: seq<Pixel>)
    requires |mask| == |before| == |now| == w * h
  {
    && |found| > 0 && found[0] == seed && Distinct(found)
    && (forall i :: 0 <= i < |found| ==>
          At(mask, w, h, found[i]) && !At(before, w, h, found[i]) && Connected(mask, w, h, seed, found[i]))
    && (forall p :: At(now, w, h, p) <==> At(before, w, h, p) || p in found)
  }

  lemma FoundPush(mask: seq<bool>, w: nat, h: nat, before: seq<bool>, now: seq<bool>, seed: Pixel, found: seq<Pixel>,
      p: Pixel, q: Pixel)
    requires |mask| == |before| == |now| == w * h && Found(mask, w, h, before, now, seed, found)
    requires p in found && Adjacent(p, q) && At(mask, w, h, q) && !At(now, w, h, q)
    ensures 0 <= Index(q, w) < |now|
    ensures Found(mask, w, h, before, now[Index(q, w) := true], seed, found + [q])
  {
    AtAfterMark(now, w, h, q);
    ConnectedStep(mask, w, h, seed, p, q);
  }

  /** The neighbours of the first `n` found pixels have been found. */
  ghost predicate Expanded(mask: seq<bool>, w: nat, h: nat, found: seq<Pixel>, n: nat)
    requires |mask| == w * h && n <= |found|
  {
    forall i, q :: 0 <= i < n && At(mask, w, h, q) && Adjacent(found[i], q) ==> q in found
  }

  function Neighbour(p: Pixel, d: nat): Pixel {
    if d == 0 then Pixel(p.x + 1, p.y)
    else if d == 1 then Pixel(p.x - 1, p.y)
    else if d == 2 then Pixel(p.x, p.y + 1)
    else Pixel(p.x, p.y - 1)
  }

  lemma NeighboursAreAdjacent(p: Pixel)
    ensures forall q :: Adjacent(p, q) <==>
                          q == Neighbour(p, 0) || q == Neighbour(p, 1) || q == Neighbour(p, 2) || q == Neighbour(p, 3)
  {
    forall q
      ensures Adjacent(p, q)
              <==> q == Neighbour(p, 0) || q == Neighbour(p, 1) || q == Neighbour(p, 2) || q == Neighbour(p, 3)
    {
      assert q == Pixel(q.x, q.y);
    }
  }

  function Unvisited(s: seq<bool>): (r: set<int>) {
    set i | 0 <= i < |s| && !s[i]
  }

  /** The box is the least one around the pixels. */
  ghost predicate ExactBox(r: Region) {
    && (forall p :: p in r.pixels ==> r.minX <= p.x <= r.maxX && r.minY <= p.y <= r.maxY)
    && (exists p :: p in r.pixels && p.x == r.minX)
    && (exists p :: p in r.pixels && p.x == r.maxX)
    && (exists p :: p in r.pixels && p.y == r.minY)
    && (exists p :: p in r.pixels && p.y == r.maxY)
  }

  function Widen(r: Region, p: Pixel): Region {
    Region(r.pixels + [p],
           if p.x < r.minX then p.x else r.minX, if p.x > r.maxX then p.x else r.maxX,
           if p.y < r.minY then p.y else r.minY, if p.y > r.maxY then p.y else r.maxY)
  }

  lemma FoundSeen(mask: seq<bool>, w: nat, h: nat, before: seq<bool>, now: seq<bool>, seed: Pixel, found: seq<Pixel>,
      q: Pixel)
    requires |mask| == |before| == |now| == w * h && Found(mask, w, h, before, now, seed, found) && At(now, w, h, q)
    ensures At(before, w, h, q) || q in found
  {
  }

  lemma UnvisitedMark(s: seq<bool>, i: nat)
    requires i < |s| && !s[i]
    ensures |Unvisited(s[i := true])| == |Unvisited(s)| - 1
  {
    assert Unvisited(s[i := true]) == Unvisited(s) - {i};
  }

  /** Pushes the unvisited foreground neighbours of a pixel on the queue and marks them. */
  method Expand(mask: seq<bool>, w: nat, h: nat, visited: array<bool>, p: Pixel, queue: seq<Pixel>,
                ghost before: seq<bool>, ghost seed: Pixel, ghost done: seq<Pixel>) returns (queue': seq<Pixel>)
    requires |mask| == |before| == visited.Length == w * h
    requires Found(mask, w, h, before, visited[..], seed, done + queue) && p in done
    requires forall q :: At(before, w, h, q) && At(mask, w, h, q) ==> !Adjacent(p, q)
    modifies visited
    ensures Found(mask, w, h, before, visited[..], seed, done + queue') && queue <= queue'
    ensures forall q :: At(mask, w, h, q) && Adjacent(p, q) ==> q in done + queue'
    ensures |Unvisited(visited[..])| + |queue'| == |Unvisited(old(visited[..]))| + |queue|
  {
    hide Found, Unvisited;
    queue' := queue;
    NeighboursAreAdjacent(p);
    for d := 0 to 4
      invariant Found(mask, w, h, before, visited[..], seed, done + queue') && queue <= queue'
      invariant forall k :: 0 <= k < d && At(mask, w, h, Neighbour(p, k)) ==> Neighbour(p, k) in done + queue'
      invariant |Unvisited(visited[..])| + |queue'| == |Unvisited(old(visited[..]))| + |queue|
    {
      var q := Neighbour(p, d);
      if InFrame(q, w, h) {
        IndexInRange(q, w, h);
        if visited[Index(q, w)] {
          FoundSeen(mask, w, h, before, visited[..], seed, done + queue', q);
        } else if mask[Index(q, w)] {
          FoundPush(mask, w, h, before, visited[..], seed, done + queue', p, q);
          ghost var now := visited[..];
          visited[Index(q, w)] := true;
          assert visited[..] == now[Index(q, w) := true];
          UnvisitedMark(now, Index(q, w));
          assert (done + queue') + [q] == done + (queue' + [q]);
          queue' := queue' + [q];
        }
      }
    }
  }

  /** New pixels never touch an old region. */
  lemma ApartFromBefore(mask: seq<bool>, w: nat, h: nat, before: seq<bool>, p: Pixel)
    requires |mask| == |before| == w * h && At(mask, w, h, p) && !At(before, w, h, p)
    requires Closed(mask, w, h, iset q | At(before, w, h, q))
    ensures forall q :: At(before, w, h, q) && At(mask, w, h, q) ==> !Adjacent(p, q)
  {
    var inside := iset q | At(before, w, h, q);
    forall q | At(before, w, h, q) && At(mask, w, h, q) ensures !Adjacent(p, q) {
      assert q in inside && (Adjacent(q, p) <==> Adjacent(p, q));
    }
  }

  lemma ExpandedNext(mask: seq<bool>, w: nat, h: nat, found: seq<Pixel>, more: seq<Pixel>, n: nat)
    requires |mask| == w * h && n < |found| && found <= more && Expanded(mask, w, h, found, n)
    requires forall q :: At(mask, w, h, q) && Adjacent(found[n], q) ==> q in more
    ensures Expanded(mask, w, h, more, n + 1)
  {
    forall i, q | 0 <= i < n + 1 && At(mask, w, h, q) && Adjacent(more[i], q) ensures q in more {
      if i < n { assert q in found; }
    }
  }

  /** Everything found is collected or waiting, and what is collected has been expanded. */
  ghost predicate Flooding(mask: seq<bool>, w: nat, h: nat, before: seq<bool>, now: seq<bool>, seed: Pixel, r: Region,
      queue: seq<Pixel>)
    requires |mask| == |before| == |now| == w * h
  {
    && Found(mask, w, h, before, now, seed, r.pixels + queue)
    && Expanded(mask, w, h, r.pixels + queue, |r.pixels|)
    && if r.pixels == [] then r == Region([], seed.x, seed.x, seed.y, seed.y) else ExactBox(r)
  }

  /** Collects the front of the queue and expands it. */
  method CollectFront(mask: seq<bool>, w: nat, h: nat, visited: array<bool>, r: Region, queue: seq<Pixel>,
                      ghost before: seq<bool>, ghost seed: Pixel) returns (r': Region, queue': seq<Pixel>)
    requires |mask| == |before| == visited.Length == w * h && queue != []
    requires Flooding(mask, w, h, before, visited[..], seed, r, queue)
    requires Closed(mask, w, h, iset p | At(before, w, h, p))
    modifies visited
    ensures Flooding(mask, w, h, before, visited[..], seed, r', queue')
    ensures |Unvisited(visited[..])| + |queue'| < |Unvisited(old(visited[..]))| + |queue|
  {
    var p := queue[0];
    FrontReady(mask, w, h, before, visited[..], seed, r, queue);
    r' := Widen(r, p);
    queue' := Expand(mask, w, h, visited, p, queue[1..], before, seed, r'.pixels);
    ExpandedNext(mask, w, h, r.pixels + queue, r'.pixels + queue', |r.pixels|);
  }

  lemma FrontReady(mask: seq<bool>, w: nat, h: nat, before: seq<bool>, now: seq<bool>, seed: Pixel, r: Region,
      queue: seq<Pixel>)
    requires |mask| == |before| == |now| == w * h && queue != []
    requires Flooding(mask, w, h, before, now, seed, r, queue)
    requires Closed(mask, w, h, iset p | At(before, w, h, p))
    ensures r.pixels + queue == Widen(r, queue[0]).pixels + queue[1..]
    ensures (r.pixels + queue)[|r.pixels|] == queue[0]
    ensures ExactBox(Widen(r, queue[0])) && queue[0] in Widen(r, queue[0]).pixels
    ensures forall q :: At(before, w, h, q) && At(mask, w, h, q) ==> !Adjacent(queue[0], q)
  {
    var p := queue[0];
    assert (r.pixels + queue)[|r.pixels|] == p;
    assert r.pixels == [] ==> (r.pixels + queue)[0] == p;
    ApartFromBefore(mask, w, h, before, p);
    WidenKeepsBox(r, p, seed);
  }

  /** The region of one seed: exactly the foreground pixels connected to it, each once, with
      their exact bounding box; everything in it is marked visited and nothing else changes. */
  method Flood(mask: seq<bool>, w: nat, h: nat, visited: array<bool>, seed: Pixel) returns (r: Region)
    requires |mask| == visited.Length == w * h
    requires At(mask, w, h, seed) && !At(visited[..], w, h, seed)
    requires Closed(mask, w, h, iset p | At(visited[..], w, h, p))
    modifies visited
    ensures IsRegion(mask, w, h, r) && r.pixels[0] == seed
    ensures forall p :: At(visited[..], w, h, p) <==> At(old(visited[..]), w, h, p) || p in r.pixels
    ensures Closed(mask, w, h, iset p | At(visited[..], w, h, p))
  {
    ghost var before := visited[..];
    r := Region([], seed.x, seed.x, seed.y, seed.y);
    var queue := [seed];
    AtAfterMark(before, w, h, seed);
    visited[Index(seed, w)] := true;
    assert visited[..] == before[Index(seed, w) := true];
    ConnectedSelf(mask, w, h, seed);
    while queue != []
      invariant Flooding(mask, w, h, before, visited[..], seed, r, queue)
      decreases |Unvisited(visited[..])| + |queue|
    {
      r, queue := CollectFront(mask, w, h, visited, r, queue, before, seed);
    }
    assert r.pixels + queue == r.pixels;
    RegionComplete(mask, w, h, before, visited[..], seed, r.pixels);
  }

  /** A maximal connected set of foreground pixels, listed once each, in its exact box. */
  ghost predicate IsRegion(mask: seq<bool>, w: nat, h: nat, r: Region)
    requires |mask| == w * h
  {
    && Distinct(r.pixels) && |r.pixels| > 0
    && (forall p :: p in r.pixels <==> Connected(mask, w, h, r.pixels[0], p))
    && ExactBox(r)
  }

  lemma WidenKeepsBox(r: Region, p: Pixel, seed: Pixel)
    requires if r.pixels == [] then r == Region([], seed.x, seed.x, seed.y, seed.y) && p == seed else ExactBox(r)
    ensures ExactBox(Widen(r, p))
  {
    var t := Widen(r, p);
    assert p in t.pixels;
    forall q | q in r.pixels ensures q in t.pixels {}
  }

  lemma RegionComplete(mask: seq<bool>, w: nat, h: nat, before: seq<bool>, now: seq<bool>, seed: Pixel,
      found: seq<Pixel>)
    requires |mask| == |before| == |now| == w * h
    requires Found(mask, w, h, before, now, seed, found) && Expanded(mask, w, h, found, |found|)
    requires Closed(mask, w, h, iset p | At(before, w, h, p))
    ensures forall p :: p in found <==> Connected(mask, w, h, seed, p)
    ensures Closed(mask, w, h, iset p | At(now, w, h, p))
  {
    var inside := iset p | p in found;
    assert Closed(mask, w, h, inside);
    forall p | Connected(mask, w, h, seed, p) ensures p in found {
      ClosedHoldsConnected(mask, w, h, inside, seed, p);
    }
  }

  // ----- scanning the whole mask

  ghost predicate Covered(rs: seq<Region>, p: Pixel) {
    exists i :: 0 <= i < |rs| && p in rs[i].pixels
  }

  ghost predicate Collected(mask: seq<bool>, w: nat, h: nat, now: seq<bool>, rs: seq<Region>)
    requires |mask| == |now| == w * h
  {
    && (forall i :: 0 <= i < |rs| ==> IsRegion(mask, w, h, rs[i]))
    && (forall i, j, p :: 0 <= i < j < |rs| && p in rs[i].pixels ==> p !in rs[j].pixels)
    && (forall p :: At(now, w, h, p) <==> Covered(rs, p))
    && Closed(mask, w, h, iset p | At(now, w, h, p))
  }

  lemma CollectedPush(mask: seq<bool>, w: nat, h: nat, before: seq<bool>, now: seq<bool>, rs: seq<Region>, r: Region)
    requires |mask| == |before| == |now| == w * h && Collected(mask, w, h, before, rs)
    requires IsRegion(mask, w, h, r) && !At(before, w, h, r.pixels[0])
    requires At(mask, w, h, r.pixels[0])
    requires forall p :: At(now, w, h, p) <==> At(before, w, h, p) || p in r.pixels
    requires Closed(mask, w, h, iset p | At(now, w, h, p))
    ensures Collected(mask, w, h, now, rs + [r])
  {
    hide Connected, IsRegion;
    CoveredPush(rs, r);
    FreshRegionApart(mask, w, h, before, rs, r);
    ApartPush(rs, r);
    forall i | 0 <= i < |rs + [r]| ensures IsRegion(mask, w, h, (rs + [r])[i]) {
    }
  }

  lemma ApartPush(rs: seq<Region>, r: Region)
    requires forall i, j, p :: 0 <= i < j < |rs| && p in rs[i].pixels ==> p !in rs[j].pixels
    requires forall i, p :: 0 <= i < |rs| && p in rs[i].pixels ==> p !in r.pixels
    ensures var all := rs + [r];
            forall i, j, p :: 0 <= i < j < |all| && p in all[i].pixels ==> p !in all[j].pixels
  {
  }

  lemma CoveredPush(rs: seq<Region>, r: Region)
    ensures forall p :: Covered(rs + [r], p) <==> Covered(rs, p) || p in r.pixels
  {
    var all := rs + [r];
    forall p ensures Covered(all, p) <==> Covered(rs, p) || p in r.pixels {
      if p in r.pixels { assert all[|rs|] == r; }
      if Covered(rs, p) {
        var i :| 0 <= i < |rs| && p in rs[i].pixels;
        assert all[i] == rs[i];
      }
    }
  }

  /** A region whose seed was not visited shares no pixel with the earlier ones. */
  lemma FreshRegionApart(mask: seq<bool>, w: nat, h: nat, before: seq<bool>, rs: seq<Region>, r: Region)
    requires |mask| == |before| == w * h && Collected(mask, w, h, before, rs)
    requires IsRegion(mask, w, h, r) && !At(before, w, h, r.pixels[0])
    ensures forall i, p :: 0 <= i < |rs| && p in rs[i].pixels ==> p !in r.pixels
  {
    var seen := iset p | At(before, w, h, p);
    forall i, p | 0 <= i < |rs| && p in rs[i].pixels ensures p !in r.pixels {
      assert Covered(rs, p) && p in seen;
      if p in r.pixels {
        ConnectedSymmetric(mask, w, h, r.pixels[0], p);
        ClosedHoldsConnected(mask, w, h, seen, p, r.pixels[0]);
      }
    }
  }

  /** Pixels before (x, y) in scan order. */
  predicate Before(p: Pixel, x: int, y: int) {
    p.y < y || (p.y == y && p.x < x)
  }

  /** Every foreground pixel before (x, y) has been visited. */
  ghost predicate Scanned(mask: seq<bool>, w: nat, h: nat, now: seq<bool>, x: int, y: int)
    requires |mask| == |now| == w * h
  {
    forall p :: At(mask, w, h, p) && Before(p, x, y) ==> At(now, w, h, p)
  }

  lemma ScannedNext(mask: seq<bool>, w: nat, h: nat, before: seq<bool>, now: seq<bool>, x: nat, y: nat)
    requires |mask| == |before| == |now| == w * h && Scanned(mask, w, h, before, x, y)
    requires forall p :: At(before, w, h, p) ==> At(now, w, h, p)
    requires At(mask, w, h, Pixel(x, y)) ==> At(now, w, h, Pixel(x, y))
    ensures Scanned(mask, w, h, now, x + 1, y)
  {
    forall p | At(mask, w, h, p) && Before(p, x + 1, y) ensures At(now, w, h, p) {
      assert p == Pixel(p.x, p.y);
      if Before(p, x, y) { assert At(before, w, h, p); }
    }
  }

  /** One scan position: a new region when its pixel is unvisited foreground. */
  method ScanPixel(mask: seq<bool>, w: nat, h: nat, visited: array<bool>, rs: seq<Region>, x: nat, y: nat)
    returns (rs': seq<Region>)
    requires |mask| == visited.Length == w * h && x < w && y < h
    requires Collected(mask, w, h, visited[..], rs) && Scanned(mask, w, h, visited[..], x, y)
    modifies visited
    ensures Collected(mask, w, h, visited[..], rs') && Scanned(mask, w, h, visited[..], x + 1, y)
    ensures var found := At(mask, w, h, Pixel(x, y)) && !At(old(visited[..]), w, h, Pixel(x, y));
            && rs <= rs' && |rs'| == |rs| + (if found then 1 else 0)
            && (found ==> rs'[|rs|].pixels[0] == Pixel(x, y))
            && (!found ==> visited[..] == old(visited[..]))
  {
    var seed := Pixel(x, y);
    rs' := rs;
    IndexInRange(seed, w, h);
    ghost var before := visited[..];
    if mask[Index(seed, w)] && !visited[Index(seed, w)] {
      var r := Flood(mask, w, h, visited, seed);
      CollectedPush(mask, w, h, before, visited[..], rs, r);
      rs' := rs + [r];
    }
    ScannedNext(mask, w, h, before, visited[..], x, y);
  }

  /** All regions of the mask: together they are exactly the foreground, no two share a
      pixel, and two pixels lie in the same region exactly when they are connected. */
  method ExtractRegions(mask: seq<bool>, w: nat, h: nat) returns (rs: seq<Region>)
    requires |mask| == w * h
    ensures forall i :: 0 <= i < |rs| ==> IsRegion(mask, w, h, rs[i])
    ensures forall i, j, p :: 0 <= i < j < |rs| && p in rs[i].pixels ==> p !in rs[j].pixels
    ensures forall p :: At(mask, w, h, p) <==> Covered(rs, p)
  {
    var visited := new bool[w * h](_ => false);
    rs := [];
    assert Collected(mask, w, h, visited[..], rs) by {
      forall p ensures !At(visited[..], w, h, p) {
        if InFrame(p, w, h) { IndexInRange(p, w, h); }
      }
    }
    for y := 0 to h
      invariant Collected(mask, w, h, visited[..], rs) && Scanned(mask, w, h, visited[..], 0, y)
    {
      for x := 0 to w
        invariant Collected(mask, w, h, visited[..], rs) && Scanned(mask, w, h, visited[..], x, y)
      {
        rs := ScanPixel(mask, w, h, visited, rs, x, y);
      }
      NextRow(mask, w, h, visited[..], y);
    }
    EverythingScanned(mask, w, h, visited[..]);
    OnlyForeground(mask, w, h, rs);
  }

  lemma NextRow(mask: seq<bool>, w: nat, h: nat, now: seq<bool>, y: int)
    requires |mask| == |now| == w * h && Scanned(mask, w, h, now, w, y)
    ensures Scanned(mask, w, h, now, 0, y + 1)
  {
  }

  lemma EverythingScanned(mask: seq<bool>, w: nat, h: nat, now: seq<bool>)
    requires |mask| == |now| == w * h && Scanned(mask, w, h, now, 0, h)
    ensures forall p :: At(mask, w, h, p) ==> At(now, w, h, p)
  {
  }

  lemma OnlyForeground(mask: seq<bool>, w: nat, h: nat, rs: seq<Region>)
    requires |mask| == w * h && forall i :: 0 <= i < |rs| ==> IsRegion(mask, w, h, rs[i])
    ensures forall p :: Covered(rs, p) ==> At(mask, w, h, p)
  {
    forall p | Covered(rs, p) ensures At(mask, w, h, p) {
      var i :| 0 <= i < |rs| && p in rs[i].pixels;
      var path :| |path| > 0 && path[0] == rs[i].pixels[0] && path[|path| - 1] == p && IsPath(mask, w, h, path);
    }
  }

  /** Two pixels lie in one region exactly when they are connected. */
  lemma SameRegionIffConnected(mask: seq<bool>, w: nat, h: nat, r: Region, p: Pixel, q: Pixel)
    requires |mask| == w * h && IsRegion(mask, w, h, r) && p in r.pixels
    ensures q in r.pixels <==> Connected(mask, w, h, p, q)
  {
    ConnectedSymmetric(mask, w, h, r.pixels[0], p);
    if q in r.pixels {
      ConnectedTransitive(mask, w, h, p, r.pixels[0], q);
    }
    if Connected(mask, w, h, p, q) {
      ConnectedTransitive(mask, w, h, r.pixels[0], p, q);
    }
  }
}
