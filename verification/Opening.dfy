/** Morphological opening of a mask by a 3x3 square, as the analyser does it in place: the
    border is cleared by both passes. */
module Opening {
  import opened Regions

  predicate Interior(p: Pixel, w: nat, h: nat) {
    1 <= p.x < w - 1 && 1 <= p.y < h - 1
  }

  /** The 3x3 square around a centre. */
  predicate InSquare(p: Pixel, c: Pixel) {
    -1 <= p.x - c.x <= 1 && -1 <= p.y - c.y <= 1
  }

  ghost predicate SquareSet(m: iset<Pixel>, c: Pixel) {
    forall p :: InSquare(p, c) ==> p in m
  }

  /** Interior centres whose whole square is set. */
  ghost function Eroded(m: iset<Pixel>, w: nat, h: nat): iset<Pixel> {
    iset c | Interior(c, w, h) && SquareSet(m, c)
  }

  ghost predicate Touched(m: iset<Pixel>, p: Pixel) {
    exists c :: c in m && InSquare(p, c)
  }

  /** Interior pixels in the square of some set pixel. */
  ghost function Dilated(m: iset<Pixel>, w: nat, h: nat): iset<Pixel> {
    iset p | Interior(p, w, h) && Touched(m, p)
  }

  ghost function Opened(m: iset<Pixel>, w: nat, h: nat): iset<Pixel> {
    Dilated(Eroded(m, w, h), w, h)
  }

  /** A pixel survives opening exactly when it is interior and lies in a 3x3 square around
      an interior centre that was entirely set. */
  lemma OpenedIff(m: iset<Pixel>, w: nat, h: nat, p: Pixel)
    ensures p in Opened(m, w, h) <==>
            Interior(p, w, h) && exists c :: Interior(c, w, h) && SquareSet(m, c) && InSquare(p, c)
  {
    if Interior(p, w, h) && exists c :: Interior(c, w, h) && SquareSet(m, c) && InSquare(p, c) {
      var c :| Interior(c, w, h) && SquareSet(m, c) && InSquare(p, c);
      assert c in Eroded(m, w, h);
    }
  }

  lemma OpenedIsSubset(m: iset<Pixel>, w: nat, h: nat)
    ensures Opened(m, w, h) <= m
  {
  }

  lemma OpenedIsMonotone(m: iset<Pixel>, n: iset<Pixel>, w: nat, h: nat)
    requires m <= n
    ensures Opened(m, w, h) <= Opened(n, w, h)
  {
    forall p | p in Opened(m, w, h) ensures p in Opened(n, w, h) {
      OpenedIff(m, w, h, p);
      var c :| Interior(c, w, h) && SquareSet(m, c) && InSquare(p, c);
      assert SquareSet(n, c);
      OpenedIff(n, w, h, p);
    }
  }

  ghost function BorderCleared(m: iset<Pixel>, w: nat, h: nat): iset<Pixel> {
    iset p | p in m && Interior(p, w, h)
  }

  /** With a clear border opening is idempotent. */
  lemma ClearBorderIsIdempotent(m: iset<Pixel>, w: nat, h: nat)
    requires forall p :: p in m ==> Interior(p, w, h)
    ensures Opened(Opened(m, w, h), w, h) == Opened(m, w, h)
  {
    var o := Opened(m, w, h);
    OpenedIsSubset(o, w, h);
    forall p | p in o ensures p in Opened(o, w, h) {
      OpenedIff(m, w, h, p);
      var c :| Interior(c, w, h) && SquareSet(m, c) && InSquare(p, c);
      forall q | InSquare(q, c) ensures q in o {
        assert q in m;
        OpenedIff(m, w, h, q);
      }
      assert SquareSet(o, c);
      OpenedIff(o, w, h, p);
    }
  }

  /** Opening twice is opening the mask with its border cleared, for every mask. */
  lemma OpenTwice(m: iset<Pixel>, w: nat, h: nat)
    ensures Opened(Opened(m, w, h), w, h) == Opened(BorderCleared(m, w, h), w, h)
  {
    var o, b := Opened(m, w, h), BorderCleared(m, w, h);
    OpenedIsSubset(m, w, h);
    assert o <= b;
    OpenedIsMonotone(o, b, w, h);
    assert b <= m;
    OpenedIsMonotone(b, m, w, h);
    ClearBorderIsIdempotent(b, w, h);
    OpenedIsMonotone(Opened(b, w, h), o, w, h);
  }

  /** At least two pixels away from the border. */
  predicate Deep(p: Pixel, w: nat, h: nat) {
    2 <= p.x < w - 2 && 2 <= p.y < h - 2
  }

  /** A square inside the cleared mask is a square of the mask around a deep centre. */
  lemma ClearedSquare(m: iset<Pixel>, w: nat, h: nat, c: Pixel)
    ensures SquareSet(BorderCleared(m, w, h), c) <==> SquareSet(m, c) && Deep(c, w, h)
  {
    var b := BorderCleared(m, w, h);
    if SquareSet(b, c) {
      assert InSquare(Pixel(c.x - 1, c.y - 1), c) && InSquare(Pixel(c.x + 1, c.y + 1), c);
      assert Interior(Pixel(c.x - 1, c.y - 1), w, h) && Interior(Pixel(c.x + 1, c.y + 1), w, h);
    }
  }

  /** Pixel `p` lies in a set square around a centre that is `deep`, or just interior. */
  ghost predicate Supported(m: iset<Pixel>, w: nat, h: nat, p: Pixel, deep: bool) {
    exists c :: (if deep then Deep(c, w, h) else Interior(c, w, h)) && SquareSet(m, c) && InSquare(p, c)
  }

  /** Every interior pixel in a set square around an interior centre also lies in one whose
      centre is two pixels away from the border. */
  ghost predicate WellSupported(m: iset<Pixel>, w: nat, h: nat) {
    forall p :: Interior(p, w, h) && Supported(m, w, h, p, false) ==> Supported(m, w, h, p, true)
  }

  lemma ClearedOpenedIff(m: iset<Pixel>, w: nat, h: nat, p: Pixel)
    ensures p in Opened(BorderCleared(m, w, h), w, h) <==> Interior(p, w, h) && Supported(m, w, h, p, true)
  {
    var b := BorderCleared(m, w, h);
    OpenedIff(b, w, h, p);
    if c :| Interior(c, w, h) && SquareSet(b, c) && InSquare(p, c) {
      ClearedSquare(m, w, h, c);
    }
    if c :| Deep(c, w, h) && SquareSet(m, c) && InSquare(p, c) {
      ClearedSquare(m, w, h, c);
      assert Interior(c, w, h);
    }
  }

  /** Opening is idempotent on a mask exactly when no opened pixel depends on squares that
      touch the border. */
  lemma IdempotentIff(m: iset<Pixel>, w: nat, h: nat)
    ensures Opened(Opened(m, w, h), w, h) == Opened(m, w, h) <==> WellSupported(m, w, h)
  {
    hide Opened, SquareSet;
    OpenTwice(m, w, h);
    var o, oo := Opened(m, w, h), Opened(Opened(m, w, h), w, h);
    OpenedIsSubset(o, w, h);
    forall p
      ensures p in o <==> Interior(p, w, h) && Supported(m, w, h, p, false)
      ensures p in oo <==> Interior(p, w, h) && Supported(m, w, h, p, true)
    {
      OpenedIff(m, w, h, p);
      ClearedOpenedIff(m, w, h, p);
    }
    if WellSupported(m, w, h) {
      assert forall p :: p in o ==> p in oo;
    }
  }

  /** After the second opening nothing changes any more. */
  lemma OpenThrice(m: iset<Pixel>, w: nat, h: nat)
    ensures Opened(Opened(Opened(m, w, h), w, h), w, h) == Opened(Opened(m, w, h), w, h)
  {
    var o := Opened(m, w, h);
    ClearBorderIsIdempotent(o, w, h);
  }

  /** A full 4x4 mask loses its remaining pixels at the second opening. */
  lemma FullSquareIsNotIdempotent()
    ensures var m := iset p: Pixel | InFrame(p, 4, 4);
            Pixel(1, 1) in Opened(m, 4, 4) && Opened(Opened(m, 4, 4), 4, 4) == iset{}
  {
    var m := iset p: Pixel | InFrame(p, 4, 4);
    assert SquareSet(m, Pixel(1, 1)) && InSquare(Pixel(1, 1), Pixel(1, 1));
    OpenedIff(m, 4, 4, Pixel(1, 1));
    var o := Opened(m, 4, 4);
    forall p ensures p !in Opened(o, 4, 4) {
      OpenedIff(o, 4, 4, p);
      forall c | Interior(c, 4, 4) ensures !SquareSet(o, c) {
        var corner := Pixel(if c.x == 1 then 0 else 3, c.y);
        assert InSquare(corner, c) && corner !in o;
      }
    }
  }

  // ----- the passes in place

  ghost function PixelsOf(s: seq<bool>, w: nat, h: nat): iset<Pixel>
    requires |s| == w * h
  {
    iset p | At(s, w, h, p)
  }

  /** Whether the whole square around an interior centre is set. */
  method AllAround(mask: array<bool>, w: nat, h: nat, c: Pixel) returns (all: bool)
    requires mask.Length == w * h && Interior(c, w, h)
    ensures all <==> SquareSet(PixelsOf(mask[..], w, h), c)
  {
    for dy := -1 to 2
      invariant forall p :: InSquare(p, c) && p.y < c.y + dy ==> At(mask[..], w, h, p)
    {
      for dx := -1 to 2
        invariant forall p :: InSquare(p, c) && (p.y < c.y + dy || (p.y == c.y + dy && p.x < c.x + dx)) ==>
                  At(mask[..], w, h, p)
      {
        var q := Pixel(c.x + dx, c.y + dy);
        IndexInRange(q, w, h);
        if !mask[Index(q, w)] {
          assert InSquare(q, c) && q !in PixelsOf(mask[..], w, h);
          return false;
        }
        assert forall p: Pixel :: p.y == c.y + dy && p.x == c.x + dx ==> p == q;
      }
    }
    return true;
  }

  /** Whether some pixel of the square around an interior centre is set. */
  method AnyAround(mask: array<bool>, w: nat, h: nat, c: Pixel) returns (any: bool)
    requires mask.Length == w * h && Interior(c, w, h)
    ensures any <==> Touched(PixelsOf(mask[..], w, h), c)
  {
    for dy := -1 to 2
      invariant forall p :: InSquare(p, c) && p.y < c.y + dy ==> !At(mask[..], w, h, p)
    {
      for dx := -1 to 2
        invariant forall p :: InSquare(p, c) && (p.y < c.y + dy || (p.y == c.y + dy && p.x < c.x + dx)) ==>
                  !At(mask[..], w, h, p)
      {
        var q := Pixel(c.x + dx, c.y + dy);
        IndexInRange(q, w, h);
        if mask[Index(q, w)] {
          assert q in PixelsOf(mask[..], w, h) && InSquare(c, q);
          return true;
        }
        assert forall p: Pixel :: p.y == c.y + dy && p.x == c.x + dx ==> p == q;
      }
    }
    forall q | q in PixelsOf(mask[..], w, h) ensures !InSquare(c, q) {
      assert InSquare(c, q) <==> InSquare(q, c);
    }
    return false;
  }

  /** `now` holds the pixels of `target` that precede (x, y) in scan order. */
  ghost predicate FilledUpTo(now: seq<bool>, w: nat, h: nat, target: iset<Pixel>, x: int, y: int)
    requires |now| == w * h
  {
    forall p :: At(now, w, h, p) <==> p in target && Before(p, x, y)
  }

  lemma FillNext(now: seq<bool>, w: nat, h: nat, target: iset<Pixel>, x: int, y: int, value: bool)
    requires |now| == w * h && FilledUpTo(now, w, h, target, x, y)
    requires InFrame(Pixel(x, y), w, h) && (value <==> Pixel(x, y) in target)
    ensures 0 <= Index(Pixel(x, y), w) < |now|
    ensures FilledUpTo(now[Index(Pixel(x, y), w) := value], w, h, target, x + 1, y)
  {
    var q := Pixel(x, y);
    IndexInRange(q, w, h);
    AtAfterMark(now, w, h, q);
    assert !At(now, w, h, q);
    var next := now[Index(q, w) := value];
    assert !value ==> next == now;
    forall p ensures At(next, w, h, p) <==> p in target && Before(p, x + 1, y) {
      assert p == q <==> p.x == x && p.y == y;
      assert At(now, w, h, p) <==> p in target && Before(p, x, y);
    }
  }

  method Clear(mask: array<bool>)
    modifies mask
    ensures forall i :: 0 <= i < mask.Length ==> !mask[i]
  {
    for i := 0 to mask.Length
      invariant forall j :: 0 <= j < i ==> !mask[j]
    {
      mask[i] := false;
    }
  }

  method Erode(fg: array<bool>, temp: array<bool>, w: nat, h: nat)
    requires fg != temp && fg.Length == temp.Length == w * h && w > 0
    modifies temp
    ensures PixelsOf(temp[..], w, h) == Eroded(PixelsOf(fg[..], w, h), w, h)
  {
    ghost var target := Eroded(PixelsOf(fg[..], w, h), w, h);
    Clear(temp);
    StartFilling(temp[..], w, h, target);
    var y := 1;
    while y < h - 1
      invariant 1 <= y && (y <= h - 1 || y == 1)
      invariant fg[..] == old(fg[..]) && FilledUpTo(temp[..], w, h, target, 1, y)
    {
      var x := 1;
      while x < w - 1
        invariant 1 <= x && (x <= w - 1 || x == 1)
        invariant fg[..] == old(fg[..]) && FilledUpTo(temp[..], w, h, target, x, y)
      {
        var c := Pixel(x, y);
        var all := AllAround(fg, w, h, c);
        FillNext(temp[..], w, h, target, x, y, all);
        ghost var now := temp[..];
        temp[Index(c, w)] := all;
        assert temp[..] == now[Index(c, w) := all];
        x := x + 1;
      }
      SkipToRow(temp[..], w, h, target, x, y);
      y := y + 1;
    }
    FinishFilling(temp[..], w, h, target, y);
  }

  lemma StartFilling(now: seq<bool>, w: nat, h: nat, target: iset<Pixel>)
    requires |now| == w * h && forall i :: 0 <= i < |now| ==> !now[i]
    requires forall p :: p in target ==> Interior(p, w, h)
    ensures FilledUpTo(now, w, h, target, 1, 1)
  {
    forall p ensures !At(now, w, h, p) {
      if InFrame(p, w, h) { IndexInRange(p, w, h); }
    }
  }

  lemma SkipToRow(now: seq<bool>, w: nat, h: nat, target: iset<Pixel>, x: int, y: int)
    requires |now| == w * h && FilledUpTo(now, w, h, target, x, y) && x >= w - 1
    requires forall p :: p in target ==> Interior(p, w, h)
    ensures FilledUpTo(now, w, h, target, 1, y + 1)
  {
  }

  lemma FinishFilling(now: seq<bool>, w: nat, h: nat, target: iset<Pixel>, y: int)
    requires |now| == w * h && FilledUpTo(now, w, h, target, 1, y) && y >= h - 1
    requires forall p :: p in target ==> Interior(p, w, h)
    ensures PixelsOf(now, w, h) == target
  {
  }

  method Dilate(temp: array<bool>, fg: array<bool>, w: nat, h: nat)
    requires fg != temp && fg.Length == temp.Length == w * h && w > 0
    modifies fg
    ensures PixelsOf(fg[..], w, h) == Dilated(PixelsOf(temp[..], w, h), w, h)
  {
    ghost var target := Dilated(PixelsOf(temp[..], w, h), w, h);
    Clear(fg);
    StartFilling(fg[..], w, h, target);
    var y := 1;
    while y < h - 1
      invariant 1 <= y && (y <= h - 1 || y == 1)
      invariant temp[..] == old(temp[..]) && FilledUpTo(fg[..], w, h, target, 1, y)
    {
      var x := 1;
      while x < w - 1
        invariant 1 <= x && (x <= w - 1 || x == 1)
        invariant temp[..] == old(temp[..]) && FilledUpTo(fg[..], w, h, target, x, y)
      {
        var c := Pixel(x, y);
        var any := AnyAround(temp, w, h, c);
        FillNext(fg[..], w, h, target, x, y, any);
        ghost var now := fg[..];
        fg[Index(c, w)] := any;
        assert fg[..] == now[Index(c, w) := any];
        x := x + 1;
      }
      SkipToRow(fg[..], w, h, target, x, y);
      y := y + 1;
    }
    FinishFilling(fg[..], w, h, target, y);
  }

  /** Opens the mask in place, with a scratch mask of the same size. */
  method MorphOpen(fg: array<bool>, temp: array<bool>, w: nat, h: nat)
    requires fg != temp && fg.Length == temp.Length == w * h && w > 0
    modifies fg, temp
    ensures PixelsOf(fg[..], w, h) == Opened(old(PixelsOf(fg[..], w, h)), w, h)
  {
    Erode(fg, temp, w, h);
    Dilate(temp, fg, w, h);
  }
}
