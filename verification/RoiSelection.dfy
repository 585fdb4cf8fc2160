/** Choosing region boxes for a frame: boxes of moving objects with their plate boxes, then
    sign boxes picked greedily under an area budget, then boxes of text regions.  Tests on
    floating-point scores enter as one verdict per candidate. */
module RoiSelection {
  import opened Basics
  import opened Sums

  const SCALE: nat := 4
  const MAX_OBJECTS: nat := 64

  datatype Kind = Mover | Plate | Text

  datatype Box = Box(x: int, y: int, w: int, h: int, kind: Kind)

  // ----- overlap of two boxes

  function Intersection(a: Box, b: Box): int {
    Max(0, Min(a.x + a.w, b.x + b.w) - Max(a.x, b.x)) * Max(0, Min(a.y + a.h, b.y + b.h) - Max(a.y, b.y))
  }

  function Size(a: Box): int {
    Max(0, a.w) * Max(0, a.h)
  }

  /** Intersection over union exceeds `percent` hundredths. */
  predicate OverlapExceeds(a: Box, b: Box, percent: int) {
    var shared := Intersection(a, b);
    var union := Size(a) + Size(b) - shared;
    union > 0 && 100 * shared > percent * union
  }

  lemma OverlapSymmetric(a: Box, b: Box, percent: int)
    ensures OverlapExceeds(a, b, percent) <==> OverlapExceeds(b, a, percent)
  {
    assert Intersection(a, b) == Intersection(b, a);
  }

  predicate Clashes(objects: seq<Box>, box: Box) {
    exists i :: 0 <= i < |objects| && OverlapExceeds(box, objects[i], 28)
  }

  predicate Duplicates(objects: seq<Box>, box: Box) {
    exists i :: 0 <= i < |objects| && objects[i].kind == Text && OverlapExceeds(box, objects[i], 18)
  }

  // ----- candidates

  /** Trimmed extent of a moving region on the reduced grid. */
  datatype Extent = Extent(minX: int, maxX: int, minY: int, maxY: int, plausible: bool)

  datatype Sign = Sign(x: int, y: int, w: int, h: int, kind: int)

  predicate OnGrid(e: Extent, width: int, height: int) {
    0 <= e.minX <= e.maxX < Max(1, width / SCALE) && 0 <= e.minY <= e.maxY < Max(1, height / SCALE)
  }

  function MoverBox(e: Extent, width: int, height: int): Box {
    var x, y := Max(0, e.minX * SCALE), Max(0, e.minY * SCALE);
    Box(x, y, Min(width - x, (e.maxX - e.minX + 1) * SCALE), Min(height - y, (e.maxY - e.minY + 1) * SCALE), Mover)
  }

  function PlateBox(b: Box, height: int): Box {
    var w, h := Max(20, b.w * 65 / 100), Max(14, b.h * 28 / 100);
    Box(Max(0, b.x + (b.w - w) / 2), Min(height - h, b.y + Max(b.h * 52 / 100, b.h - h - 4)), w, h, Plate)
  }

  function AdmitMover(objects: seq<Box>, e: Extent, width: int, height: int): seq<Box> {
    if !e.plausible || e.maxX - e.minX + 1 < 3 || e.maxY - e.minY + 1 < 3 || |objects| >= MAX_OBJECTS then objects
    else
      var box := MoverBox(e, width, height);
      if box.w >= 28 && box.h >= 20 && |objects| + 1 < MAX_OBJECTS
      then objects + [box, PlateBox(box, height)] else objects + [box]
  }

  function SignBox(s: Sign, width: int, height: int): Box {
    var x, y := Max(0, (s.x - 1) * SCALE), Max(0, (s.y - 2) * SCALE);
    Box(x, y, Min(width - x, (s.w + 2) * SCALE), Min(height - y, (s.h + 4) * SCALE), Text)
  }

  function TextBox(e: Extent, width: int, height: int): Box {
    var x, y := Max(0, e.minX * SCALE), Max(0, e.minY * SCALE);
    Box(x, y, Min(width - x, (e.maxX - e.minX + 1) * SCALE), Min(height - y, (e.maxY - e.minY + 1) * SCALE), Text)
  }

  function Budget(width: int, height: int): int {
    Max(Max(1, width * height * 15 / 1000), Min(width * height / 12, 8192))
  }

  /** The selection in progress: all boxes, how many text boxes were added, and their area. */
  datatype Selection = Selection(objects: seq<Box>, added: nat, used: int)

  function AddText(s: Selection, box: Box): Selection {
    Selection(s.objects + [box], s.added + 1, s.used + box.w * box.h)
  }

  function AdmitSign(s: Selection, sign: Sign, width: int, height: int): Selection {
    var box := SignBox(sign, width, height);
    if |s.objects| >= MAX_OBJECTS || s.added >= 4
       || box.w < 24 || box.h < (if sign.kind == 1 then 64 else 28)
       || s.used + box.w * box.h > Budget(width, height)
       || Clashes(s.objects, box) || Duplicates(s.objects, box)
    then s else AddText(s, box)
  }

  function AdmitText(s: Selection, e: Extent, width: int, height: int): Selection {
    var box := TextBox(e, width, height);
    if |s.objects| >= MAX_OBJECTS || s.added >= 8
       || box.w < 24 || box.h < 28 || !e.plausible
       || box.h > Max(120, height / 3) || box.w > Max(180, width / 5)
       || Max(1, box.w * box.h) > Max(1, width * height) / 45
       || s.used + box.w * box.h > Budget(width, height)
       || Clashes(s.objects, box)
    then s else AddText(s, box)
  }

  function Movers(es: seq<Extent>, width: int, height: int): seq<Box> {
    if es == [] then [] else AdmitMover(Movers(es[..|es| - 1], width, height), es[|es| - 1], width, height)
  }

  function Signs(s: Selection, signs: seq<Sign>, width: int, height: int): Selection {
    if signs == [] then s
    else AdmitSign(Signs(s, signs[..|signs| - 1], width, height), signs[|signs| - 1], width, height)
  }

  function Texts(s: Selection, es: seq<Extent>, width: int, height: int): Selection {
    if es == [] then s else AdmitText(Texts(s, es[..|es| - 1], width, height), es[|es| - 1], width, height)
  }

  function Select(movers: seq<Extent>, signs: seq<Sign>, texts: seq<Extent>, width: int, height: int): Selection {
    Texts(Signs(Selection(Movers(movers, width, height), 0, 0), signs, width, height), texts, width, height)
  }

  // ----- what every selection keeps

  predicate InFrame(b: Box, width: int, height: int) {
    0 <= b.x && 0 <= b.y && b.w > 0 && b.h > 0 && b.x + b.w <= width && b.y + b.h <= height
  }

  function TextW(): Box -> int {
    (b: Box) => if b.kind == Text then 1 else 0
  }

  function TextArea(): Box -> int {
    (b: Box) => if b.kind == Text then b.w * b.h else 0
  }

  ghost predicate Apart(objects: seq<Box>) {
    forall i, j :: 0 <= i < j < |objects| && objects[j].kind == Text ==> !OverlapExceeds(objects[j], objects[i], 28)
  }

  ghost predicate TextsLast(objects: seq<Box>) {
    forall i, j :: 0 <= i < j < |objects| && objects[i].kind == Text ==> objects[j].kind == Text
  }

  /** Whatever the order, two boxes of which one is a text box overlap by at most 28 percent. */
  ghost predicate PairsApart(objects: seq<Box>) {
    forall i, j :: 0 <= i < |objects| && 0 <= j < |objects| && i != j && objects[i].kind == Text ==>
                     !OverlapExceeds(objects[i], objects[j], 28) && !OverlapExceeds(objects[j], objects[i], 28)
  }

  lemma ApartInPairs(objects: seq<Box>)
    requires Apart(objects) && TextsLast(objects)
    ensures PairsApart(objects)
  {
    hide OverlapExceeds;
    forall i, j | 0 <= i < |objects| && 0 <= j < |objects| && i != j && objects[i].kind == Text
      ensures !OverlapExceeds(objects[i], objects[j], 28) && !OverlapExceeds(objects[j], objects[i], 28)
    {
      OverlapSymmetric(objects[i], objects[j], 28);
    }
  }

  /** Text boxes overlap each other by at most 18 percent. */
  ghost predicate NoDuplicates(objects: seq<Box>) {
    forall i, j :: 0 <= i < j < |objects| && objects[i].kind == Text == objects[j].kind ==>
        !OverlapExceeds(objects[j], objects[i], 18)
  }

  ghost predicate Good(s: Selection, width: int, height: int) {
    && (forall i :: 0 <= i < |s.objects| ==> InFrame(s.objects[i], width, height))
    && (forall i :: 0 <= i < |s.objects| && s.objects[i].kind == Text ==> s.objects[i].w >= 24 && s.objects[i].h >= 28)
    && |s.objects| <= MAX_OBJECTS
    && s.added == Sum(s.objects, TextW()) && s.added <= 8
    && s.used == Sum(s.objects, TextArea()) <= Budget(width, height)
    && Apart(s.objects) && TextsLast(s.objects)
  }

  lemma MoverInFrame(e: Extent, width: int, height: int)
    requires OnGrid(e, width, height) && e.maxX - e.minX + 1 >= 3 && e.maxY - e.minY + 1 >= 3
    ensures InFrame(MoverBox(e, width, height), width, height)
  {
  }

  lemma PlateInFrame(b: Box, width: int, height: int)
    requires InFrame(b, width, height) && b.w >= 28 && b.h >= 20
    ensures InFrame(PlateBox(b, height), width, height)
    ensures var p := PlateBox(b, height);
            b.x <= p.x && p.x + p.w <= b.x + b.w
  {
  }

  lemma NoTextYet(objects: seq<Box>)
    requires forall i :: 0 <= i < |objects| ==> objects[i].kind != Text
    ensures Sum(objects, TextW()) == 0 && Sum(objects, TextArea()) == 0
  {
    SumConst(objects, TextW(), 0);
    SumConst(objects, TextArea(), 0);
  }

  lemma {:induction false} MoversGood(es: seq<Extent>, width: int, height: int)
    requires forall i :: 0 <= i < |es| ==> OnGrid(es[i], width, height)
    ensures var objects := Movers(es, width, height);
            && |objects| <= MAX_OBJECTS
            && forall i :: 0 <= i < |objects| ==> InFrame(objects[i], width, height) && objects[i].kind != Text
    decreases |es|
  {
    if es != [] {
      var n := |es| - 1;
      MoversGood(es[..n], width, height);
      var e := es[n];
      if e.maxX - e.minX + 1 >= 3 && e.maxY - e.minY + 1 >= 3 {
        MoverInFrame(e, width, height);
        var box := MoverBox(e, width, height);
        if box.w >= 28 && box.h >= 20 { PlateInFrame(box, width, height); }
      }
    }
  }

  lemma AddTextGood(s: Selection, box: Box, width: int, height: int)
    requires Good(s, width, height) && InFrame(box, width, height) && box.kind == Text && box.w >= 24 && box.h >= 28
    requires |s.objects| < MAX_OBJECTS && s.added < 8 && s.used + box.w * box.h <= Budget(width, height)
    requires !Clashes(s.objects, box)
    ensures Good(AddText(s, box), width, height)
  {
    SumAppend(s.objects, box, TextW());
    SumAppend(s.objects, box, TextArea());
  }

  lemma {:induction false} SignsGood(s: Selection, signs: seq<Sign>, width: int, height: int)
    requires Good(s, width, height) && s.added == 0 && NoDuplicates(s.objects)
    ensures Good(Signs(s, signs, width, height), width, height) && Signs(s, signs, width, height).added <= 4
    ensures NoDuplicates(Signs(s, signs, width, height).objects)
    decreases |signs|
  {
    if signs != [] {
      var n := |signs| - 1;
      SignsGood(s, signs[..n], width, height);
      var before := Signs(s, signs[..n], width, height);
      if AdmitSign(before, signs[n], width, height) != before {
        AddTextGood(before, SignBox(signs[n], width, height), width, height);
      }
    }
  }

  lemma {:induction false} TextsGood(s: Selection, es: seq<Extent>, width: int, height: int)
    requires Good(s, width, height)
    ensures Good(Texts(s, es, width, height), width, height)
    decreases |es|
  {
    if es != [] {
      var n := |es| - 1;
      TextsGood(s, es[..n], width, height);
      var before := Texts(s, es[..n], width, height);
      if AdmitText(before, es[n], width, height) != before {
        AddTextGood(before, TextBox(es[n], width, height), width, height);
      }
    }
  }

  /** After all passes, for every list of candidates: the boxes lie in the frame, there are at
      most 64 of them, at most 8 text boxes whose total area stays within the budget, each at
      least 24 by 28 pixels, and no text box overlaps any other box by more than 28 percent. */
  lemma SelectionTheorem(movers: seq<Extent>, signs: seq<Sign>, texts: seq<Extent>, width: int, height: int)
    requires forall i :: 0 <= i < |movers| ==> OnGrid(movers[i], width, height)
    ensures Good(Select(movers, signs, texts, width, height), width, height)
    ensures PairsApart(Select(movers, signs, texts, width, height).objects)
  {
    MoversGood(movers, width, height);
    var start := Selection(Movers(movers, width, height), 0, 0);
    NoTextYet(start.objects);
    SignsGood(start, signs, width, height);
    TextsGood(Signs(start, signs, width, height), texts, width, height);
    ApartInPairs(Select(movers, signs, texts, width, height).objects);
  }

  // ----- what the boxes cover

  /** A box covers `n` cells of the reduced grid from cell `c` on, as far as the frame goes. */
  predicate CoversCells(at: int, length: int, limit: int, c: int, n: int) {
    forall p :: 0 <= p < limit ==> (at <= p < at + length <==> c <= p / SCALE < c + n)
  }

  lemma CellsCovered(limit: int, c: int, n: int)
    requires c >= 0
    ensures CoversCells(c * SCALE, Min(limit - c * SCALE, n * SCALE), limit, c, n)
  {
  }

  /** The box of a mover and that of a text region cover exactly the cells of its extent, from the
      edge of the frame on; that of a sign one cell more to the left and right and two more above
      and below. */
  lemma BoxesCover(e: Extent, s: Sign, width: int, height: int)
    ensures var b := MoverBox(e, width, height);
            && b.kind == Mover
            && CoversCells(b.x, b.w, width, Max(0, e.minX), e.maxX - e.minX + 1)
            && CoversCells(b.y, b.h, height, Max(0, e.minY), e.maxY - e.minY + 1)
    ensures var b := TextBox(e, width, height);
            && b.kind == Text
            && CoversCells(b.x, b.w, width, Max(0, e.minX), e.maxX - e.minX + 1)
            && CoversCells(b.y, b.h, height, Max(0, e.minY), e.maxY - e.minY + 1)
    ensures var b := SignBox(s, width, height);
            && b.kind == Text
            && CoversCells(b.x, b.w, width, Max(0, s.x - 1), s.w + 2)
            && CoversCells(b.y, b.h, height, Max(0, s.y - 2), s.h + 4)
  {
    hide CoversCells;
    CellsCovered(width, Max(0, e.minX), e.maxX - e.minX + 1);
    CellsCovered(height, Max(0, e.minY), e.maxY - e.minY + 1);
    CellsCovered(width, Max(0, s.x - 1), s.w + 2);
    CellsCovered(height, Max(0, s.y - 2), s.h + 4);
  }

  /** A plate box has 65 percent of its mover's width and 28 percent of its height, but at least 20
      by 14 pixels, is centred, and starts in the lower half, four pixels above the lower edge of
      the mover at the most, unless the frame ends before. */
  lemma PlateGeometry(b: Box, height: int)
    requires b.w > 0 && b.h > 0
    ensures var p := PlateBox(b, height);
            && p.kind == Plate
            && (if 65 * b.w < 2100 then p.w == 20 else 100 * p.w <= 65 * b.w < 100 * (p.w + 1))
            && (if 28 * b.h < 1500 then p.h == 14 else 100 * p.h <= 28 * b.h < 100 * (p.h + 1))
            && (b.x >= 0 && b.w >= p.w ==> 2 * b.x + b.w - 1 <= 2 * p.x + p.w <= 2 * b.x + b.w)
            && var down := p.y - b.y;
            && p.y + p.h <= height
            && (p.y + p.h < height ==> 100 * (down + 1) > 52 * b.h && down >= b.h - p.h - 4)
            && (100 * down <= 52 * b.h || down <= b.h - p.h - 4)
  {
  }

  // ----- overlap counts shared pixels

  predicate Inside(p: int, at: int, n: int) {
    at <= p < at + n
  }

  /** The positions of a range. */
  function Span(at: int, n: int): set<int> {
    set p | at <= p < at + n && Inside(p, at, n)
  }

  lemma {:induction false} SpanSize(at: int, n: int)
    ensures |Span(at, n)| == Max(0, n)
    decreases n
  {
    if n > 0 {
      SpanSize(at, n - 1);
      assert Inside(at + n - 1, at, n);
      forall p | p in Span(at, n - 1) ensures p in Span(at, n) { assert Inside(p, at, n); }
      forall p | p in Span(at, n) && p != at + n - 1 ensures p in Span(at, n - 1) { assert Inside(p, at, n - 1); }
      assert Span(at, n) == Span(at, n - 1) + {at + n - 1};
    } else {
      assert Span(at, n) == {};
    }
  }

  lemma SharedSize(a: int, n: int, b: int, m: int)
    ensures |Span(a, n) * Span(b, m)| == Max(0, Min(a + n, b + m) - Max(a, b))
  {
    var lo, length := Max(a, b), Min(a + n, b + m) - Max(a, b);
    SpanSize(lo, length);
    forall p | p in Span(lo, length) ensures p in Span(a, n) * Span(b, m) {
      assert Inside(p, a, n) && Inside(p, b, m);
    }
    forall p | p in Span(a, n) * Span(b, m) ensures p in Span(lo, length) { assert Inside(p, lo, length); }
    assert Span(lo, length) == Span(a, n) * Span(b, m);
  }

  /** The overlap test compares the pixels two boxes share with those of their union. */
  lemma OverlapIsShared(a: Box, b: Box, percent: int)
    ensures var shared := |Span(a.x, a.w) * Span(b.x, b.w)| * |Span(a.y, a.h) * Span(b.y, b.h)|;
            var union := |Span(a.x, a.w)| * |Span(a.y, a.h)| + |Span(b.x, b.w)| * |Span(b.y, b.h)| - shared;
            OverlapExceeds(a, b, percent) <==> union > 0 && 100 * shared > percent * union
  {
    hide Span;
    SharedSize(a.x, a.w, b.x, b.w);
    SharedSize(a.y, a.h, b.y, b.h);
    SpanSize(a.x, a.w);
    SpanSize(a.y, a.h);
    SpanSize(b.x, b.w);
    SpanSize(b.y, b.h);
  }

  // ----- who is taken, in turn

  /** Area left for text boxes: 1.5 percent of the frame, at least a twelfth of it up to 8192. */
  predicate OverBudget(objects: seq<Box>, box: Box, width: int, height: int) {
    var budget := Max(Max(1, width * height * 15 / 1000), Min(width * height / 12, 8192));
    Sum(objects, TextArea()) + box.w * box.h > budget
  }

  ghost predicate OverlapsBy(objects: seq<Box>, box: Box, percent: int, onlyText: bool) {
    exists i :: 0 <= i < |objects| && (onlyText ==> objects[i].kind == Text) && OverlapExceeds(box, objects[i], percent)
  }

  /** A sign is big enough; nothing keeps it out of a list of objects. */
  predicate SignFits(sign: Sign, box: Box) {
    box.w >= 24 && box.h >= if sign.kind == 1 then 64 else 28
  }

  ghost predicate SignBlocked(objects: seq<Box>, box: Box, width: int, height: int) {
    || |objects| >= 64
    || Sum(objects, TextW()) >= 4
    || OverBudget(objects, box, width, height)
    || OverlapsBy(objects, box, 28, false)
    || OverlapsBy(objects, box, 18, true)
  }

  /** A text region is plausible, big enough, and not too big for the frame. */
  predicate TextFits(e: Extent, box: Box, width: int, height: int) {
    && e.plausible && box.w >= 24 && box.h >= 28
    && (box.h <= 120 || box.h <= height / 3) && (box.w <= 180 || box.w <= width / 5)
    && Max(1, box.w * box.h) <= Max(1, width * height) / 45
  }

  ghost predicate TextBlocked(objects: seq<Box>, box: Box, width: int, height: int) {
    || |objects| >= 64
    || Sum(objects, TextW()) >= 8
    || OverBudget(objects, box, width, height)
    || OverlapsBy(objects, box, 28, false)
  }

  ghost function SignTaken(objects: seq<Box>, sign: Sign, width: int, height: int): seq<Box> {
    var box := SignBox(sign, width, height);
    if SignFits(sign, box) && !SignBlocked(objects, box, width, height) then [box] else []
  }

  ghost function TextTaken(objects: seq<Box>, e: Extent, width: int, height: int): seq<Box> {
    var box := TextBox(e, width, height);
    if TextFits(e, box, width, height) && !TextBlocked(objects, box, width, height) then [box] else []
  }

  /** A plausible mover of at least three by three cells gets its box while there is room, and a
      plate box when it is 28 by 20 pixels and there is room for that, too. */
  ghost function MoverTaken(objects: seq<Box>, e: Extent, width: int, height: int): seq<Box> {
    var box := MoverBox(e, width, height);
    if !e.plausible || e.maxX - e.minX < 2 || e.maxY - e.minY < 2 || |objects| >= 64 then []
    else [box] + if box.w >= 28 && box.h >= 20 && |objects| < 63 then [PlateBox(box, height)] else []
  }

  /** Each pass goes through its candidates in order and adds what is taken in turn. */
  ghost predicate MoversInTurn(chain: seq<seq<Box>>, es: seq<Extent>, width: int, height: int) {
    && |chain| == |es| + 1 && chain[0] == []
    && forall i :: 0 <= i < |es| ==> chain[i + 1] == chain[i] + MoverTaken(chain[i], es[i], width, height)
  }

  ghost predicate SignsInTurn(chain: seq<seq<Box>>, signs: seq<Sign>, start: seq<Box>, width: int, height: int) {
    && |chain| == |signs| + 1 && chain[0] == start
    && forall i :: 0 <= i < |signs| ==> chain[i + 1] == chain[i] + SignTaken(chain[i], signs[i], width, height)
  }

  ghost predicate TextsInTurn(chain: seq<seq<Box>>, es: seq<Extent>, start: seq<Box>, width: int, height: int) {
    && |chain| == |es| + 1 && chain[0] == start
    && forall i :: 0 <= i < |es| ==> chain[i + 1] == chain[i] + TextTaken(chain[i], es[i], width, height)
  }

  /** The objects are those taken in turn: movers with their plates, then signs, then text regions. */
  ghost predicate ChosenInTurn(
      movers: seq<Extent>, signs: seq<Sign>, texts: seq<Extent>, width: int, height: int, objects: seq<Box>)
  {
    exists ms, ss, ts ::
      && MoversInTurn(ms, movers, width, height)
      && SignsInTurn(ss, signs, ms[|movers|], width, height)
      && TextsInTurn(ts, texts, ss[|signs|], width, height)
      && objects == ts[|texts|]
  }

  /** The counters of a selection are those of its objects. */
  ghost predicate Counted(s: Selection) {
    s.added == Sum(s.objects, TextW()) && s.used == Sum(s.objects, TextArea())
  }

  lemma SignTurn(s: Selection, sign: Sign, width: int, height: int)
    requires Counted(s)
    ensures var t := AdmitSign(s, sign, width, height);
            Counted(t) && t.objects == s.objects + SignTaken(s.objects, sign, width, height)
  {
    hide OverlapExceeds, Sum;
    var box := SignBox(sign, width, height);
    assert OverlapsBy(s.objects, box, 28, false) <==> Clashes(s.objects, box);
    assert OverlapsBy(s.objects, box, 18, true) <==> Duplicates(s.objects, box);
    SumAppend(s.objects, box, TextW());
    SumAppend(s.objects, box, TextArea());
  }

  lemma TextTurn(s: Selection, e: Extent, width: int, height: int)
    requires Counted(s)
    ensures var t := AdmitText(s, e, width, height);
            Counted(t) && t.objects == s.objects + TextTaken(s.objects, e, width, height)
  {
    hide OverlapExceeds, Sum;
    var box := TextBox(e, width, height);
    assert OverlapsBy(s.objects, box, 28, false) <==> Clashes(s.objects, box);
    SumAppend(s.objects, box, TextW());
    SumAppend(s.objects, box, TextArea());
  }

  lemma {:induction false} MoversChain(es: seq<Extent>, width: int, height: int) returns (chain: seq<seq<Box>>)
    ensures MoversInTurn(chain, es, width, height) && chain[|es|] == Movers(es, width, height)
  {
    if es == [] {
      chain := [[]];
    } else {
      hide MoverBox, PlateBox;
      var n := |es| - 1;
      var before := MoversChain(es[..n], width, height);
      chain := before + [Movers(es, width, height)];
      forall i | 0 <= i < |es| ensures chain[i + 1] == chain[i] + MoverTaken(chain[i], es[i], width, height) {
        if i < n { assert es[..n][i] == es[i]; }
      }
    }
  }

  lemma {:induction false} SignsChain(s: Selection, signs: seq<Sign>, width: int, height: int)
    returns (chain: seq<seq<Box>>)
    requires Counted(s)
    ensures SignsInTurn(chain, signs, s.objects, width, height)
    ensures chain[|signs|] == Signs(s, signs, width, height).objects && Counted(Signs(s, signs, width, height))
  {
    hide AdmitSign, SignTaken, Counted;
    if signs == [] {
      chain := [s.objects];
    } else {
      var n := |signs| - 1;
      var before := SignsChain(s, signs[..n], width, height);
      SignTurn(Signs(s, signs[..n], width, height), signs[n], width, height);
      chain := before + [Signs(s, signs, width, height).objects];
      forall i | 0 <= i < |signs| ensures chain[i + 1] == chain[i] + SignTaken(chain[i], signs[i], width, height) {
        if i < n { assert signs[..n][i] == signs[i] && chain[i] == before[i] && chain[i + 1] == before[i + 1]; }
      }
    }
  }

  lemma {:induction false} TextsChain(s: Selection, es: seq<Extent>, width: int, height: int)
    returns (chain: seq<seq<Box>>)
    requires Counted(s)
    ensures TextsInTurn(chain, es, s.objects, width, height)
    ensures chain[|es|] == Texts(s, es, width, height).objects && Counted(Texts(s, es, width, height))
  {
    hide AdmitText, TextTaken, Counted;
    if es == [] {
      chain := [s.objects];
    } else {
      var n := |es| - 1;
      var before := TextsChain(s, es[..n], width, height);
      TextTurn(Texts(s, es[..n], width, height), es[n], width, height);
      chain := before + [Texts(s, es, width, height).objects];
      forall i | 0 <= i < |es| ensures chain[i + 1] == chain[i] + TextTaken(chain[i], es[i], width, height) {
        if i < n { assert es[..n][i] == es[i] && chain[i] == before[i] && chain[i + 1] == before[i + 1]; }
      }
    }
  }

  /** The selection is exactly what the passes take in turn. */
  lemma TurnTheorem(movers: seq<Extent>, signs: seq<Sign>, texts: seq<Extent>, width: int, height: int)
    requires forall i :: 0 <= i < |movers| ==> OnGrid(movers[i], width, height)
    ensures ChosenInTurn(movers, signs, texts, width, height, Select(movers, signs, texts, width, height).objects)
  {
    hide Signs, Texts, Movers, MoversInTurn, SignsInTurn, TextsInTurn;
    MoversGood(movers, width, height);
    var start := Selection(Movers(movers, width, height), 0, 0);
    NoTextYet(start.objects);
    var ms := MoversChain(movers, width, height);
    var ss := SignsChain(start, signs, width, height);
    var ts := TextsChain(Signs(start, signs, width, height), texts, width, height);
  }

  // ----- the selection is maximal

  lemma {:induction false} Grows(chain: seq<seq<Box>>, i: nat, j: nat)
    requires i <= j < |chain| && forall k :: 0 <= k < |chain| - 1 ==> chain[k] <= chain[k + 1]
    ensures chain[i] <= chain[j]
    decreases j
  {
    if i < j { Grows(chain, i, j - 1); }
  }

  lemma {:induction false} TextGrows(objects: seq<Box>, more: seq<Box>)
    requires objects <= more && forall i :: 0 <= i < |more| ==> more[i].w > 0 && more[i].h > 0
    ensures Sum(objects, TextW()) <= Sum(more, TextW()) && Sum(objects, TextArea()) <= Sum(more, TextArea())
    decreases |more|
  {
    if |objects| < |more| {
      var n := |more| - 1;
      TextGrows(objects, more[..n]);
      AreaPositive(more[n].w, more[n].h);
    } else {
      assert objects == more;
    }
  }

  lemma AreaPositive(w: int, h: int)
    requires w > 0 && h > 0
    ensures w * h > 0
  {
  }

  lemma OverlapStays(objects: seq<Box>, more: seq<Box>, box: Box, percent: int, onlyText: bool)
    requires objects <= more && OverlapsBy(objects, box, percent, onlyText)
    ensures OverlapsBy(more, box, percent, onlyText)
  {
    var i :| 0 <= i < |objects| && (onlyText ==> objects[i].kind == Text) && OverlapExceeds(box, objects[i], percent);
    assert more[i] == objects[i];
  }

  /** What keeps a sign or a text region out keeps it out as the selection grows. */
  lemma BlockedStays(objects: seq<Box>, more: seq<Box>, box: Box, width: int, height: int)
    requires objects <= more && forall i :: 0 <= i < |more| ==> more[i].w > 0 && more[i].h > 0
    ensures SignBlocked(objects, box, width, height) ==> SignBlocked(more, box, width, height)
    ensures TextBlocked(objects, box, width, height) ==> TextBlocked(more, box, width, height)
  {
    hide OverlapsBy, Sum;
    TextGrows(objects, more);
    if OverlapsBy(objects, box, 28, false) { OverlapStays(objects, more, box, 28, false); }
    if OverlapsBy(objects, box, 18, true) { OverlapStays(objects, more, box, 18, true); }
  }

  /** The greedy choice is maximal: after all passes each sign and each text region of the frame
      has its box among the objects, is too small or too big or implausible, or is blocked by the
      objects: they are 64, there are enough text boxes, the area budget would be exceeded, or its
      box overlaps another. */
  lemma MaximalTheorem(movers: seq<Extent>, signs: seq<Sign>, texts: seq<Extent>, width: int, height: int)
    requires forall i :: 0 <= i < |movers| ==> OnGrid(movers[i], width, height)
    ensures var objects := Select(movers, signs, texts, width, height).objects;
            && (forall i :: 0 <= i < |signs| ==>
                  var box := SignBox(signs[i], width, height);
                  box in objects || !SignFits(signs[i], box) || SignBlocked(objects, box, width, height))
            && (forall i :: 0 <= i < |texts| ==>
                  var box := TextBox(texts[i], width, height);
                  box in objects || !TextFits(texts[i], box, width, height) || TextBlocked(objects, box, width, height))
  {
    hide Select, OverlapsBy, SignBlocked, TextBlocked, SignFits, TextFits, SignBox, TextBox;
    TurnTheorem(movers, signs, texts, width, height);
    SelectionTheorem(movers, signs, texts, width, height);
    var objects := Select(movers, signs, texts, width, height).objects;
    var ms, ss, ts :|
      && MoversInTurn(ms, movers, width, height) && SignsInTurn(ss, signs, ms[|movers|], width, height)
      && TextsInTurn(ts, texts, ss[|signs|], width, height) && objects == ts[|texts|];
    Grows(ts, 0, |texts|);
    forall i | 0 <= i < |signs|
      ensures var box := SignBox(signs[i], width, height);
              box in objects || !SignFits(signs[i], box) || SignBlocked(objects, box, width, height)
    {
      var box := SignBox(signs[i], width, height);
      Grows(ss, i, |signs|);
      Grows(ss, i + 1, |signs|);
      BlockedStays(ss[i], objects, box, width, height);
      if SignTaken(ss[i], signs[i], width, height) != [] { assert ss[i + 1][|ss[i]|] == box && box in objects; }
    }
    forall i | 0 <= i < |texts|
      ensures var box := TextBox(texts[i], width, height);
              box in objects || !TextFits(texts[i], box, width, height) || TextBlocked(objects, box, width, height)
    {
      var box := TextBox(texts[i], width, height);
      Grows(ts, i, |texts|);
      Grows(ts, i + 1, |texts|);
      BlockedStays(ts[i], objects, box, width, height);
      if TextTaken(ts[i], texts[i], width, height) != [] { assert ts[i + 1][|ts[i]|] == box && box in objects; }
    }
  }

  // ----- the passes as they run

  method OverlapsExisting(objects: seq<Box>, box: Box) returns (clash: bool)
    ensures clash == Clashes(objects, box)
  {
    for i := 0 to |objects|
      invariant forall j :: 0 <= j < i ==> !OverlapExceeds(box, objects[j], 28)
    {
      if OverlapExceeds(box, objects[i], 28) { return true; }
    }
    return false;
  }

  method IsDuplicate(objects: seq<Box>, box: Box) returns (duplicate: bool)
    ensures duplicate == Duplicates(objects, box)
  {
    for i := 0 to |objects|
      invariant forall j :: 0 <= j < i ==> !(objects[j].kind == Text && OverlapExceeds(box, objects[j], 18))
    {
      if objects[i].kind == Text && OverlapExceeds(box, objects[i], 18) { return true; }
    }
    return false;
  }

  /** Once full, the selection ignores every further sign. */
  lemma {:induction false} SignsStayFull(s: Selection, signs: seq<Sign>, n: nat, width: int, height: int)
    requires n <= |signs|
    requires var t := Signs(s, signs[..n], width, height);
             |t.objects| >= MAX_OBJECTS || t.added >= 4
    ensures Signs(s, signs, width, height) == Signs(s, signs[..n], width, height)
    decreases |signs|
  {
    if n < |signs| {
      var m := |signs| - 1;
      assert signs[..m][..n] == signs[..n];
      SignsStayFull(s, signs[..m], n, width, height);
    } else {
      assert signs[..n] == signs;
    }
  }

  /** Goes through the sorted signs and stops as soon as the limits are reached. */
  method PickSigns(start: Selection, signs: seq<Sign>, width: int, height: int) returns (s: Selection)
    ensures s == Signs(start, signs, width, height)
  {
    s := start;
    for i := 0 to |signs|
      invariant s == Signs(start, signs[..i], width, height)
    {
      if |s.objects| >= MAX_OBJECTS || s.added >= 4 {
        SignsStayFull(start, signs, i, width, height);
        return;
      }
      assert signs[..i + 1][..i] == signs[..i];
      var box := SignBox(signs[i], width, height);
      if box.w < 24 || box.h < (if signs[i].kind == 1 then 64 else 28) { continue; }
      if s.used + box.w * box.h > Budget(width, height) { continue; }
      var clash := OverlapsExisting(s.objects, box);
      if clash { continue; }
      var duplicate := IsDuplicate(s.objects, box);
      if duplicate { continue; }
      s := AddText(s, box);
    }
    assert signs[..|signs|] == signs;
  }

  /** Boxes of the moving regions, in scan order. */
  method PickMovers(es: seq<Extent>, width: int, height: int) returns (objects: seq<Box>)
    ensures objects == Movers(es, width, height)
  {
    objects := [];
    for i := 0 to |es|
      invariant objects == Movers(es[..i], width, height)
    {
      assert es[..i + 1][..i] == es[..i];
      var e := es[i];
      if !e.plausible || e.maxX - e.minX + 1 < 3 || e.maxY - e.minY + 1 < 3 || |objects| >= MAX_OBJECTS { continue; }
      var box := MoverBox(e, width, height);
      objects := objects + [box];
      if box.w >= 28 && box.h >= 20 && |objects| < MAX_OBJECTS {
        objects := objects + [PlateBox(box, height)];
      }
    }
    assert es[..|es|] == es;
  }

  lemma {:induction false} TextsStayFull(s: Selection, es: seq<Extent>, n: nat, width: int, height: int)
    requires n <= |es|
    requires var t := Texts(s, es[..n], width, height);
             |t.objects| >= MAX_OBJECTS || t.added >= 8
    ensures Texts(s, es, width, height) == Texts(s, es[..n], width, height)
    decreases |es|
  {
    if n < |es| {
      var m := |es| - 1;
      assert es[..m][..n] == es[..n];
      TextsStayFull(s, es[..m], n, width, height);
    } else {
      assert es[..n] == es;
    }
  }

  /** Goes through the text regions while there is room. */
  method PickTexts(start: Selection, es: seq<Extent>, width: int, height: int) returns (s: Selection)
    ensures s == Texts(start, es, width, height)
  {
    s := start;
    for i := 0 to |es|
      invariant s == Texts(start, es[..i], width, height)
    {
      if s.added >= 8 || |s.objects| >= MAX_OBJECTS {
        TextsStayFull(start, es, i, width, height);
        return;
      }
      assert es[..i + 1][..i] == es[..i];
      var box := TextBox(es[i], width, height);
      if box.w < 24 || box.h < 28 || !es[i].plausible { continue; }
      if box.h > Max(120, height / 3) || box.w > Max(180, width / 5) { continue; }
      if Max(1, box.w * box.h) > Max(1, width * height) / 45 { continue; }
      if s.used + box.w * box.h > Budget(width, height) { continue; }
      var clash := OverlapsExisting(s.objects, box);
      if clash { continue; }
      s := AddText(s, box);
    }
    assert es[..|es|] == es;
  }

  /** All passes of one frame. */
  method SelectBoxes(movers: seq<Extent>, signs: seq<Sign>, texts: seq<Extent>, width: int, height: int)
    returns (s: Selection)
    requires forall i :: 0 <= i < |movers| ==> OnGrid(movers[i], width, height)
    ensures s == Select(movers, signs, texts, width, height) && Good(s, width, height)
    ensures ChosenInTurn(movers, signs, texts, width, height, s.objects)
  {
    var objects := PickMovers(movers, width, height);
    s := PickSigns(Selection(objects, 0, 0), signs, width, height);
    s := PickTexts(s, texts, width, height);
    SelectionTheorem(movers, signs, texts, width, height);
    TurnTheorem(movers, signs, texts, width, height);
  }
}
