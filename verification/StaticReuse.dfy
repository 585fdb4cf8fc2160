/** Reuse of static frames: the gate that counts unchanged frames, the cached decisions of the
    per-frame callback, and the reference picture copied out of and back into surfaces. */
module StaticReuse {
  import opened Basics
  import opened Arith

  /** Visible luma and chroma rows of a surface. */
  datatype Picture = Picture(y: seq<seq<Byte>>, uv: seq<seq<Byte>>)

  datatype Decision = Decision(candidate: bool, count: nat)

  /** The reference picture; `from` is history: the frame it was copied from. */
  datatype Reference = Reference(width: nat, height: nat, picture: Picture, from: nat)

  /** What preparing a frame comes to for static reuse: no decision, a decision that is lost as
      unmapping the surface after it fails, so that the frame is prepared again, a decision whose
      reuse step is skipped as unmapping after preprocessing fails, or the reuse step. */
  datatype Fate = Undecided | Lost | Skipped | Applied

  /** One preparation of a frame: its fate, the gate's verdict, whether a block map was produced,
      whether the surface can be copied, and its content. */
  datatype Call = Call(
    fate: Fate, isStatic: bool, hasMap: bool, usable: bool, width: nat, height: nat, picture: Picture)

  /** `calls` is history: how often a frame was prepared. */
  datatype State = State(
    calls: nat, decisions: nat, count: nat, cached: Option<Decision>, reference: Option<Reference>)

  function Start(): State {
    State(0, 0, 0, None, None)
  }

  function GateCount(count: nat, isStatic: bool): nat {
    if isStatic then count + 1 else 0
  }

  function GateDecision(count: nat): Decision {
    Decision(count >= 3 && count % 12 != 0, count)
  }

  /** A cached decision is reused between two fresh ones when an interval is configured. */
  predicate Reuses(s: State, interval: nat) {
    interval > 1 && s.cached.Some? && s.decisions % interval != 0
  }

  function DecisionFor(s: State, interval: nat, x: Call): Decision {
    if Reuses(s, interval) then s.cached.value else GateDecision(GateCount(s.count, x.isStatic))
  }

  /** What the decision leaves behind in the gate and the cache. */
  function Decide(s: State, interval: nat, x: Call): State {
    var anew := !Reuses(s, interval);
    s.(decisions := s.decisions + 1,
       count := if anew then GateCount(s.count, x.isStatic) else s.count,
       cached := if anew && x.hasMap then Some(DecisionFor(s, interval, x)) else s.cached)
  }

  predicate SameShape(r: Option<Reference>, x: Call) {
    r.Some? && r.value.width == x.width && r.value.height == x.height
  }

  predicate Overwrites(s: State, interval: nat, x: Call) {
    var d := DecisionFor(s, interval, x);
    x.fate.Applied? && d.count > 0 && x.usable && d.candidate && SameShape(s.reference, x)
  }

  function NextReference(s: State, interval: nat, x: Call): Option<Reference> {
    if !x.fate.Applied? then s.reference
    else if DecisionFor(s, interval, x).count == 0 || !x.usable then None
    else if Overwrites(s, interval, x) then s.reference
    else Some(Reference(x.width, x.height, x.picture, s.calls))
  }

  function Next(s: State, interval: nat, x: Call): State {
    var t := if x.fate.Undecided? then s else Decide(s, interval, x);
    t.(calls := s.calls + 1, reference := NextReference(s, interval, x))
  }

  /** What the surface shows when the frame has been prepared. */
  function Shown(s: State, interval: nat, x: Call): Picture {
    if Overwrites(s, interval, x) then s.reference.value.picture else x.picture
  }

  function After(interval: nat, xs: seq<Call>): State {
    if xs == [] then Start() else Next(After(interval, xs[..|xs| - 1]), interval, xs[|xs| - 1])
  }

  lemma AfterNext(interval: nat, xs: seq<Call>, n: nat)
    requires 0 < n <= |xs|
    ensures After(interval, xs[..n]) == Next(After(interval, xs[..n - 1]), interval, xs[n - 1])
  {
    assert xs[..n][..n - 1] == xs[..n - 1];
  }

  /** The decision of preparation `k`, fresh or cached. */
  function DecisionAt(interval: nat, xs: seq<Call>, k: nat): Decision
    requires k < |xs|
  {
    DecisionFor(After(interval, xs[..k]), interval, xs[k])
  }

  /** Preparation `i` replaces its frame by the picture of preparation `from`. */
  predicate ReplacedBy(interval: nat, xs: seq<Call>, i: nat, from: nat)
    requires i < |xs|
  {
    var s := After(interval, xs[..i]);
    Overwrites(s, interval, xs[i]) && s.reference.value.from == from
  }

  // ----- copying pictures

  /** `rows` rows of `width` bytes inside a plane with the given pitch. */
  ghost predicate Fits(size: nat, origin: nat, pitch: nat, width: nat, rows: nat) {
    width <= pitch && (rows > 0 ==> origin + (rows - 1) * pitch + width <= size)
  }

  lemma RowInPlane(size: nat, origin: nat, pitch: nat, width: nat, rows: nat, y: nat)
    requires Fits(size, origin, pitch, width, rows) && y < rows
    ensures origin + y * pitch + width <= size
  {
    var rest := rows - 1 - y;
    assert (rows - 1) * pitch == y * pitch + rest * pitch;
  }

  ghost function RowAt(plane: seq<Byte>, origin: nat, pitch: nat, width: nat, y: nat): (r: seq<Byte>)
    requires origin + y * pitch + width <= |plane|
    ensures |r| == width
  {
    plane[origin + y * pitch..origin + y * pitch + width]
  }

  ghost function Visible(plane: seq<Byte>, origin: nat, pitch: nat, width: nat, rows: nat): (r: seq<seq<Byte>>)
    requires Fits(|plane|, origin, pitch, width, rows)
    ensures |r| == rows && forall y :: 0 <= y < rows ==> |r[y]| == width
  {
    seq(rows, y requires 0 <= y < rows =>
      RowInPlane(|plane|, origin, pitch, width, rows, y);
      RowAt(plane, origin, pitch, width, y))
  }

  method CopyOut(plane: array<Byte>, origin: nat, pitch: nat, width: nat, rows: nat) returns (copy: seq<seq<Byte>>)
    requires Fits(plane.Length, origin, pitch, width, rows)
    ensures copy == Visible(plane[..], origin, pitch, width, rows)
  {
    copy := [];
    for y := 0 to rows
      invariant |copy| == y && forall k :: 0 <= k < y ==> copy[k] == Visible(plane[..], origin, pitch, width, rows)[k]
    {
      RowInPlane(plane.Length, origin, pitch, width, rows, y);
      copy := copy + [plane[origin + y * pitch..origin + y * pitch + width]];
      assert copy[y] == RowAt(plane[..], origin, pitch, width, y);
    }
  }

  /** `q` is `p` with `row` written at `at`. */
  ghost predicate RowSet(p: seq<Byte>, q: seq<Byte>, at: nat, row: seq<Byte>) {
    && |q| == |p| && at + |row| <= |p|
    && (forall k :: at <= k < at + |row| ==> q[k] == row[k - at])
    && (forall k :: 0 <= k < |p| && !(at <= k < at + |row|) ==> q[k] == p[k])
  }

  method WriteRow(plane: array<Byte>, at: nat, row: seq<Byte>)
    requires at + |row| <= plane.Length
    modifies plane
    ensures RowSet(old(plane[..]), plane[..], at, row)
  {
    for x := 0 to |row|
      invariant forall k :: 0 <= k < x ==> plane[at + k] == row[k]
      invariant forall k :: 0 <= k < plane.Length && !(at <= k < at + x) ==> plane[k] == old(plane[k])
    {
      plane[at + x] := row[x];
    }
  }

  function RowStart(origin: nat, pitch: nat, y: nat): nat {
    origin + y * pitch
  }

  /** Byte `k` belongs to one of the visible rows. */
  ghost predicate InWindow(k: int, origin: nat, pitch: nat, width: nat, rows: nat) {
    exists y: nat :: y < rows && RowStart(origin, pitch, y) <= k < RowStart(origin, pitch, y) + width
  }

  ghost predicate SameOutside(p: seq<Byte>, q: seq<Byte>, origin: nat, pitch: nat, width: nat, rows: nat) {
    |p| == |q| && forall k :: 0 <= k < |p| && !InWindow(k, origin, pitch, width, rows) ==> q[k] == p[k]
  }

  lemma OtherRow(p: seq<Byte>, q: seq<Byte>, origin: nat, pitch: nat, width: nat, y: nat, j: nat, row: seq<Byte>)
    requires |row| == width <= pitch && j != y && RowSet(p, q, origin + y * pitch, row)
    requires origin + j * pitch + width <= |p|
    ensures RowAt(q, origin, pitch, width, j) == RowAt(p, origin, pitch, width, j)
  {
    MulGap(j, y, pitch);
    MulGap(y, j, pitch);
  }

  lemma RowSetOutside(p: seq<Byte>, q: seq<Byte>, origin: nat, pitch: nat, width: nat, rows: nat, y: nat,
      row: seq<Byte>)
    requires y < rows && |row| == width && RowSet(p, q, origin + y * pitch, row)
    ensures SameOutside(p, q, origin, pitch, width, rows)
  {
    assert RowStart(origin, pitch, y) == origin + y * pitch;
  }

  lemma RowReplaced(p: seq<Byte>, q: seq<Byte>, origin: nat, pitch: nat, width: nat, rows: nat, y: nat, row: seq<Byte>)
    requires Fits(|p|, origin, pitch, width, rows) && y < rows && |row| == width
    requires RowSet(p, q, origin + y * pitch, row)
    ensures |q| == |p| && Visible(q, origin, pitch, width, rows) == Visible(p, origin, pitch, width, rows)[y := row]
  {
    forall j | 0 <= j < rows && j != y
      ensures Visible(q, origin, pitch, width, rows)[j] == Visible(p, origin, pitch, width, rows)[j]
    {
      RowInPlane(|p|, origin, pitch, width, rows, j);
      OtherRow(p, q, origin, pitch, width, y, j, row);
    }
    RowInPlane(|p|, origin, pitch, width, rows, y);
    assert RowAt(q, origin, pitch, width, y) == row;
  }

  /** Replaces one visible row and nothing else. */
  method PutRow(plane: array<Byte>, origin: nat, pitch: nat, width: nat, rows: nat, y: nat, row: seq<Byte>)
    requires Fits(plane.Length, origin, pitch, width, rows) && y < rows && |row| == width
    modifies plane
    ensures Visible(plane[..], origin, pitch, width, rows) ==
            Visible(old(plane[..]), origin, pitch, width, rows)[y := row]
    ensures SameOutside(old(plane[..]), plane[..], origin, pitch, width, rows)
  {
    ghost var before := plane[..];
    RowInPlane(plane.Length, origin, pitch, width, rows, y);
    WriteRow(plane, origin + y * pitch, row);
    RowReplaced(before, plane[..], origin, pitch, width, rows, y, row);
    RowSetOutside(before, plane[..], origin, pitch, width, rows, y, row);
  }

  /** Writing a picture back makes it visible and leaves every other byte alone. */
  method CopyBack(plane: array<Byte>, origin: nat, pitch: nat, width: nat, copy: seq<seq<Byte>>)
    requires Fits(plane.Length, origin, pitch, width, |copy|)
    requires forall y :: 0 <= y < |copy| ==> |copy[y]| == width
    modifies plane
    ensures Visible(plane[..], origin, pitch, width, |copy|) == copy
    ensures SameOutside(old(plane[..]), plane[..], origin, pitch, width, |copy|)
  {
    for y := 0 to |copy|
      invariant forall j :: 0 <= j < y ==> Visible(plane[..], origin, pitch, width, |copy|)[j] == copy[j]
      invariant SameOutside(old(plane[..]), plane[..], origin, pitch, width, |copy|)
    {
      PutRow(plane, origin, pitch, width, |copy|, y, copy[y]);
    }
  }

  // ----- the route applying the gate to its surfaces

  /** A mapped surface: two planes with one pitch and the visible window. */
  class Surface {
    const luma: array<Byte>
    const chroma: array<Byte>
    const lumaOrigin: nat
    const chromaOrigin: nat
    const pitch: nat
    const width: nat
    const height: nat

    constructor (
        luma: array<Byte>, chroma: array<Byte>, lumaOrigin: nat, chromaOrigin: nat,
        pitch: nat, width: nat, height: nat)
      ensures this.luma == luma && this.chroma == chroma && this.pitch == pitch && this.width == width
              && this.height == height
      ensures this.lumaOrigin == lumaOrigin && this.chromaOrigin == chromaOrigin
    {
      this.luma, this.chroma, this.lumaOrigin, this.chromaOrigin := luma, chroma, lumaOrigin, chromaOrigin;
      this.pitch, this.width, this.height := pitch, width, height;
    }

    ghost predicate Valid() {
      && luma != chroma
      && Fits(luma.Length, lumaOrigin, pitch, width, height)
      && Fits(chroma.Length, chromaOrigin, pitch, width, (height + 1) / 2)
    }

    ghost function Content(): Picture
      requires Valid()
      reads luma, chroma
    {
      Picture(Visible(luma[..], lumaOrigin, pitch, width, height),
              Visible(chroma[..], chromaOrigin, pitch, width, (height + 1) / 2))
    }

    method Read() returns (p: Picture)
      requires Valid()
      ensures p == Content() && HasShape(p, width, height)
    {
      var y := CopyOut(luma, lumaOrigin, pitch, width, height);
      var uv := CopyOut(chroma, chromaOrigin, pitch, width, (height + 1) / 2);
      p := Picture(y, uv);
    }

    method Write(p: Picture)
      requires Valid() && HasShape(p, width, height)
      modifies luma, chroma
      ensures Content() == p
      ensures SameOutside(old(luma[..]), luma[..], lumaOrigin, pitch, width, height)
      ensures SameOutside(old(chroma[..]), chroma[..], chromaOrigin, pitch, width, (height + 1) / 2)
    {
      CopyBack(luma, lumaOrigin, pitch, width, p.y);
      CopyBack(chroma, chromaOrigin, pitch, width, p.uv);
    }
  }

  ghost predicate HasShape(p: Picture, width: nat, height: nat) {
    && |p.y| == height && (forall k :: 0 <= k < height ==> |p.y[k]| == width)
    && |p.uv| == (height + 1) / 2 && (forall k :: 0 <= k < |p.uv| ==> |p.uv[k]| == width)
  }

  class ReuseRoute {
    const interval: nat
    var decisions: nat
    var count: nat
    var cached: Option<Decision>
    var reference: Option<Reference>
    /** History: preparations so far. */
    var calls: nat

    ghost function View(): State
      reads this
    {
      State(calls, decisions, count, cached, reference)
    }

    ghost predicate Valid()
      reads this
    {
      reference.Some? ==> HasShape(reference.value.picture, reference.value.width, reference.value.height)
    }

    constructor (interval: nat)
      ensures this.interval == interval && View() == Start() && Valid()
    {
      this.interval := interval;
      decisions, count, cached, reference, calls := 0, 0, None, None, 0;
    }

    /** The callback's decision: fresh from the gate, or cached between two fresh ones. */
    method MakeDecision(isStatic: bool, hasMap: bool, ghost x: Call) returns (d: Decision)
      requires x.isStatic == isStatic && x.hasMap == hasMap
      modifies this`decisions, this`count, this`cached
      ensures d == DecisionFor(old(View()), interval, x) && View() == Decide(old(View()), interval, x)
    {
      var index := decisions;
      decisions := decisions + 1;
      if interval > 1 && cached.Some? && index % interval != 0 {
        return cached.value;
      }
      count := if isStatic then count + 1 else 0;
      d := Decision(count >= 3 && count % 12 != 0, count);
      if hasMap { cached := Some(d); }
    }

    /** Overwrites the surface with the reference, or takes the surface as the new one. */
    method Apply(d: Decision, usable: bool, surface: Surface)
      requires Valid() && surface.Valid()
      modifies this`reference, surface.luma, surface.chroma
      ensures Valid()
      ensures var shown := old(surface.Content());
              if d.count == 0 || !usable then reference == None && surface.Content() == shown
              else if d.candidate && old(reference.Some? && reference.value.width == surface.width
                                         && reference.value.height == surface.height)
              then reference == old(reference) && surface.Content() == old(reference).value.picture
              else
                && reference == Some(Reference(surface.width, surface.height, shown, calls))
                && surface.Content() == shown
    {
      if d.count == 0 || !usable {
        reference := None;
      } else if d.candidate && reference.Some? && reference.value.width == surface.width
                && reference.value.height == surface.height {
        surface.Write(reference.value.picture);
      } else {
        var p := surface.Read();
        reference := Some(Reference(surface.width, surface.height, p, calls));
      }
    }

    /** One preparation of a frame, with the fate it meets. */
    method PrepareFrame(fate: Fate, isStatic: bool, hasMap: bool, usable: bool, surface: Surface)
      requires Valid() && surface.Valid()
      modifies this, surface.luma, surface.chroma
      ensures Valid()
      ensures var x := Call(fate, isStatic, hasMap, usable, surface.width, surface.height, old(surface.Content()));
              && View() == Next(old(View()), interval, x)
              && surface.Content() == Shown(old(View()), interval, x)
    {
      ghost var x := Call(fate, isStatic, hasMap, usable, surface.width, surface.height, surface.Content());
      if fate != Undecided {
        var d := MakeDecision(isStatic, hasMap, x);
        if fate == Applied { Apply(d, usable, surface); }
      }
      calls := calls + 1;
    }
  }
}
