/** Resources of a route in every run: frames are conserved, every surface is given back
    exactly once, and progress of the pipeline is bounded by what is inside it. */
module RouteResources {
  import opened Basics
  import opened Sums
  import opened RouteModel
  import opened RouteLedger
  import opened RouteOrder

  function PhaseW(phase: Phase): Op -> int {
    (op: Op) => if op.phase == phase then 1 else 0
  }

  function Count(s: State, phase: Phase): int {
    Sum(s.ops, PhaseW(phase))
  }

  // ----- every step changes at most one slot

  function Touched(s: State, e: Event): Option<nat> {
    match e
    case Append(_) => None
    case SyncEncode(_, _) => Some(First(s.ops, WantEncoding(s.encodeOut), 0))
    case SyncDecode(_, _) => Some(First(s.ops, WantDecoding(s.decodeOut), 0))
    case SubmitEncode(_, _) => Oldest(s.ops, |s.ops|)
    case SubmitDecode(_, _, _, _, _) => Some(First(s.ops, WantFree, 0))
    case DrainOutput(_) => None
  }

  ghost predicate OnlySlot(s: State, t: State, i: nat) {
    i < |s.ops| && |t.ops| == |s.ops| && t.ops == s.ops[i := t.ops[i]]
  }

  lemma PrepareTouches(s: State, i: nat, p: Prepare)
    requires i < |s.ops|
    ensures OnlySlot(s, PrepareFrame(s, i, p).state, i)
  {
    hide Acquire, FirstUnused, ReleaseCtrl;
  }

  lemma EncodeTouches(s: State, i: nat, a: EncodeAnswer)
    requires i < |s.ops|
    ensures OnlySlot(s, Encode(s, i, a).state, i)
  {
  }

  lemma SubmitEncodeTouches(s: State, p: Prepare, a: EncodeAnswer)
    ensures var t := SubmitEncodeStep(s, p, a).state;
            var sel := Oldest(s.ops, |s.ops|);
            && |t.ops| == |s.ops|
            && (sel.None? ==> t == s)
            && (sel.Some? ==> OnlySlot(s, t, sel.value))
  {
    hide PrepareFrame, Encode;
    var sel := Oldest(s.ops, |s.ops|);
    if sel.Some? {
      var u := PrepareFrame(s, sel.value, p).state;
      PrepareTouches(s, sel.value, p);
      EncodeTouches(s, sel.value, a);
      EncodeTouches(u, sel.value, a);
    }
  }

  lemma SubmitDecodeTouches(s: State, e: Event)
    requires e.SubmitDecode?
    ensures var t := Step(s, e);
            var i := First(s.ops, WantFree, 0);
            && |t.ops| == |s.ops|
            && (i == |s.ops| ==> t == s)
            && (i < |s.ops| ==> t.ops == s.ops[i := t.ops[i]])
  {
  }

  lemma TouchesOnly(s: State, e: Event)
    ensures |Step(s, e).ops| == |s.ops|
    ensures Touched(s, e).None? || Touched(s, e).value == |s.ops| ==> Step(s, e).ops == s.ops
    ensures Touched(s, e).Some? && Touched(s, e).value < |s.ops| ==>
              Step(s, e).ops == s.ops[Touched(s, e).value := Step(s, e).ops[Touched(s, e).value]]
  {
    match e
    case SubmitEncode(p, a) => SubmitEncodeTouches(s, p, a);
    case SubmitDecode(_, _, _, _, _) => SubmitDecodeTouches(s, e);
    case _ =>
  }

  lemma SumStep(s: State, e: Event, w: Op -> int)
    ensures |Step(s, e).ops| == |s.ops|
    ensures Touched(s, e).None? || Touched(s, e).value == |s.ops| ==> Sum(Step(s, e).ops, w) == Sum(s.ops, w)
    ensures Touched(s, e).Some? && Touched(s, e).value < |s.ops| ==>
              Sum(Step(s, e).ops, w) ==
              Sum(s.ops, w) - w(s.ops[Touched(s, e).value]) + w(Step(s, e).ops[Touched(s, e).value])
  {
    TouchesOnly(s, e);
    if Touched(s, e).Some? && Touched(s, e).value < |s.ops| {
      SumUpdate(s.ops, Touched(s, e).value, Step(s, e).ops[Touched(s, e).value], w);
    }
  }

  // ----- census of phases, conservation of frames

  ghost predicate Census(s: State) {
    && Count(s, Decoding) == s.decodeSubmit - DecodingFrom(s)
    && Count(s, Decoded) == s.decodeOut - |s.trace.handed|
    && Count(s, Encoding) == s.encodeSubmit - EncodingFrom(s)
  }

  lemma CensusInit(asyncDepth: nat)
    ensures Census(Init(asyncDepth))
  {
    var s := Init(asyncDepth);
    SumConst(s.ops, PhaseW(Decoding), 0);
    SumConst(s.ops, PhaseW(Decoded), 0);
    SumConst(s.ops, PhaseW(Encoding), 0);
  }

  /** The phase a slot leaves and the counters that move with it. */
  lemma CensusStep(s: State, e: Event)
    requires Ledger(s) && Census(s)
    ensures Census(Step(s, e))
  {
    match e
    case Append(_) =>
    case SyncEncode(a, bits) => CensusSyncEncode(s, a, bits);
    case SyncDecode(a, fails) => CensusSyncDecode(s, a, fails);
    case SubmitEncode(p, a) => CensusSubmitEncode(s, p, a);
    case SubmitDecode(_, _, _, _, _) => CensusSubmitDecode(s, e);
    case DrainOutput(_) =>
  }

  lemma CensusSyncEncode(s: State, a: SyncAnswer, bits: Bits)
    requires Ledger(s) && Census(s)
    ensures Census(SyncEncodeStep(s, a, bits).state)
  {
    hide Sum;
    SumStep(s, SyncEncode(a, bits), PhaseW(Decoding));
    SumStep(s, SyncEncode(a, bits), PhaseW(Decoded));
    SumStep(s, SyncEncode(a, bits), PhaseW(Encoding));
    NoTurnAfterLoss(s);
  }

  lemma CensusSyncDecode(s: State, a: SyncAnswer, fails: bool)
    requires Ledger(s) && Census(s)
    ensures Census(SyncDecodeStep(s, a, fails).state)
  {
    hide Sum;
    SumStep(s, SyncDecode(a, fails), PhaseW(Decoding));
    SumStep(s, SyncDecode(a, fails), PhaseW(Decoded));
    SumStep(s, SyncDecode(a, fails), PhaseW(Encoding));
    NoTurnAfterLoss(s);
    var i := First(s.ops, WantDecoding(s.decodeOut), 0);
    if i < |s.ops| {
      SlotHolds(s, i);
    }
  }

  /** A slot that is decoded in `s` waits, is emptied or moves on in `t`, and the counters follow. */
  ghost predicate Moves(s: State, t: State, i: nat) {
    var taken := |t.trace.handed| - |s.trace.handed|;
    var kept := t.encodeSubmit - s.encodeSubmit;
    && i < |t.ops| == |s.ops|
    && t.decodeSubmit == s.decodeSubmit && t.decodeOut == s.decodeOut && t.encodeOut == s.encodeOut
    && t.trace.decodeLost == s.trace.decodeLost && t.trace.encodeLost == s.trace.encodeLost
    && match t.ops[i].phase
       case Decoded => taken == 0 && kept == 0
       case Free => taken == 1 && kept == 0
       case Encoding => taken == 1 && kept == 1
       case Decoding => false
  }

  lemma EncodeMoves(s: State, i: nat, a: EncodeAnswer)
    requires i < |s.ops| && s.ops[i].phase == Decoded
    ensures Moves(s, Encode(s, i, a).state, i)
  {
  }

  lemma PrepareMoves(s: State, i: nat, p: Prepare)
    requires i < |s.ops| && s.ops[i].phase == Decoded
    ensures Moves(s, PrepareFrame(s, i, p).state, i) && PrepareFrame(s, i, p).state.ops[i].phase == Decoded
  {
    hide Acquire, FirstUnused, ReleaseCtrl;
  }

  lemma SubmitEncodeMoves(s: State, p: Prepare, a: EncodeAnswer)
    requires Oldest(s.ops, |s.ops|).Some?
    ensures Moves(s, SubmitEncodeStep(s, p, a).state, Oldest(s.ops, |s.ops|).value)
  {
    hide PrepareFrame, Encode;
    var i := Oldest(s.ops, |s.ops|).value;
    PrepareMoves(s, i, p);
    EncodeMoves(s, i, a);
    EncodeMoves(PrepareFrame(s, i, p).state, i, a);
  }

  lemma CensusSubmitEncode(s: State, p: Prepare, a: EncodeAnswer)
    requires Census(s)
    ensures Census(SubmitEncodeStep(s, p, a).state)
  {
    hide Sum;
    if Oldest(s.ops, |s.ops|).Some? {
      SubmitEncodeMoves(s, p, a);
      SumStep(s, SubmitEncode(p, a), PhaseW(Decoding));
      SumStep(s, SubmitEncode(p, a), PhaseW(Decoded));
      SumStep(s, SubmitEncode(p, a), PhaseW(Encoding));
    }
  }

  lemma CensusSubmitDecode(s: State, e: Event)
    requires Census(s) && e.SubmitDecode?
    ensures Census(Step(s, e))
  {
    hide Sum;
    SumStep(s, e, PhaseW(Decoding));
    SumStep(s, e, PhaseW(Decoded));
    SumStep(s, e, PhaseW(Encoding));
  }

  lemma {:induction false} CensusRun(asyncDepth: nat, es: seq<Event>)
    ensures Ledger(Run(Init(asyncDepth), es)) && Census(Run(Init(asyncDepth), es))
    decreases |es|
  {
    LedgerInit(asyncDepth);
    LedgerRun(Init(asyncDepth), es);
    if es == [] {
      CensusInit(asyncDepth);
    } else {
      CensusRun(asyncDepth, es[..|es| - 1]);
      CensusStep(Run(Init(asyncDepth), es[..|es| - 1]), es[|es| - 1]);
    }
  }

  /** Every frame taken from the decoder is in a slot, completed its encode, was absorbed by
      the encoder, was rejected by it, or was lost by one of at most two failed syncs. */
  lemma ConservationTheorem(asyncDepth: nat, es: seq<Event>)
    ensures var s := Run(Init(asyncDepth), es);
            s.decodeSubmit == Count(s, Decoding) + Count(s, Decoded) + Count(s, Encoding)
                              + |s.trace.bits| + s.trace.absorbed + s.trace.rejected
                              + B2N(s.trace.decodeLost) + B2N(s.trace.encodeLost)
  {
    CensusRun(asyncDepth, es);
  }

  // ----- surfaces

  function SurfaceW(h: Surface): Op -> int {
    (op: Op) => if op.surface == Some(h) then 1 else 0
  }

  function FrameW(h: Surface): Frame -> int {
    (f: Frame) => if f.surface == h then 1 else 0
  }

  function HandleW(h: Surface): Surface -> int {
    (g: Surface) => if g == h then 1 else 0
  }

  /** Surface `h` was taken as often as it was given back or is still held. */
  ghost predicate Balanced(s: State, h: Surface) {
    Sum(s.trace.given, FrameW(h)) == Sum(s.trace.released, HandleW(h)) + Sum(s.ops, SurfaceW(h))
  }

  lemma BalancedReset(s: State, i: nat, h: Surface)
    requires i < |s.ops| && Balanced(s, h)
    ensures Balanced(Reset(s, i), h)
  {
    hide Sum;
    SumUpdate(s.ops, i, FreshOp(), SurfaceW(h));
    ReleasedSum(s.trace.released, s.ops[i], h);
  }

  lemma ReleasedSum(released: seq<Surface>, op: Op, h: Surface)
    ensures Sum(released + SurfaceList(op), HandleW(h)) == Sum(released, HandleW(h)) + SurfaceW(h)(op)
  {
    if op.surface.Some? {
      SumAppend(released, op.surface.value, HandleW(h));
    } else {
      assert released + SurfaceList(op) == released;
    }
  }

  /** A slot changes without taking or giving back a surface. */
  lemma BalancedKeep(s: State, t: State, i: nat, h: Surface)
    requires Balanced(s, h) && i < |s.ops| == |t.ops|
    requires t.ops == s.ops[i := t.ops[i]] && t.ops[i].surface == s.ops[i].surface
    requires t.trace.given == s.trace.given && t.trace.released == s.trace.released
    ensures Balanced(t, h)
  {
    hide Sum;
    SumUpdate(s.ops, i, t.ops[i], SurfaceW(h));
  }

  /** A slot gives its surface back. */
  lemma BalancedGive(s: State, t: State, i: nat, h: Surface)
    requires Balanced(s, h) && i < |s.ops| == |t.ops|
    requires t.ops == s.ops[i := t.ops[i]] && t.ops[i].surface.None?
    requires t.trace.given == s.trace.given && t.trace.released == s.trace.released + SurfaceList(s.ops[i])
    ensures Balanced(t, h)
  {
    hide Sum;
    SumUpdate(s.ops, i, t.ops[i], SurfaceW(h));
    ReleasedSum(s.trace.released, s.ops[i], h);
  }

  lemma BalancedEncode(s: State, i: nat, answer: EncodeAnswer, h: Surface)
    requires i < |s.ops| && Balanced(s, h)
    ensures Balanced(Encode(s, i, answer).state, h)
  {
    var t := Encode(s, i, answer).state;
    match answer
    case EncodeBusy => BalancedKeep(s, t, i, h);
    case _ => BalancedGive(s, t, i, h);
  }

  lemma BalancedPrepare(s: State, i: nat, p: Prepare, h: Surface)
    requires i < |s.ops| && Balanced(s, h)
    ensures Balanced(PrepareFrame(s, i, p).state, h)
  {
    hide Acquire, FirstUnused, ReleaseCtrl;
    PrepareTouches(s, i, p);
    BalancedKeep(s, PrepareFrame(s, i, p).state, i, h);
  }

  lemma BalancedSubmitEncode(s: State, p: Prepare, a: EncodeAnswer, h: Surface)
    requires Balanced(s, h)
    ensures Balanced(SubmitEncodeStep(s, p, a).state, h)
  {
    hide PrepareFrame, Encode;
    var sel := Oldest(s.ops, |s.ops|);
    if sel.Some? {
      PrepareTouches(s, sel.value, p);
      BalancedPrepare(s, sel.value, p, h);
      BalancedEncode(s, sel.value, a, h);
      BalancedEncode(PrepareFrame(s, sel.value, p).state, sel.value, a, h);
    }
  }

  /** An empty slot takes the surface of a new frame. */
  lemma BalancedTake(s: State, t: State, i: nat, f: Frame, h: Surface)
    requires Balanced(s, h) && i < |s.ops| == |t.ops|
    requires t.ops == s.ops[i := t.ops[i]] && s.ops[i].surface.None? && t.ops[i].surface == Some(f.surface)
    requires t.trace.given == s.trace.given + [f] && t.trace.released == s.trace.released
    ensures Balanced(t, h)
  {
    hide Sum;
    SumUpdate(s.ops, i, t.ops[i], SurfaceW(h));
    SumAppend(s.trace.given, f, FrameW(h));
  }

  lemma BalancedSubmitDecode(s: State, e: Event, h: Surface)
    requires Balanced(s, h) && e.SubmitDecode?
    requires forall i :: 0 <= i < |s.ops| && s.ops[i].phase == Free ==> s.ops[i].surface.None?
    ensures Balanced(Step(s, e), h)
  {
    var i, t := First(s.ops, WantFree, 0), Step(s, e);
    SubmitDecodeTouches(s, e);
    if i < |s.ops| {
      if e.decode.DecodeFrame? {
        BalancedTake(s, t, i, Frame(e.decode.surface, e.pts, e.user), h);
      } else {
        BalancedKeep(s, t, i, h);
      }
    }
  }

  lemma BalancedSyncEncode(s: State, a: SyncAnswer, bits: Bits, h: Surface)
    requires Balanced(s, h)
    ensures Balanced(SyncEncodeStep(s, a, bits).state, h)
  {
    hide Sum;
    var i := First(s.ops, WantEncoding(s.encodeOut), 0);
    if i < |s.ops| {
      BalancedKeep(s, CompleteEncode(s, i, bits), i, h);
      BalancedReset(s, i, h);
    }
  }

  lemma BalancedSyncDecode(s: State, a: SyncAnswer, fails: bool, h: Surface)
    requires Balanced(s, h)
    ensures Balanced(SyncDecodeStep(s, a, fails).state, h)
  {
    hide Sum;
    var i := First(s.ops, WantDecoding(s.decodeOut), 0);
    if i < |s.ops| {
      BalancedKeep(s, MarkReady(s, i, fails).state, i, h);
      BalancedReset(s, i, h);
    }
  }

  lemma FreeHoldsNothing(s: State)
    requires Ledger(s)
    ensures forall i :: 0 <= i < |s.ops| && s.ops[i].phase == Free ==> s.ops[i].surface.None?
  {
    forall i | 0 <= i < |s.ops| && s.ops[i].phase == Free ensures s.ops[i].surface.None? {
      SlotHolds(s, i);
    }
  }

  lemma BalancedStep(s: State, e: Event, h: Surface)
    requires Ledger(s) && Balanced(s, h)
    ensures Balanced(Step(s, e), h)
  {
    match e
    case Append(_) =>
    case DrainOutput(_) =>
    case SyncEncode(a, bits) => BalancedSyncEncode(s, a, bits, h);
    case SyncDecode(a, fails) => BalancedSyncDecode(s, a, fails, h);
    case SubmitEncode(p, a) => BalancedSubmitEncode(s, p, a, h);
    case SubmitDecode(_, _, _, _, _) =>
      FreeHoldsNothing(s);
      BalancedSubmitDecode(s, e, h);
  }

  /** Every surface the decoder handed out has been released exactly as often as it is not
      held any more, and it is held exactly by the slots in decoding or decoded. */
  lemma {:induction false} SurfaceTheorem(asyncDepth: nat, es: seq<Event>, h: Surface)
    ensures Balanced(Run(Init(asyncDepth), es), h)
    ensures var s := Run(Init(asyncDepth), es);
            forall i :: 0 <= i < |s.ops| ==> (s.ops[i].surface.Some? <==> s.ops[i].phase in {Decoding, Decoded})
    decreases |es|
  {
    LedgerInit(asyncDepth);
    LedgerRun(Init(asyncDepth), es);
    var s := Run(Init(asyncDepth), es);
    forall i | 0 <= i < |s.ops| ensures s.ops[i].surface.Some? <==> s.ops[i].phase in {Decoding, Decoded} {
      SlotHolds(s, i);
    }
    if es == [] {
      SumConst(Init(asyncDepth).ops, SurfaceW(h), 0);
    } else {
      SurfaceTheorem(asyncDepth, es[..|es| - 1], h);
      LedgerRun(Init(asyncDepth), es[..|es| - 1]);
      BalancedStep(Run(Init(asyncDepth), es[..|es| - 1]), es[|es| - 1], h);
    }
  }

  /** Closing a route resets its slots one after the other. */
  function ResetFirst(s: State, n: nat): State
    requires n <= |s.ops|
    ensures |ResetFirst(s, n).ops| == |s.ops|
  {
    if n == 0 then s else Reset(ResetFirst(s, n - 1), n - 1)
  }

  lemma {:induction false} ResetFirstClears(s: State, n: nat)
    requires n <= |s.ops|
    ensures forall i :: 0 <= i < n ==> ResetFirst(s, n).ops[i] == FreshOp()
    ensures ResetFirst(s, n).trace.given == s.trace.given
  {
    if n > 0 {
      ResetFirstClears(s, n - 1);
    }
  }

  lemma {:induction false} ResetFirstBalanced(s: State, n: nat, h: Surface)
    requires n <= |s.ops| && Balanced(s, h)
    ensures Balanced(ResetFirst(s, n), h)
  {
    hide Balanced, Reset;
    if n > 0 {
      var before := ResetFirst(s, n - 1);
      ResetFirstBalanced(s, n - 1, h);
      BalancedReset(before, n - 1, h);
      assert ResetFirst(s, n) == Reset(before, n - 1);
    }
  }

  /** After closing, at any point of any run, each surface was released once per hand-out. */
  lemma CloseReleasesEverySurface(asyncDepth: nat, es: seq<Event>, h: Surface)
    ensures var s := Run(Init(asyncDepth), es);
            Sum(ResetFirst(s, |s.ops|).trace.released, HandleW(h)) == Sum(s.trace.given, FrameW(h))
  {
    var s := Run(Init(asyncDepth), es);
    SurfaceTheorem(asyncDepth, es, h);
    ResetFirstClears(s, |s.ops|);
    ResetFirstBalanced(s, |s.ops|, h);
    SumConst(ResetFirst(s, |s.ops|).ops, SurfaceW(h), 0);
  }

  // ----- progress measure

  function Load(op: Op): int {
    match op.phase
    case Free => 0
    case Decoding => 3
    case Decoded => 2
    case Encoding => 1
  }

  function LoadW(): Op -> int {
    (op: Op) => Load(op)
  }

  /** Three per slot in decoding, two per decoded, one per slot in encoding. */
  function Weight(s: State): int {
    Sum(s.ops, LoadW())
  }

  function FreeSlots(s: State): int {
    Sum(s.ops, PhaseW(Free))
  }

  lemma SyncEncodeLowersWeight(s: State, a: SyncAnswer, bits: Bits)
    ensures Weight(SyncEncodeStep(s, a, bits).state) <= Weight(s) - B2N(SyncEncodeStep(s, a, bits).progressed)
  {
    hide Sum;
    SumStep(s, SyncEncode(a, bits), LoadW());
  }

  lemma SyncDecodeLowersWeight(s: State, a: SyncAnswer, fails: bool)
    ensures Weight(SyncDecodeStep(s, a, fails).state) <= Weight(s) - B2N(SyncDecodeStep(s, a, fails).progressed)
  {
    hide Sum;
    SumStep(s, SyncDecode(a, fails), LoadW());
  }

  lemma SubmitEncodeLowersWeight(s: State, p: Prepare, a: EncodeAnswer)
    ensures Weight(SubmitEncodeStep(s, p, a).state) <= Weight(s) - B2N(SubmitEncodeStep(s, p, a).progressed)
  {
    hide Sum, PrepareFrame, Encode;
    SumStep(s, SubmitEncode(p, a), LoadW());
    SubmitEncodeLowersLoad(s, p, a);
  }

  lemma SubmitDecodeUsesSlot(s: State, e: Event)
    requires e.SubmitDecode?
    ensures FreeSlots(Step(s, e)) == FreeSlots(s) - B2N(Perform(s, e).progressed)
  {
    SumStep(s, e, PhaseW(Free));
  }

  /** Progress other than taking a frame from the decoder lowers the weight; taking a frame
      uses up a free slot. */
  lemma ProgressLowersWeight(s: State, e: Event)
    ensures !e.SubmitDecode? ==> Weight(Step(s, e)) <= Weight(s) - B2N(Perform(s, e).progressed)
    ensures e.SubmitDecode? ==> FreeSlots(Step(s, e)) == FreeSlots(s) - B2N(Perform(s, e).progressed)
    ensures Weight(s) >= 0 && FreeSlots(s) >= 0
  {
    SumNonNegative(s.ops, LoadW());
    SumNonNegative(s.ops, PhaseW(Free));
    match e
    case Append(_) =>
    case DrainOutput(_) =>
    case SyncEncode(a, bits) => SyncEncodeLowersWeight(s, a, bits);
    case SyncDecode(a, fails) => SyncDecodeLowersWeight(s, a, fails);
    case SubmitEncode(p, a) => SubmitEncodeLowersWeight(s, p, a);
    case SubmitDecode(_, _, _, _, _) => SubmitDecodeUsesSlot(s, e);
  }

  lemma SubmitEncodeLowersLoad(s: State, p: Prepare, a: EncodeAnswer)
    ensures var sel := Oldest(s.ops, |s.ops|);
            var out := SubmitEncodeStep(s, p, a);
            && |out.state.ops| == |s.ops|
            && (sel.None? ==> !out.progressed)
            && (sel.Some? ==> Load(out.state.ops[sel.value]) <= 2 - B2N(out.progressed))
  {
    hide PrepareFrame, Encode;
    var sel := Oldest(s.ops, |s.ops|);
    if sel.Some? {
      PrepareMoves(s, sel.value, p);
      PrepareDoesNotProgress(s, sel.value, p);
      EncodeLoad(s, sel.value, a);
      EncodeLoad(PrepareFrame(s, sel.value, p).state, sel.value, a);
    }
  }

  lemma PrepareDoesNotProgress(s: State, i: nat, p: Prepare)
    requires i < |s.ops|
    ensures !PrepareFrame(s, i, p).progressed && !PrepareFrame(s, i, p).needMore
  {
  }

  lemma EncodeLoad(s: State, i: nat, a: EncodeAnswer)
    requires i < |s.ops| && s.ops[i].phase == Decoded
    ensures |Encode(s, i, a).state.ops| == |s.ops|
    ensures Load(Encode(s, i, a).state.ops[i]) <= 2 - B2N(Encode(s, i, a).progressed)
  {
  }

  /** Steps done so far: frames taken from the decoder, made ready, handed to the encoder and
      output. */
  function Work(s: State): nat {
    s.decodeSubmit + s.decodeOut + |s.trace.handed| + s.encodeOut
  }

  /** Progress is exactly one step done. */
  lemma ProgressIsWork(s: State, e: Event)
    ensures !Perform(s, e).threw ==> Work(Step(s, e)) == Work(s) + B2N(Perform(s, e).progressed)
    ensures Perform(s, e).needMore ==> !Perform(s, e).progressed
  {
    hide First, Oldest;
    match e
    case SubmitEncode(p, a) => SubmitEncodeWork(s, p, a);
    case _ =>
  }

  lemma SubmitEncodeWork(s: State, p: Prepare, a: EncodeAnswer)
    ensures var out := SubmitEncodeStep(s, p, a);
            && (!out.threw ==> Work(out.state) == Work(s) + B2N(out.progressed))
            && !out.needMore
  {
    hide PrepareFrame, Encode;
    var sel := Oldest(s.ops, |s.ops|);
    if sel.Some? {
      PrepareWork(s, sel.value, p);
      EncodeWork(s, sel.value, a);
      EncodeWork(PrepareFrame(s, sel.value, p).state, sel.value, a);
    }
  }

  lemma PrepareWork(s: State, i: nat, p: Prepare)
    requires i < |s.ops|
    ensures var out := PrepareFrame(s, i, p);
            |out.state.ops| == |s.ops| && Work(out.state) == Work(s) && !out.progressed && !out.needMore
  {
  }

  lemma EncodeWork(s: State, i: nat, a: EncodeAnswer)
    requires i < |s.ops|
    ensures !Encode(s, i, a).threw ==> Work(Encode(s, i, a).state) == Work(s) + B2N(Encode(s, i, a).progressed)
    ensures !Encode(s, i, a).needMore
  {
  }

  /** When no slot is active, nothing is inside the pipeline any more. */
  lemma NoneActive(s: State)
    requires forall i :: 0 <= i < |s.ops| ==> s.ops[i].phase == Free
    ensures Count(s, Decoding) == Count(s, Decoded) == Count(s, Encoding) == 0
  {
    SumConst(s.ops, PhaseW(Decoding), 0);
    SumConst(s.ops, PhaseW(Decoded), 0);
    SumConst(s.ops, PhaseW(Encoding), 0);
  }

  /** What a finished drain has done with the frames taken from the decoder: each completed
      its encode, was absorbed by the encoder or was dropped by an error, in order; with no
      error at all, every one completed or was absorbed. */
  lemma DrainedTheorem(asyncDepth: nat, es: seq<Event>)
    requires var s := Run(Init(asyncDepth), es);
             forall i :: 0 <= i < |s.ops| ==> s.ops[i].phase == Free
    ensures var tr := Run(Init(asyncDepth), es).trace;
            && |tr.given| == |tr.bits| + tr.absorbed + tr.rejected + B2N(tr.decodeLost) + B2N(tr.encodeLost)
            && (!tr.decodeLost ==> tr.handed == tr.given)
            && (!tr.encodeLost ==> |tr.bits| == |tr.accepted|)
  {
    ConservationTheorem(asyncDepth, es);
    NoneActive(Run(Init(asyncDepth), es));
    CensusRun(asyncDepth, es);
    OrderTheorem(asyncDepth, es);
  }
}
