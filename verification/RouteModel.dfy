/** The realtime route pipeline as a protocol: its state, the answers the device may
    give, and the effect of every step.  The class in RoutePipeline performs the same
    steps imperatively; RouteLedger proves what every run keeps. */
module RouteModel {
  import opened Basics

  /** A surface handle chosen by the decoder; handles may be recycled. */
  type Surface = nat

  datatype Phase = Free | Decoding | Decoded | Encoding

  /** One slot of the pipeline. */
  datatype Op = Op(
    phase: Phase,
    surface: Option<Surface>,
    decodeSync: bool,
    encodeSync: bool,
    ctrl: Option<nat>,
    decodeOrder: nat,
    decodedOrder: nat,
    encodeOrder: nat,
    pts: int,
    user: int,
    preprocessed: bool)

  /** What the decoder delivered and what must come out with it. */
  datatype Frame = Frame(surface: Surface, pts: int, user: int)

  /** What a finished encode left in the output bitstream; an unknown time stamp is `None`. */
  datatype Bits = Bits(data: seq<Byte>, stamp: Option<int>)

  /** An emitted packet.  `origin` is history: the number of the completed encode it came
      from, or none when draining the encoder produced it. */
  datatype Output = Output(data: seq<Byte>, pts: int, user: int, dts: nat, origin: Option<nat>)

  /** History of a route.  The k-th entry of `given`, `slotOf` and `stale` belongs to the
      k-th frame taken from the decoder; `stale` is the slot's preprocess flag at that time.
      `readyFails` counts, for each frame made ready, the failed scene analyses up to then, and
      `bits` holds the bitstream of each completed encode.  `preprocessed` lists the frame of each
      attempt to preprocess, and `refiltered` and `unmarked` those of the attempts that failed at
      their end, without and with a control in hand.  Whether an attempt changes the picture
      depends on the filters switched on, and on mapping the surface. */
  datatype Trace = Trace(
    given: seq<Frame>,
    slotOf: seq<nat>,
    stale: seq<bool>,
    readyFails: seq<nat>,
    sceneFails: nat,
    handed: seq<Frame>,
    accepted: seq<nat>,
    bits: seq<Bits>,
    outputs: seq<Output>,
    released: seq<Surface>,
    preprocessed: seq<nat>,
    refiltered: seq<nat>,
    unmarked: seq<nat>,
    absorbed: nat,
    rejected: nat,
    decodeLost: bool,
    encodeLost: bool,
    leaked: nat,
    resets: nat)

  datatype State = State(
    ops: seq<Op>,
    ctrl: seq<bool>,
    decodeSubmit: nat,
    decodeOut: nat,
    decodedReady: nat,
    encodeSubmit: nat,
    encodeOut: nat,
    outputPackets: nat,
    inputLen: nat,
    trace: Trace)

  // ----- device answers

  /** `SyncWarning` is any other non-negative status: the slot is reset but nothing is thrown. */
  datatype SyncAnswer = SyncDone | InExecution | SyncWarning | SyncError

  datatype DecodeAnswer =
    | DecodeBusy
    | DecodeStall
    | DecodeMoreData
    | DecodeError
    | DecodeNoSurface
    | DecodeFrame(surface: Surface, hasSync: bool)

  datatype EncodeAnswer = EncodeBusy | EncodeMoreData | EncodeError | EncodeAccepted(hasSync: bool)

  /** How preparing the per-frame encode control ends: never acquired, acquired and given
      back, acquired and kept, or acquired and lost because Unmap threw. */
  datatype Control = NoControl | ControlDropped | ControlKept | UnmapFails

  /** Preparing a frame: its control, and whether Unmap throws at the end of preprocessing or
      of static reuse. */
  datatype Prepare = Prepare(control: Control, filterFails: bool, reuseFails: bool)

  /** `bits` is what a completed encode leaves; `sceneFails` says that Unmap throws at the end
      of the scene analysis of a decoded frame. */
  datatype Event =
    | Append(bytes: nat)
    | SyncEncode(sync: SyncAnswer, bits: Bits)
    | SyncDecode(sync: SyncAnswer, sceneFails: bool)
    | SubmitEncode(prepare: Prepare, encode: EncodeAnswer)
    | SubmitDecode(draining: bool, pts: int, user: int, decode: DecodeAnswer, consumed: nat)
    | DrainOutput(bits: Bits)

  /** Outcome of one step: the new state and what the caller sees. */
  datatype Outcome = Outcome(state: State, progressed: bool, threw: bool, needMore: bool)

  // ----- slot searches

  datatype Want = WantFree | WantDecoding(order: nat) | WantEncoding(order: nat)

  predicate Matches(op: Op, want: Want) {
    match want
    case WantFree => op.phase == Free
    case WantDecoding(k) => op.phase == Decoding && op.decodeOrder == k
    case WantEncoding(k) => op.phase == Encoding && op.encodeOrder == k
  }

  /** First slot at or after `from` that matches, or the number of slots. */
  function First(ops: seq<Op>, want: Want, from: nat): (r: nat)
    requires from <= |ops|
    ensures from <= r <= |ops|
    ensures r < |ops| ==> Matches(ops[r], want)
    ensures forall j :: from <= j < r ==> !Matches(ops[j], want)
    decreases |ops| - from
  {
    if from == |ops| || Matches(ops[from], want) then from else First(ops, want, from + 1)
  }

  /** Among the first `n` slots, the decoded one with the least ready order (first of equals). */
  function Oldest(ops: seq<Op>, n: nat): (r: Option<nat>)
    requires n <= |ops|
    ensures r.Some? ==> r.value < n && ops[r.value].phase == Decoded
    ensures r.Some? ==> forall j :: 0 <= j < n && ops[j].phase == Decoded ==>
            ops[r.value].decodedOrder <= ops[j].decodedOrder
    ensures r.None? ==> forall j :: 0 <= j < n ==> ops[j].phase != Decoded
  {
    if n == 0 then None
    else
      var r := Oldest(ops, n - 1);
      if ops[n - 1].phase == Decoded && (r.None? || ops[n - 1].decodedOrder < ops[r.value].decodedOrder)
      then Some(n - 1) else r
  }

  // ----- resources

  function FreshOp(): Op {
    Op(Free, None, false, false, None, 0, 0, 0, 0, 0, false)
  }

  /** First unused control slot, or the pool size when all are in use. */
  function FirstUnused(ctrl: seq<bool>, from: nat): (r: nat)
    requires from <= |ctrl|
    ensures from <= r <= |ctrl|
    ensures r < |ctrl| ==> !ctrl[r]
    ensures forall j :: from <= j < r ==> ctrl[j]
    decreases |ctrl| - from
  {
    if from == |ctrl| || !ctrl[from] then from else FirstUnused(ctrl, from + 1)
  }

  function Pool(ctrl: seq<bool>): (r: seq<bool>)
  {
    if |ctrl| == 0 then seq(8, _ => false) else ctrl
  }

  /** Acquiring marks the first unused slot, growing the pool when there is none. */
  function Acquire(ctrl: seq<bool>): (r: seq<bool>)
  {
    var pool := Pool(ctrl);
    var i := FirstUnused(pool, 0);
    if i < |pool| then pool[i := true] else pool + [true]
  }

  function AcquiredIndex(ctrl: seq<bool>): nat {
    FirstUnused(Pool(ctrl), 0)
  }

  function ReleaseCtrl(ctrl: seq<bool>, slot: Option<nat>): seq<bool> {
    if slot.Some? && slot.value < |ctrl| then ctrl[slot.value := false] else ctrl
  }

  function SurfaceList(op: Op): seq<Surface> {
    if op.surface.Some? then [op.surface.value] else []
  }

  /** Returns a slot to its initial condition, giving back its surface and control. */
  function Reset(s: State, i: nat): State
    requires i < |s.ops|
  {
    s.(ops := s.ops[i := FreshOp()],
       ctrl := ReleaseCtrl(s.ctrl, s.ops[i].ctrl),
       trace := s.trace.(released := s.trace.released + SurfaceList(s.ops[i]), resets := s.trace.resets + 1))
  }

  function FrameOf(op: Op): Frame {
    Frame(if op.surface.Some? then op.surface.value else 0, op.pts, op.user)
  }

  // ----- steps

  /** An empty bitstream emits nothing; a known bitstream time stamp replaces the frame's. */
  function Emit(s: State, bits: Bits, pts: int, user: int, origin: Option<nat>): State {
    if bits.data == [] then s
    else
      var p := Output(bits.data, if bits.stamp.Some? then bits.stamp.value else pts, user, s.outputPackets, origin);
      s.(outputPackets := s.outputPackets + 1, trace := s.trace.(outputs := s.trace.outputs + [p]))
  }

  function CompleteEncode(s: State, i: nat, bits: Bits): State
    requires i < |s.ops|
  {
    var op := s.ops[i];
    var t := Emit(s, bits, op.pts, op.user, Some(s.encodeOut));
    t.(ops := s.ops[i := op.(encodeSync := false, ctrl := None, phase := Free)],
       ctrl := ReleaseCtrl(s.ctrl, op.ctrl),
       encodeOut := s.encodeOut + 1,
       trace := t.trace.(bits := s.trace.bits + [bits]))
  }

  /** Synchronising the encode of slot `i`; a slot without a sync point is complete already. */
  function SyncEncodeAt(s: State, i: nat, answer: SyncAnswer, bits: Bits): Outcome
    requires i < |s.ops|
  {
    if !s.ops[i].encodeSync || answer.SyncDone? then Outcome(CompleteEncode(s, i, bits), true, false, false)
    else if answer.InExecution? then Outcome(s, false, false, false)
    else
      var t := Reset(s, i);
      Outcome(t.(trace := t.trace.(encodeLost := true)), false, answer.SyncError?, false)
  }

  function SyncEncodeStep(s: State, answer: SyncAnswer, bits: Bits): Outcome {
    var i := First(s.ops, WantEncoding(s.encodeOut), 0);
    if i == |s.ops| then Outcome(s, false, false, false) else SyncEncodeAt(s, i, answer, bits)
  }

  /** A decoded frame becomes ready, unless its scene analysis throws: then the ready order is
      used up and the slot stays in decoding without a sync point. */
  function MarkReady(s: State, i: nat, sceneFails: bool): Outcome
    requires i < |s.ops|
  {
    var op := s.ops[i].(decodeSync := false);
    if op.surface.None? then
      Outcome(s.(ops := s.ops[i := op.(phase := Free)], decodeOut := s.decodeOut + 1), true, false, false)
    else if sceneFails then
      Outcome(s.(ops := s.ops[i := op.(decodedOrder := s.decodedReady)], decodedReady := s.decodedReady + 1,
                 trace := s.trace.(sceneFails := s.trace.sceneFails + 1)), false, true, false)
    else
      Outcome(s.(ops := s.ops[i := op.(phase := Decoded, decodedOrder := s.decodedReady)],
                 decodedReady := s.decodedReady + 1, decodeOut := s.decodeOut + 1,
                 trace := s.trace.(readyFails := s.trace.readyFails + [s.trace.sceneFails])), true, false, false)
  }

  function SyncDecodeAt(s: State, i: nat, answer: SyncAnswer, sceneFails: bool): Outcome
    requires i < |s.ops|
  {
    if !s.ops[i].decodeSync || answer.SyncDone? then MarkReady(s, i, sceneFails)
    else if answer.InExecution? then Outcome(s, false, false, false)
    else
      var t := Reset(s, i);
      Outcome(t.(trace := t.trace.(decodeLost := true)), false, answer.SyncError?, false)
  }

  function SyncDecodeStep(s: State, answer: SyncAnswer, sceneFails: bool): Outcome {
    var i := First(s.ops, WantDecoding(s.decodeOut), 0);
    if i == |s.ops| then Outcome(s, false, false, false) else SyncDecodeAt(s, i, answer, sceneFails)
  }

  /** Acquiring the control of slot `i`. */
  function TakeControl(s: State, i: nat, control: Control): State
    requires i < |s.ops|
  {
    var ctrl := match control
      case NoControl => s.ctrl
      case ControlDropped => ReleaseCtrl(Acquire(s.ctrl), Some(AcquiredIndex(s.ctrl)))
      case _ => Acquire(s.ctrl);
    if control.UnmapFails? then s.(ctrl := ctrl, trace := s.trace.(leaked := s.trace.leaked + 1))
    else
      var held := if control.ControlKept? then Some(AcquiredIndex(s.ctrl)) else None;
      s.(ctrl := ctrl, ops := s.ops[i := s.ops[i].(ctrl := held)])
  }

  /** An attempt to preprocess the frame of slot `i`; the flag is set only when nothing throws. */
  function Filter(s: State, i: nat, fails: bool): State
    requires i < |s.ops|
  {
    var op := s.ops[i];
    if op.preprocessed then s
    else
      var k := [op.decodeOrder];
      s.(ops := s.ops[i := op.(preprocessed := !fails)],
         trace := s.trace.(preprocessed := s.trace.preprocessed + k,
                           refiltered := if fails && op.ctrl.None? then s.trace.refiltered + k else s.trace.refiltered,
                           unmarked := if fails && op.ctrl.Some? then s.trace.unmarked + k else s.trace.unmarked))
  }

  /** Preparing the frame of slot `i`: control, preprocessing when its flag is clear, and static
      reuse when a control is kept. */
  function PrepareFrame(s: State, i: nat, p: Prepare): Outcome
    requires i < |s.ops|
  {
    var u := TakeControl(s, i, p.control);
    if p.control.UnmapFails? then Outcome(u, false, true, false)
    else
      Outcome(Filter(u, i, p.filterFails), false,
              (!s.ops[i].preprocessed && p.filterFails) || (p.control.ControlKept? && p.reuseFails), false)
  }

  function Encode(s: State, i: nat, answer: EncodeAnswer): Outcome
    requires i < |s.ops|
  {
    var op := s.ops[i].(encodeSync := false);
    var handed := s.trace.handed + [FrameOf(op)];
    match answer
    case EncodeBusy => Outcome(s.(ops := s.ops[i := op]), false, false, false)
    case EncodeMoreData =>
      var t := Reset(s, i);
      Outcome(t.(trace := t.trace.(handed := handed, absorbed := s.trace.absorbed + 1)), true, false, false)
    case EncodeError =>
      var t := Reset(s, i);
      Outcome(t.(trace := t.trace.(handed := handed, rejected := s.trace.rejected + 1)), false, true, false)
    case EncodeAccepted(hasSync) =>
      Outcome(
        s.(ops := s.ops[i := op.(surface := None, decodeSync := false, encodeSync := hasSync,
                                 encodeOrder := s.encodeSubmit, phase := Encoding)],
           encodeSubmit := s.encodeSubmit + 1,
           trace := s.trace.(handed := handed, accepted := s.trace.accepted + [op.decodeOrder],
                             released := s.trace.released + SurfaceList(op))),
        true, false, false)
  }

  function SubmitEncodeStep(s: State, prepare: Prepare, answer: EncodeAnswer): Outcome {
    var sel := Oldest(s.ops, |s.ops|);
    if sel.None? then Outcome(s, false, false, false)
    else
      var i := sel.value;
      if s.ops[i].ctrl.Some? then Encode(s, i, answer)
      else
        var prepared := PrepareFrame(s, i, prepare);
        if prepared.threw then prepared else Encode(prepared.state, i, answer)
  }

  function TakeFrame(s: State, i: nat, surface: Surface, hasSync: bool): State
    requires i < |s.ops|
  {
    var op := s.ops[i];
    s.(ops := s.ops[i := op.(surface := Some(surface), decodeSync := hasSync,
                             decodeOrder := s.decodeSubmit, phase := Decoding)],
       decodeSubmit := s.decodeSubmit + 1,
       trace := s.trace.(given := s.trace.given + [Frame(surface, op.pts, op.user)],
                         slotOf := s.trace.slotOf + [i],
                         stale := s.trace.stale + [op.preprocessed]))
  }

  function SubmitDecodeStep(
      s: State, draining: bool, pts: int, user: int, answer: DecodeAnswer, consumed: nat): Outcome
  {
    var i := First(s.ops, WantFree, 0);
    if i == |s.ops| then Outcome(s, false, false, false)
    else
      var op := s.ops[i].(surface := None, decodeSync := false, encodeSync := false, ctrl := None,
                          pts := pts, user := user);
      var t := s.(ops := s.ops[i := op],
                  inputLen := if draining then s.inputLen
                              else if consumed > s.inputLen then 0 else s.inputLen - consumed);
      match answer
      case DecodeFrame(surface, hasSync) => Outcome(TakeFrame(t, i, surface, hasSync), true, false, false)
      case DecodeMoreData => Outcome(t, false, false, true)
      case DecodeError => Outcome(t, false, true, false)
      case _ => Outcome(t, false, false, false)
  }

  function Perform(s: State, e: Event): Outcome {
    match e
    case Append(n) => Outcome(s.(inputLen := s.inputLen + n), false, false, false)
    case SyncEncode(a, bits) => SyncEncodeStep(s, a, bits)
    case SyncDecode(a, fails) => SyncDecodeStep(s, a, fails)
    case SubmitEncode(p, a) => SubmitEncodeStep(s, p, a)
    case SubmitDecode(d, pts, user, a, n) => SubmitDecodeStep(s, d, pts, user, a, n)
    case DrainOutput(bits) => Outcome(Emit(s, bits, 0, 0, None), false, false, false)
  }

  function Step(s: State, e: Event): State {
    Perform(s, e).state
  }

  function Run(s: State, es: seq<Event>): State {
    if es == [] then s else Step(Run(s, es[..|es| - 1]), es[|es| - 1])
  }

  lemma {:induction false} RunConcat(s: State, es: seq<Event>, fs: seq<Event>)
    ensures Run(s, es + fs) == Run(Run(s, es), fs)
    decreases |fs|
  {
    if fs == [] {
      assert es + fs == es;
    } else {
      var n := |es + fs| - 1;
      assert (es + fs)[..n] == es + fs[..|fs| - 1];
      RunConcat(s, es, fs[..|fs| - 1]);
    }
  }

  lemma RunAppend(s: State, es: seq<Event>, e: Event)
    ensures Run(s, es + [e]) == Step(Run(s, es), e)
  {
    assert (es + [e])[..|es|] == es;
  }

  function Depth(asyncDepth: nat): nat {
    if asyncDepth > 1 then asyncDepth else 1
  }

  /** State after encoder initialisation with the negotiated asynchronous depth. */
  function Init(asyncDepth: nat): State {
    State(seq(Depth(asyncDepth), _ => FreshOp()), seq(asyncDepth + 4, _ => false), 0, 0, 0, 0, 0, 0, 0,
          Trace([], [], [], [], 0, [], [], [], [], [], [], [], [], 0, 0, false, false, 0, 0))
  }
}
