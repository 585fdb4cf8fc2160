/** What the calls of a run amount to, counted from the events themselves: the frames taken with
    the metadata of their calls, the input left, the bitstreams of completed encodes, what the
    encoder answered, and the syncs that had to be waited for. */
module RouteCalls {
  import opened Basics
  import opened RouteModel
  import opened RouteLedger
  import Outputs = RouteOutputs

  /** There is a slot in the phase, with the order when one is asked for. */
  predicate HasFree(s: State) {
    exists i :: 0 <= i < |s.ops| && s.ops[i].phase == Free
  }

  // ----- frames and input

  /** A decode call takes a frame exactly when there is a slot for it and the decoder gives one;
      the frame carries the surface of the answer and the metadata of the call. */
  function TakenBy(s: State, e: Event): seq<Frame> {
    if e.SubmitDecode? && e.decode.DecodeFrame? && HasFree(s) then [Frame(e.decode.surface, e.pts, e.user)] else []
  }

  function TakenFrames(asyncDepth: nat, es: seq<Event>): seq<Frame> {
    if es == [] then []
    else
      var before := es[..|es| - 1];
      TakenFrames(asyncDepth, before) + TakenBy(Run(Init(asyncDepth), before), es[|es| - 1])
  }

  /** Input grows by what is appended; a decode call that is not draining uses some of it up. */
  function InputAfter(s: State, len: nat, e: Event): nat {
    match e
    case Append(n) => len + n
    case SubmitDecode(draining, _, _, _, consumed) =>
      if draining || !HasFree(s) then len else if consumed <= len then len - consumed else 0
    case _ => len
  }

  function InputLeft(asyncDepth: nat, es: seq<Event>): nat {
    if es == [] then 0
    else
      var before := es[..|es| - 1];
      InputAfter(Run(Init(asyncDepth), before), InputLeft(asyncDepth, before), es[|es| - 1])
  }

  lemma SubmitDecodeCalls(s: State, e: Event)
    requires e.SubmitDecode?
    ensures Step(s, e).trace.given == s.trace.given + TakenBy(s, e)
    ensures Step(s, e).inputLen == InputAfter(s, s.inputLen, e)
    ensures Perform(s, e).progressed <==> e.decode.DecodeFrame? && HasFree(s)
    ensures Perform(s, e).threw <==> e.decode.DecodeError? && HasFree(s)
    ensures Perform(s, e).needMore <==> e.decode.DecodeMoreData? && HasFree(s)
  {
    var i := First(s.ops, WantFree, 0);
    if i < |s.ops| {
      assert Matches(s.ops[i], WantFree) && HasFree(s);
    } else {
      assert forall j :: 0 <= j < |s.ops| ==> !Matches(s.ops[j], WantFree);
    }
  }

  lemma SyncTakesNothing(s: State, e: Event)
    requires e.SyncEncode? || e.SyncDecode?
    ensures Step(s, e).trace.given == s.trace.given && Step(s, e).inputLen == s.inputLen
  {
    hide First;
  }

  /** Preparing touches no other slot, and neither phase nor order nor sync of its own. */
  lemma PrepareOthers(s: State, i: nat, p: Prepare)
    requires i < |s.ops|
    ensures var t := PrepareFrame(s, i, p).state;
            && |t.ops| == |s.ops| && t.decodeOut == s.decodeOut && t.decodeSubmit == s.decodeSubmit
            && t.encodeSubmit == s.encodeSubmit && t.encodeOut == s.encodeOut
            && t.ops[i].phase == s.ops[i].phase && t.trace.given == s.trace.given && t.inputLen == s.inputLen
            && forall x :: 0 <= x < |s.ops| && x != i ==> t.ops[x] == s.ops[x]
  {
    hide Acquire, FirstUnused, ReleaseCtrl;
  }

  lemma EncodeTakesNothing(s: State, e: Event)
    requires e.SubmitEncode?
    ensures Step(s, e).trace.given == s.trace.given && Step(s, e).inputLen == s.inputLen
  {
    hide PrepareFrame, ReleaseCtrl;
    var sel := Oldest(s.ops, |s.ops|);
    if sel.Some? { PrepareOthers(s, sel.value, e.prepare); }
  }

  lemma CallsStep(s: State, e: Event)
    ensures Step(s, e).trace.given == s.trace.given + TakenBy(s, e)
    ensures Step(s, e).inputLen == InputAfter(s, s.inputLen, e)
  {
    hide HasFree;
    match e
    case SubmitDecode(_, _, _, _, _) => SubmitDecodeCalls(s, e);
    case SubmitEncode(_, _) => EncodeTakesNothing(s, e);
    case SyncEncode(_, _) => SyncTakesNothing(s, e);
    case SyncDecode(_, _) => SyncTakesNothing(s, e);
    case _ =>
  }

  /** In every run the frames of the route are exactly those the decoder gave to its calls, in
      order, each with the time stamp and user pointer of its call; and the input that is left
      is what was appended less what the calls that were not draining consumed. */
  lemma {:induction false} CallsTheorem(asyncDepth: nat, es: seq<Event>)
    ensures var s := Run(Init(asyncDepth), es);
            s.trace.given == TakenFrames(asyncDepth, es) && s.inputLen == InputLeft(asyncDepth, es)
    decreases |es|
  {
    if es != [] {
      hide Step, TakenBy, InputAfter;
      var before := es[..|es| - 1];
      CallsTheorem(asyncDepth, before);
      CallsStep(Run(Init(asyncDepth), before), es[|es| - 1]);
    }
  }

  // ----- bitstreams

  /** The encode of slot `i` is in turn. */
  predicate EncodeInTurn(s: State, i: nat) {
    i < |s.ops| && s.ops[i].phase == Encoding && s.ops[i].encodeOrder == s.encodeOut
  }

  predicate DecodeInTurn(s: State, i: nat) {
    i < |s.ops| && s.ops[i].phase == Decoding && s.ops[i].decodeOrder == s.decodeOut
  }

  /** An encode in turn completes when it has no sync point or its sync is answered "done". */
  ghost predicate Completes(s: State, e: Event) {
    e.SyncEncode? && exists i: nat :: EncodeInTurn(s, i) && (!s.ops[i].encodeSync || e.sync.SyncDone?)
  }

  ghost function BitsBy(s: State, e: Event): seq<Bits> {
    if Completes(s, e) then [e.bits] else []
  }

  ghost function CompletedBits(asyncDepth: nat, es: seq<Event>): seq<Bits> {
    if es == [] then []
    else
      var before := es[..|es| - 1];
      CompletedBits(asyncDepth, before) + BitsBy(Run(Init(asyncDepth), before), es[|es| - 1])
  }

  /** What draining the encoder gave: data, time stamp and user pointer of each packet. */
  datatype Drained = Drained(data: seq<Byte>, pts: int, user: int)

  /** Drained packets carry their bitstream's time stamp, else 0, and no user pointer. */
  function DrainedBy(e: Event): seq<Drained> {
    if e.DrainOutput? && e.bits.data != []
    then [Drained(e.bits.data, if e.bits.stamp == None then 0 else e.bits.stamp.value, 0)] else []
  }

  function DrainedPackets(es: seq<Event>): seq<Drained> {
    if es == [] then [] else DrainedPackets(es[..|es| - 1]) + DrainedBy(es[|es| - 1])
  }

  /** The packets that no completed encode produced. */
  function FromDrain(outputs: seq<Output>): seq<Drained> {
    if outputs == [] then []
    else
      var p := outputs[|outputs| - 1];
      FromDrain(outputs[..|outputs| - 1]) + if p.origin == None then [Drained(p.data, p.pts, p.user)] else []
  }

  lemma FromDrainAppend(outputs: seq<Output>, p: Output)
    ensures FromDrain(outputs + [p]) ==
            FromDrain(outputs) + if p.origin == None then [Drained(p.data, p.pts, p.user)] else []
  {
    assert (outputs + [p])[..|outputs|] == outputs;
  }

  lemma EmitDrains(s: State, bits: Bits, pts: int, user: int, origin: Option<nat>)
    ensures FromDrain(Emit(s, bits, pts, user, origin).trace.outputs) ==
            FromDrain(s.trace.outputs) +
            if bits.data == [] || origin.Some? then []
            else [Drained(bits.data, if bits.stamp == None then pts else bits.stamp.value, user)]
  {
    var t := Emit(s, bits, pts, user, origin);
    if bits.data != [] { FromDrainAppend(s.trace.outputs, t.trace.outputs[|s.trace.outputs|]); }
  }

  lemma SyncEncodeBits(s: State, e: Event)
    requires Ledger(s) && e.SyncEncode?
    ensures Step(s, e).trace.bits == s.trace.bits + BitsBy(s, e)
    ensures FromDrain(Step(s, e).trace.outputs) == FromDrain(s.trace.outputs)
    ensures Perform(s, e).progressed <==> Completes(s, e)
  {
    hide Ledger, Emit, FromDrain;
    var i := First(s.ops, WantEncoding(s.encodeOut), 0);
    if i < |s.ops| {
      assert EncodeInTurn(s, i);
      EmitDrains(s, e.bits, s.ops[i].pts, s.ops[i].user, Some(s.encodeOut));
      EmitKeepsBits(s, e.bits, s.ops[i].pts, s.ops[i].user, Some(s.encodeOut));
      forall j: nat | EncodeInTurn(s, j) && j != i ensures false { OrdersDiffer(s, i, j); }
    } else {
      assert forall j :: 0 <= j < |s.ops| ==> !Matches(s.ops[j], WantEncoding(s.encodeOut));
    }
  }

  lemma EmitKeepsBits(s: State, bits: Bits, pts: int, user: int, origin: Option<nat>)
    ensures Emit(s, bits, pts, user, origin).trace.bits == s.trace.bits
  {
  }

  lemma BitsStep(s: State, e: Event)
    requires Ledger(s)
    ensures Step(s, e).trace.bits == s.trace.bits + BitsBy(s, e)
    ensures FromDrain(Step(s, e).trace.outputs) == FromDrain(s.trace.outputs) + DrainedBy(e)
  {
    hide Ledger, Completes, FromDrain;
    match e
    case SyncEncode(_, _) => SyncEncodeBits(s, e);
    case DrainOutput(bits) =>
      EmitDrains(s, bits, 0, 0, None);
      EmitKeepsBits(s, bits, 0, 0, None);
      assert !Completes(s, e) by { NotCompleting(s, e); }
    case _ =>
      Outputs.SilentStep(s, e);
      NotCompleting(s, e);
  }

  lemma NotCompleting(s: State, e: Event)
    requires !e.SyncEncode?
    ensures !Completes(s, e)
  {
  }

  /** In every run the completed encodes left exactly the bitstreams of the syncs that completed
      them, and the packets that draining emitted are exactly its non-empty bitstreams, in order,
      with their own time stamp or 0 and without a user pointer. */
  lemma {:induction false} BitsTheorem(asyncDepth: nat, es: seq<Event>)
    ensures var tr := Run(Init(asyncDepth), es).trace;
            tr.bits == CompletedBits(asyncDepth, es) && FromDrain(tr.outputs) == DrainedPackets(es)
    decreases |es|
  {
    if es != [] {
      hide Step, BitsBy, DrainedBy, FromDrain, Ledger;
      var before := es[..|es| - 1];
      BitsTheorem(asyncDepth, before);
      LedgerInit(asyncDepth);
      LedgerRun(Init(asyncDepth), before);
      BitsStep(Run(Init(asyncDepth), before), es[|es| - 1]);
    } else {
      assert FromDrain([]) == [];
    }
  }

  // ----- what the encoder answered

  predicate PreparationThrows(op: Op, p: Prepare) {
    || p.control.UnmapFails?
    || (!op.preprocessed && p.filterFails)
    || (p.control.ControlKept? && p.reuseFails)
  }

  /** The next frame reaches the encoder: it has a control already, or preparing it succeeds. */
  ghost predicate Offered(s: State, e: Event) {
    e.SubmitEncode? && exists i: nat ::
      && i < |s.ops| && s.ops[i].phase == Decoded && s.ops[i].decodeOrder == |s.trace.handed|
      && (s.ops[i].ctrl.Some? || !PreparationThrows(s.ops[i], e.prepare))
  }

  /** An encoder that is not busy settles the frame. */
  ghost function VerdictBy(s: State, e: Event): seq<EncodeAnswer> {
    if Offered(s, e) && !e.encode.EncodeBusy? then [e.encode] else []
  }

  ghost function Verdicts(asyncDepth: nat, es: seq<Event>): seq<EncodeAnswer> {
    if es == [] then []
    else
      var before := es[..|es| - 1];
      Verdicts(asyncDepth, before) + VerdictBy(Run(Init(asyncDepth), before), es[|es| - 1])
  }

  /** The frames the encoder accepted, and how many it absorbed and rejected. */
  function AcceptedIn(vs: seq<EncodeAnswer>): seq<nat> {
    if vs == [] then []
    else
      var n := |vs| - 1;
      AcceptedIn(vs[..n]) + if vs[n].EncodeAccepted? then [n] else []
  }

  function CountIn(vs: seq<EncodeAnswer>, answer: EncodeAnswer): nat {
    multiset(vs)[answer]
  }

  /** The verdicts account for the frames handed on. */
  ghost predicate Settled(s: State, vs: seq<EncodeAnswer>) {
    && |s.trace.handed| == |vs| && s.trace.accepted == AcceptedIn(vs)
    && s.trace.absorbed == CountIn(vs, EncodeMoreData) && s.trace.rejected == CountIn(vs, EncodeError)
  }

  lemma SettledNext(s: State, t: State, vs: seq<EncodeAnswer>, v: EncodeAnswer)
    requires Settled(s, vs)
    requires |t.trace.handed| == |s.trace.handed| + 1
    requires t.trace.accepted == s.trace.accepted + (if v.EncodeAccepted? then [|s.trace.handed|] else [])
    requires t.trace.absorbed == s.trace.absorbed + B2N(v.EncodeMoreData?)
    requires t.trace.rejected == s.trace.rejected + B2N(v.EncodeError?)
    ensures Settled(t, vs + [v])
  {
    assert (vs + [v])[..|vs|] == vs;
  }

  lemma EncodeSettles(s: State, i: nat, a: EncodeAnswer)
    requires i < |s.ops|
    ensures var t := Encode(s, i, a).state.trace;
            && |t.handed| == |s.trace.handed| + B2N(!a.EncodeBusy?)
            && t.accepted == s.trace.accepted + (if a.EncodeAccepted? then [s.ops[i].decodeOrder] else [])
            && t.absorbed == s.trace.absorbed + B2N(a.EncodeMoreData?)
            && t.rejected == s.trace.rejected + B2N(a.EncodeError?)
  {
  }

  lemma PrepareSettles(s: State, i: nat, p: Prepare)
    requires i < |s.ops|
    ensures var o := PrepareFrame(s, i, p);
            && |o.state.ops| == |s.ops| && o.state.ops[i].decodeOrder == s.ops[i].decodeOrder
            && o.state.trace.handed == s.trace.handed && o.state.trace.accepted == s.trace.accepted
            && o.state.trace.absorbed == s.trace.absorbed && o.state.trace.rejected == s.trace.rejected
            && o.threw == PreparationThrows(s.ops[i], p) && !o.progressed
  {
    hide Acquire, FirstUnused, ReleaseCtrl;
  }

  lemma OfferedIff(s: State, e: Event)
    requires Ledger(s) && e.SubmitEncode?
    ensures var sel := Oldest(s.ops, |s.ops|);
            Offered(s, e) <==>
            sel.Some? && (s.ops[sel.value].ctrl.Some? || !PreparationThrows(s.ops[sel.value], e.prepare))
  {
    hide Ledger, PreparationThrows;
    var sel := Oldest(s.ops, |s.ops|);
    OldestIsNext(s);
    if sel.Some? {
      forall i: nat | i < |s.ops| && s.ops[i].phase == Decoded && s.ops[i].decodeOrder == |s.trace.handed|
        ensures i == sel.value
      {
        if i != sel.value { OrdersDiffer(s, sel.value, i); }
      }
    }
  }

  lemma SettledSubmitEncode(s: State, e: Event, vs: seq<EncodeAnswer>)
    requires Ledger(s) && Settled(s, vs) && e.SubmitEncode?
    ensures Settled(Step(s, e), vs + VerdictBy(s, e))
    ensures Perform(s, e).progressed <==> Offered(s, e) && (e.encode.EncodeMoreData? || e.encode.EncodeAccepted?)
  {
    hide Ledger, PrepareFrame, Encode, PreparationThrows, Offered;
    var sel := Oldest(s.ops, |s.ops|);
    OfferedIff(s, e);
    OldestIsNext(s);
    assert vs + [] == vs;
    if sel.Some? {
      var i := sel.value;
      PrepareSettles(s, i, e.prepare);
      var u := if s.ops[i].ctrl.Some? then s else PrepareFrame(s, i, e.prepare).state;
      EncodeSettles(u, i, e.encode);
      EncodeProgress(u, i, e.encode);
      if Offered(s, e) && !e.encode.EncodeBusy? { SettledNext(s, Step(s, e), vs, e.encode); }
    }
  }

  lemma EncodeProgress(s: State, i: nat, a: EncodeAnswer)
    requires i < |s.ops|
    ensures Encode(s, i, a).progressed <==> a.EncodeMoreData? || a.EncodeAccepted?
  {
  }

  lemma SettledOther(s: State, e: Event, vs: seq<EncodeAnswer>)
    requires Settled(s, vs) && !e.SubmitEncode?
    ensures Settled(Step(s, e), vs)
  {
    hide First, AcceptedIn, CountIn;
  }

  /** In every run each frame handed on has one verdict of the encoder, in order; the accepted
      frames are exactly those whose verdict was acceptance, and as many were absorbed and rejected
      as the encoder absorbed and rejected. */
  lemma {:induction false} VerdictTheorem(asyncDepth: nat, es: seq<Event>)
    ensures Settled(Run(Init(asyncDepth), es), Verdicts(asyncDepth, es))
    decreases |es|
  {
    if es != [] {
      hide Step, Settled, VerdictBy, Ledger;
      var before := es[..|es| - 1];
      var s, vs := Run(Init(asyncDepth), before), Verdicts(asyncDepth, before);
      VerdictTheorem(asyncDepth, before);
      LedgerInit(asyncDepth);
      LedgerRun(Init(asyncDepth), before);
      if es[|es| - 1].SubmitEncode? {
        SettledSubmitEncode(s, es[|es| - 1], vs);
      } else {
        SettledOther(s, es[|es| - 1], vs);
        NoVerdict(s, es[|es| - 1]);
        assert vs + [] == vs;
      }
    }
  }

  lemma NoVerdict(s: State, e: Event)
    requires !e.SubmitEncode?
    ensures VerdictBy(s, e) == []
  {
  }

  // ----- waiting for the device

  /** No decode sync of the run is answered "done". */
  ghost predicate NeverDone(es: seq<Event>) {
    forall k :: 0 <= k < |es| && es[k].SyncDecode? ==> !es[k].sync.SyncDone?
  }

  /** Frame `k` was taken, is not ready, and its slot still waits for the device. */
  ghost predicate StillRunning(s: State, k: nat) {
    && s.decodeOut <= k < s.decodeSubmit
    && forall i :: 0 <= i < |s.ops| && s.ops[i].phase == Decoding && s.ops[i].decodeOrder == k ==> s.ops[i].decodeSync
  }

  lemma RunningStep(s: State, e: Event, k: nat)
    requires StillRunning(s, k) && (e.SyncDecode? ==> !e.sync.SyncDone?)
    ensures StillRunning(Step(s, e), k)
  {
    hide First;
    match e
    case SubmitEncode(_, _) => RunningEncode(s, e, k);
    case SyncDecode(a, fails) => RunningSync(s, a, fails, k);
    case _ =>
  }

  lemma RunningSync(s: State, a: SyncAnswer, fails: bool, k: nat)
    requires StillRunning(s, k) && !a.SyncDone?
    ensures StillRunning(SyncDecodeStep(s, a, fails).state, k)
  {
    var i := First(s.ops, WantDecoding(s.decodeOut), 0);
    if i < |s.ops| && s.decodeOut == k { assert s.ops[i].decodeSync; }
  }

  lemma RunningEncode(s: State, e: Event, k: nat)
    requires StillRunning(s, k) && e.SubmitEncode?
    ensures StillRunning(Step(s, e), k)
  {
    hide PrepareFrame, ReleaseCtrl;
    var sel := Oldest(s.ops, |s.ops|);
    if sel.Some? { PrepareOthers(s, sel.value, e.prepare); }
  }

  lemma {:induction false} RunningRun(s: State, fs: seq<Event>, k: nat)
    requires StillRunning(s, k) && NeverDone(fs)
    ensures StillRunning(Run(s, fs), k)
    decreases |fs|
  {
    if fs != [] {
      hide Step, StillRunning;
      RunningRun(s, fs[..|fs| - 1], k);
      RunningStep(Run(s, fs[..|fs| - 1]), fs[|fs| - 1], k);
    }
  }

  /** A frame taken with a sync point is not ready before a decode sync is answered "done",
      however long the run goes on. */
  lemma FrameWaits(asyncDepth: nat, es: seq<Event>, e: Event, fs: seq<Event>)
    requires var s := Run(Init(asyncDepth), es);
             TakenBy(s, e) != [] && e.decode.hasSync
    requires NeverDone(fs)
    ensures var s := Run(Init(asyncDepth), es);
            Run(Init(asyncDepth), es + [e] + fs).decodeOut <= s.decodeSubmit
  {
    hide Ledger, Run;
    var s := Run(Init(asyncDepth), es);
    LedgerInit(asyncDepth);
    LedgerRun(Init(asyncDepth), es);
    TakenRuns(s, e);
    RunAppend(Init(asyncDepth), es, e);
    RunConcat(Init(asyncDepth), es + [e], fs);
    RunningRun(Step(s, e), fs, s.decodeSubmit);
  }

  lemma TakenRuns(s: State, e: Event)
    requires Ledger(s) && TakenBy(s, e) != [] && e.decode.hasSync
    ensures StillRunning(Step(s, e), s.decodeSubmit)
  {
    var j :| 0 <= j < |s.ops| && s.ops[j].phase == Free;
    assert Matches(s.ops[j], WantFree);
    forall x | 0 <= x < |s.ops| && s.ops[x].phase == Decoding ensures s.ops[x].decodeOrder < s.decodeSubmit {
      assert Justified(s, x);
    }
  }

  ghost predicate NeverEncoded(es: seq<Event>) {
    forall k :: 0 <= k < |es| && es[k].SyncEncode? ==> !es[k].sync.SyncDone?
  }

  /** Encode `j` was accepted, is not complete, and its slot still waits for the device. */
  ghost predicate StillEncoding(s: State, j: nat) {
    && s.encodeOut <= j < s.encodeSubmit
    && forall i :: 0 <= i < |s.ops| && s.ops[i].phase == Encoding && s.ops[i].encodeOrder == j ==> s.ops[i].encodeSync
  }

  lemma EncodingStep(s: State, e: Event, j: nat)
    requires StillEncoding(s, j) && (e.SyncEncode? ==> !e.sync.SyncDone?)
    ensures StillEncoding(Step(s, e), j)
  {
    hide First;
    match e
    case SubmitEncode(_, _) => EncodingSubmit(s, e, j);
    case SyncEncode(a, bits) => EncodingSync(s, a, bits, j);
    case _ =>
  }

  lemma EncodingSync(s: State, a: SyncAnswer, bits: Bits, j: nat)
    requires StillEncoding(s, j) && !a.SyncDone?
    ensures StillEncoding(SyncEncodeStep(s, a, bits).state, j)
  {
    var i := First(s.ops, WantEncoding(s.encodeOut), 0);
    if i < |s.ops| && s.encodeOut == j { assert s.ops[i].encodeSync; }
  }

  lemma EncodingSubmit(s: State, e: Event, j: nat)
    requires StillEncoding(s, j) && e.SubmitEncode?
    ensures StillEncoding(Step(s, e), j)
  {
    hide PrepareFrame, ReleaseCtrl;
    var sel := Oldest(s.ops, |s.ops|);
    if sel.Some? { PrepareOthers(s, sel.value, e.prepare); }
  }

  lemma {:induction false} EncodingRun(s: State, fs: seq<Event>, j: nat)
    requires StillEncoding(s, j) && NeverEncoded(fs)
    ensures StillEncoding(Run(s, fs), j)
    decreases |fs|
  {
    if fs != [] {
      hide Step, StillEncoding;
      EncodingRun(s, fs[..|fs| - 1], j);
      EncodingStep(Run(s, fs[..|fs| - 1]), fs[|fs| - 1], j);
    }
  }

  lemma AcceptedRuns(s: State, e: Event)
    requires Ledger(s) && e.SubmitEncode? && Offered(s, e) && e.encode.EncodeAccepted? && e.encode.hasSync
    ensures StillEncoding(Step(s, e), s.encodeSubmit)
  {
    hide ReleaseCtrl, PreparationThrows, Offered, PrepareFrame, Located, Surfaced, Delivered;
    OfferedIff(s, e);
    var i := Oldest(s.ops, |s.ops|).value;
    PrepareSettles(s, i, e.prepare);
    PrepareOthers(s, i, e.prepare);
    forall x | 0 <= x < |s.ops| && s.ops[x].phase == Encoding ensures s.ops[x].encodeOrder < s.encodeSubmit {
      SlotHolds(s, x);
    }
  }

  /** A frame accepted with a sync point does not complete before an encode sync is answered
      "done", however long the run goes on. */
  lemma EncodeWaits(asyncDepth: nat, es: seq<Event>, e: Event, fs: seq<Event>)
    requires e.SubmitEncode? && Offered(Run(Init(asyncDepth), es), e)
    requires e.encode.EncodeAccepted? && e.encode.hasSync
    requires NeverEncoded(fs)
    ensures var s := Run(Init(asyncDepth), es);
            Run(Init(asyncDepth), es + [e] + fs).encodeOut <= s.encodeSubmit
  {
    hide Ledger, Run, Offered;
    var s := Run(Init(asyncDepth), es);
    LedgerInit(asyncDepth);
    LedgerRun(Init(asyncDepth), es);
    AcceptedRuns(s, e);
    assert s.encodeOut <= s.encodeSubmit;
    RunAppend(Init(asyncDepth), es, e);
    RunConcat(Init(asyncDepth), es + [e], fs);
    EncodingRun(Step(s, e), fs, s.encodeSubmit);
  }

  // ----- syncs that fail

  /** Only a warning or an error on a sync point that is asked for loses a frame. */
  lemma DecodeLossIff(s: State, e: Event)
    requires Ledger(s) && e.SyncDecode?
    ensures var fails := exists i: nat :: DecodeInTurn(s, i) && s.ops[i].decodeSync
                                          && (e.sync.SyncWarning? || e.sync.SyncError?);
            && Step(s, e).trace.decodeLost == (s.trace.decodeLost || fails)
            && (fails ==> Perform(s, e).threw == e.sync.SyncError?)
  {
    hide Ledger;
    var i := First(s.ops, WantDecoding(s.decodeOut), 0);
    if i < |s.ops| {
      assert DecodeInTurn(s, i);
      forall j: nat | DecodeInTurn(s, j) ensures j == i { if j != i { OrdersDiffer(s, i, j); } }
    } else {
      assert forall j :: 0 <= j < |s.ops| ==> !Matches(s.ops[j], WantDecoding(s.decodeOut));
    }
  }

  lemma EncodeLossIff(s: State, e: Event)
    requires Ledger(s) && e.SyncEncode?
    ensures var fails := exists i: nat :: EncodeInTurn(s, i) && s.ops[i].encodeSync
                                          && (e.sync.SyncWarning? || e.sync.SyncError?);
            && Step(s, e).trace.encodeLost == (s.trace.encodeLost || fails)
            && (fails ==> Perform(s, e).threw == e.sync.SyncError?)
  {
    hide Ledger;
    var i := First(s.ops, WantEncoding(s.encodeOut), 0);
    if i < |s.ops| {
      assert EncodeInTurn(s, i);
      forall j: nat | EncodeInTurn(s, j) ensures j == i { if j != i { OrdersDiffer(s, i, j); } }
    } else {
      assert forall j :: 0 <= j < |s.ops| ==> !Matches(s.ops[j], WantEncoding(s.encodeOut));
    }
  }

  // ----- what the device was asked

  /** A question to the device, with its answer: a decode call, a sync, an encode call, reading the
      bitstream of a completed encode, the decision about a control, unmapping a surface. */
  datatype Ask =
    | DecodeAsked(draining: bool, decode: DecodeAnswer, consumed: nat)
    | SyncAsked(sync: SyncAnswer)
    | EncodeAsked(encode: EncodeAnswer)
    | BitsRead(bits: Bits)
    | ControlAsked(control: Control)
    | UnmapAsked(fails: bool)

  /** Syncing a slot: it is asked for when it has a sync point, and when it is done more is read. */
  function SyncAsks(waits: bool, a: SyncAnswer, after: seq<Ask>): seq<Ask> {
    (if waits then [SyncAsked(a)] else []) + (if !waits || a.SyncDone? then after else [])
  }

  /** Preparing a slot: its control, unmapping after preprocessing unless its flag is set, and
      unmapping after static reuse when a control is kept; a failure ends it. */
  function PrepareAsks(flag: bool, p: Prepare): seq<Ask> {
    if p.control.UnmapFails? then [ControlAsked(p.control)]
    else
      [ControlAsked(p.control)]
      + (if flag then [] else [UnmapAsked(p.filterFails)])
      + (if p.control.ControlKept? && (flag || !p.filterFails) then [UnmapAsked(p.reuseFails)] else [])
  }

  function EncodeAsks(op: Op, p: Prepare, a: EncodeAnswer): seq<Ask> {
    (if op.ctrl.Some? then [] else PrepareAsks(op.preprocessed, p))
    + (if op.ctrl.Some? || !PreparationThrows(op, p) then [EncodeAsked(a)] else [])
  }

  /** What a step asks, in order. */
  function AskedBy(s: State, e: Event): seq<Ask> {
    match e
    case SubmitDecode(draining, _, _, a, n) => if HasFree(s) then [DecodeAsked(draining, a, n)] else []
    case SyncEncode(a, bits) =>
      var i := First(s.ops, WantEncoding(s.encodeOut), 0);
      if i == |s.ops| then [] else SyncAsks(s.ops[i].encodeSync, a, [BitsRead(bits)])
    case SyncDecode(a, fails) =>
      var i := First(s.ops, WantDecoding(s.decodeOut), 0);
      if i == |s.ops| then []
      else SyncAsks(s.ops[i].decodeSync, a, if s.ops[i].surface.Some? then [UnmapAsked(fails)] else [])
    case SubmitEncode(p, a) =>
      var sel := Oldest(s.ops, |s.ops|);
      if sel.None? then [] else EncodeAsks(s.ops[sel.value], p, a)
    case _ => []
  }

  /** Everything a run asked the device, with the answers, in order. */
  function AskedIn(asyncDepth: nat, es: seq<Event>): seq<Ask> {
    if es == [] then []
    else
      var before := es[..|es| - 1];
      AskedIn(asyncDepth, before) + AskedBy(Run(Init(asyncDepth), before), es[|es| - 1])
  }

  lemma AskedAppend(asyncDepth: nat, es: seq<Event>, e: Event)
    ensures AskedIn(asyncDepth, es + [e]) == AskedIn(asyncDepth, es) + AskedBy(Run(Init(asyncDepth), es), e)
  {
    hide AskedBy;
    assert (es + [e])[..|es|] == es;
  }

  // ----- used-up input

  /** Without new input, input that is used up stays so. */
  lemma {:induction false} NoneLeft(asyncDepth: nat, es: seq<Event>, n: nat, m: nat)
    requires n <= m <= |es| && forall k :: n <= k < m ==> !es[k].Append?
    requires Run(Init(asyncDepth), es[..n]).inputLen == 0
    ensures Run(Init(asyncDepth), es[..m]).inputLen == 0
    decreases m
  {
    hide Step, Run, TakenBy, HasFree, Init;
    if n < m {
      NoneLeft(asyncDepth, es, n, m - 1);
      var before, e := es[..m - 1], es[m - 1];
      assert es[..m] == before + [e];
      RunAppend(Init(asyncDepth), before, e);
      CallsStep(Run(Init(asyncDepth), before), e);
    }
  }
}
