/** What leaves a route: the packets emitted in every run, their numbers, and where each comes
    from. */
module RouteOutputs {
  import opened Basics
  import opened RouteModel
  import opened RouteLedger

  /** The frame whose encode completed as number `j`. */
  function FrameOfEncode(s: State, j: nat): Frame
    requires Bounds(s) && j < s.encodeOut
  {
    s.trace.given[s.trace.accepted[j]]
  }

  /** Packet `n` carries number `n`; unless draining produced it, it is the non-empty bitstream
      of one completed encode with the user pointer of its frame, and the frame's time stamp
      when the bitstream has none. */
  ghost predicate Tells(s: State, n: nat)
    requires Bounds(s) && n < |s.trace.outputs|
  {
    var p := s.trace.outputs[n];
    && p.dts == n && p.data != []
    && (p.origin.Some? ==>
          && p.origin.value < s.encodeOut
          && var b := s.trace.bits[p.origin.value];
          var f := FrameOfEncode(s, p.origin.value);
          p.data == b.data && p.user == f.user && p.pts == if b.stamp.Some? then b.stamp.value else f.pts)
  }

  ghost predicate Sent(outputs: seq<Output>, j: nat) {
    exists n :: 0 <= n < |outputs| && outputs[n].origin == Some(j)
  }

  ghost predicate InTurn(outputs: seq<Output>) {
    forall m, n :: 0 <= m < n < |outputs| && outputs[m].origin.Some? && outputs[n].origin.Some? ==>
                     outputs[m].origin.value < outputs[n].origin.value
  }

  ghost predicate Emitted(s: State) {
    && Bounds(s)
    && s.outputPackets == |s.trace.outputs|
    && (forall n :: 0 <= n < |s.trace.outputs| ==> Tells(s, n))
    && InTurn(s.trace.outputs)
    && (forall j :: 0 <= j < s.encodeOut && s.trace.bits[j].data != [] ==> Sent(s.trace.outputs, j))
  }

  /** A step without output. */
  lemma EmittedStays(s: State, t: State)
    requires Emitted(s) && Bounds(t)
    requires s.trace.given <= t.trace.given && s.trace.accepted <= t.trace.accepted
    requires t.encodeOut == s.encodeOut && t.outputPackets == s.outputPackets
    requires t.trace.bits == s.trace.bits && t.trace.outputs == s.trace.outputs
    ensures Emitted(t)
  {
    forall n | 0 <= n < |t.trace.outputs| ensures Tells(t, n) {
      assert Tells(s, n);
    }
  }

  lemma SentLater(outputs: seq<Output>, p: Output, j: nat)
    requires Sent(outputs, j) || p.origin == Some(j)
    ensures Sent(outputs + [p], j)
  {
    var all := outputs + [p];
    if Sent(outputs, j) {
      var n :| 0 <= n < |outputs| && outputs[n].origin == Some(j);
      assert all[n] == outputs[n];
    } else {
      assert all[|outputs|] == p;
    }
  }

  /** One more packet, or none for an empty bitstream, with an encode that completes or not. */
  lemma EmittedPush(s: State, t: State, bits: Bits, frame: Frame, done: bool)
    requires Emitted(s) && Bounds(t)
    requires s.trace.given <= t.trace.given && t.trace.accepted == s.trace.accepted
    requires t.encodeOut == s.encodeOut + B2N(done)
    requires t.trace.bits == if done then s.trace.bits + [bits] else s.trace.bits
    requires done ==> frame == FrameOfEncode(t, s.encodeOut)
    requires var e := Emit(s, bits, frame.pts, frame.user, if done then Some(s.encodeOut) else None);
             t.outputPackets == e.outputPackets && t.trace.outputs == e.trace.outputs
    ensures Emitted(t)
  {
    forall n | 0 <= n < |t.trace.outputs| ensures Tells(t, n) {
      if n < |s.trace.outputs| { assert Tells(s, n) && t.trace.outputs[n] == s.trace.outputs[n]; }
    }
    forall n | 0 <= n < |s.trace.outputs|
      ensures s.trace.outputs[n].origin.Some? ==> s.trace.outputs[n].origin.value < s.encodeOut
    {
      assert Tells(s, n);
    }
    AllSent(s, t, bits, done);
  }

  lemma AllSent(s: State, t: State, bits: Bits, done: bool)
    requires Emitted(s) && Bounds(t) && t.encodeOut == s.encodeOut + B2N(done)
    requires t.trace.bits == if done then s.trace.bits + [bits] else s.trace.bits
    requires bits.data == [] ==> t.trace.outputs == s.trace.outputs
    requires bits.data != [] ==>
               && |t.trace.outputs| == |s.trace.outputs| + 1
               && t.trace.outputs == s.trace.outputs + [t.trace.outputs[|s.trace.outputs|]]
               && (done ==> t.trace.outputs[|s.trace.outputs|].origin == Some(s.encodeOut))
    ensures forall j :: 0 <= j < t.encodeOut && t.trace.bits[j].data != [] ==> Sent(t.trace.outputs, j)
  {
    hide Tells, InTurn, Sent;
    forall j | 0 <= j < t.encodeOut && t.trace.bits[j].data != [] ensures Sent(t.trace.outputs, j) {
      if bits.data != [] {
        SentLater(s.trace.outputs, t.trace.outputs[|s.trace.outputs|], j);
      }
    }
  }

  lemma EmittedSyncEncode(s: State, answer: SyncAnswer, bits: Bits)
    requires Ledger(s) && Emitted(s) && Bounds(SyncEncodeStep(s, answer, bits).state)
    ensures Emitted(SyncEncodeStep(s, answer, bits).state)
  {
    var i, t := First(s.ops, WantEncoding(s.encodeOut), 0), SyncEncodeStep(s, answer, bits).state;
    if i < |s.ops| {
      SlotHolds(s, i);
      if t.encodeOut > s.encodeOut {
        EmittedPush(s, t, bits, s.trace.given[s.ops[i].decodeOrder], true);
      } else {
        EmittedStays(s, t);
      }
    }
  }

  lemma EmittedStep(s: State, e: Event)
    requires Ledger(s) && Emitted(s)
    ensures Emitted(Step(s, e))
  {
    LedgerStep(s, e);
    match e
    case SyncEncode(a, bits) => EmittedSyncEncode(s, a, bits);
    case DrainOutput(bits) => EmittedPush(s, Step(s, e), bits, Frame(0, 0, 0), false);
    case _ =>
      SilentStep(s, e);
      EmittedStays(s, Step(s, e));
  }

  ghost predicate Silent(s: State, t: State) {
    && s.trace.given <= t.trace.given && s.trace.accepted <= t.trace.accepted
    && t.encodeOut == s.encodeOut && t.outputPackets == s.outputPackets
    && t.trace.bits == s.trace.bits && t.trace.outputs == s.trace.outputs
  }

  lemma SyncDecodeIsSilent(s: State, a: SyncAnswer, fails: bool)
    ensures Silent(s, SyncDecodeStep(s, a, fails).state)
  {
    hide First;
  }

  lemma PrepareIsSilent(s: State, i: nat, p: Prepare)
    requires i < |s.ops|
    ensures Silent(s, PrepareFrame(s, i, p).state) && |PrepareFrame(s, i, p).state.ops| == |s.ops|
  {
    hide Acquire, FirstUnused, ReleaseCtrl;
  }

  lemma EncodeIsSilent(s: State, i: nat, a: EncodeAnswer)
    requires i < |s.ops|
    ensures Silent(s, Encode(s, i, a).state)
  {
  }

  lemma SubmitEncodeIsSilent(s: State, p: Prepare, a: EncodeAnswer)
    ensures Silent(s, SubmitEncodeStep(s, p, a).state)
  {
    hide PrepareFrame, Encode;
    var sel := Oldest(s.ops, |s.ops|);
    if sel.Some? {
      PrepareIsSilent(s, sel.value, p);
      EncodeIsSilent(s, sel.value, a);
      EncodeIsSilent(PrepareFrame(s, sel.value, p).state, sel.value, a);
    }
  }

  lemma SubmitDecodeIsSilent(s: State, e: Event)
    requires e.SubmitDecode?
    ensures Silent(s, Step(s, e))
  {
    hide First;
  }

  /** Only encode syncs and the drain of the encoder emit. */
  lemma SilentStep(s: State, e: Event)
    requires !e.SyncEncode? && !e.DrainOutput?
    ensures Silent(s, Step(s, e))
  {
    match e
    case Append(_) =>
    case SyncDecode(a, fails) => SyncDecodeIsSilent(s, a, fails);
    case SubmitEncode(p, a) => SubmitEncodeIsSilent(s, p, a);
    case SubmitDecode(_, _, _, _, _) => SubmitDecodeIsSilent(s, e);
  }

  lemma {:induction false} EmittedRun(asyncDepth: nat, es: seq<Event>)
    ensures Emitted(Run(Init(asyncDepth), es))
    decreases |es|
  {
    if es != [] {
      EmittedRun(asyncDepth, es[..|es| - 1]);
      LedgerInit(asyncDepth);
      LedgerRun(Init(asyncDepth), es[..|es| - 1]);
      EmittedStep(Run(Init(asyncDepth), es[..|es| - 1]), es[|es| - 1]);
    }
  }

  /** In every run the packets carry the numbers 0, 1, 2, ...; those of completed encodes are
      exactly the non-empty bitstreams of the accepted frames, in order, each with its own
      user pointer, and with its own time stamp when the bitstream has none. */
  lemma PacketTheorem(asyncDepth: nat, es: seq<Event>)
    ensures var s := Run(Init(asyncDepth), es);
            && Bounds(s) && s.outputPackets == |s.trace.outputs|
            && (forall n :: 0 <= n < |s.trace.outputs| ==> Tells(s, n))
            && InTurn(s.trace.outputs)
            && (forall j :: 0 <= j < s.encodeOut ==> (s.trace.bits[j].data != [] <==> Sent(s.trace.outputs, j)))
  {
    EmittedRun(asyncDepth, es);
    var s := Run(Init(asyncDepth), es);
    forall j | 0 <= j < s.encodeOut && Sent(s.trace.outputs, j) ensures s.trace.bits[j].data != [] {
      var n :| 0 <= n < |s.trace.outputs| && s.trace.outputs[n].origin == Some(j);
      assert Tells(s, n);
    }
  }
}
