/** What the frame ledger means for whole runs: the order of frames, contiguous orders in each
    phase, and the effects of failed syncs and failed scene analyses. */
module RouteOrder {
  import opened RouteModel
  import opened RouteLedger

  function OrderOf(op: Op): nat {
    if op.phase == Encoding then op.encodeOrder else op.decodeOrder
  }

  ghost predicate HasOrder(s: State, phase: Phase, k: nat) {
    exists i :: 0 <= i < |s.ops| && s.ops[i].phase == phase && OrderOf(s.ops[i]) == k
  }

  /** The orders of the slots in a phase are exactly the interval [lo, hi), each once. */
  ghost predicate IsInterval(s: State, phase: Phase, lo: nat, hi: nat) {
    && (forall i :: 0 <= i < |s.ops| && s.ops[i].phase == phase ==> lo <= OrderOf(s.ops[i]) < hi)
    && (forall k :: lo <= k < hi ==> HasOrder(s, phase, k))
    && (forall i, j :: 0 <= i < j < |s.ops| && s.ops[i].phase == phase == s.ops[j].phase ==>
          OrderOf(s.ops[i]) != OrderOf(s.ops[j]))
  }

  /** In every run, with every mixture of busy, warning and error answers, the frames handed
      to the encoder are the first frames taken from the decoder, in that order, with their
      own surface, time stamp and user pointer, and the encoder accepts them in that order. */
  lemma OrderTheorem(asyncDepth: nat, es: seq<Event>)
    ensures var tr := Run(Init(asyncDepth), es).trace;
            && |tr.handed| <= |tr.given|
            && tr.handed == tr.given[..|tr.handed|]
            && (forall i, j :: 0 <= i < j < |tr.accepted| ==> tr.accepted[i] < tr.accepted[j])
            && (forall j :: 0 <= j < |tr.accepted| ==> tr.accepted[j] < |tr.handed|)
  {
    LedgerInit(asyncDepth);
    LedgerRun(Init(asyncDepth), es);
  }

  lemma DecodingInterval(s: State)
    requires Ledger(s)
    ensures IsInterval(s, Decoding, DecodingFrom(s), s.decodeSubmit)
  {
    forall i | 0 <= i < |s.ops| && s.ops[i].phase == Decoding
      ensures DecodingFrom(s) <= OrderOf(s.ops[i]) < s.decodeSubmit
    {
      assert Justified(s, i);
    }
    forall i, j | 0 <= i < j < |s.ops| && s.ops[i].phase == Decoding == s.ops[j].phase
      ensures OrderOf(s.ops[i]) != OrderOf(s.ops[j])
    {
      OrdersDiffer(s, i, j);
    }
    forall k | DecodingFrom(s) <= k < s.decodeSubmit ensures HasOrder(s, Decoding, k) {
      assert InSlot(s, k, Decoding);
    }
  }

  lemma DecodedInterval(s: State)
    requires Ledger(s)
    ensures IsInterval(s, Decoded, |s.trace.handed|, s.decodeOut)
  {
    forall i | 0 <= i < |s.ops| && s.ops[i].phase == Decoded
      ensures |s.trace.handed| <= OrderOf(s.ops[i]) < s.decodeOut
    {
      assert Justified(s, i);
    }
    forall i, j | 0 <= i < j < |s.ops| && s.ops[i].phase == Decoded == s.ops[j].phase
      ensures OrderOf(s.ops[i]) != OrderOf(s.ops[j])
    {
      OrdersDiffer(s, i, j);
    }
    forall k | |s.trace.handed| <= k < s.decodeOut ensures HasOrder(s, Decoded, k) {
      assert DecodedAt(s, k);
    }
  }

  lemma EncodingInterval(s: State)
    requires Ledger(s)
    ensures IsInterval(s, Encoding, EncodingFrom(s), s.encodeSubmit)
  {
    forall i | 0 <= i < |s.ops| && s.ops[i].phase == Encoding
      ensures EncodingFrom(s) <= OrderOf(s.ops[i]) < s.encodeSubmit
    {
      assert Justified(s, i);
    }
    forall i, j | 0 <= i < j < |s.ops| && s.ops[i].phase == Encoding == s.ops[j].phase
      ensures OrderOf(s.ops[i]) != OrderOf(s.ops[j])
    {
      OrdersDiffer(s, i, j);
    }
    forall k | EncodingFrom(s) <= k < s.encodeSubmit ensures HasOrder(s, Encoding, k) {
      assert EncodingAt(s, k);
    }
  }

  /** The orders in each phase are contiguous in every run.  A failed sync of either kind
      can happen at most once and only removes the first order of its interval. */
  lemma IntervalTheorem(asyncDepth: nat, es: seq<Event>)
    ensures var s := Run(Init(asyncDepth), es);
            && IsInterval(s, Decoding, DecodingFrom(s), s.decodeSubmit)
            && IsInterval(s, Decoded, |s.trace.handed|, s.decodeOut)
            && IsInterval(s, Encoding, EncodingFrom(s), s.encodeSubmit)
  {
    LedgerInit(asyncDepth);
    LedgerRun(Init(asyncDepth), es);
    var s := Run(Init(asyncDepth), es);
    DecodingInterval(s);
    DecodedInterval(s);
    EncodingInterval(s);
  }

  // ----- ready orders

  /** The ready order of a frame is its number plus the scene analyses that failed before it
      became ready, so ready orders increase with the frames. */
  lemma ReadyTheorem(asyncDepth: nat, es: seq<Event>)
    ensures var s := Run(Init(asyncDepth), es);
            && |s.trace.readyFails| == s.decodeOut && s.decodedReady == s.decodeOut + s.trace.sceneFails
            && (forall i :: 0 <= i < |s.ops| && s.ops[i].phase == Decoded ==>
                  s.ops[i].decodeOrder < s.decodeOut && s.ops[i].decodedOrder == ReadyOrder(s, s.ops[i].decodeOrder))
            && (forall j, k :: 0 <= j < k < s.decodeOut ==> ReadyOrder(s, j) < ReadyOrder(s, k) < s.decodedReady)
  {
    LedgerInit(asyncDepth);
    LedgerRun(Init(asyncDepth), es);
    var s := Run(Init(asyncDepth), es);
    forall i | 0 <= i < |s.ops| && s.ops[i].phase == Decoded
      ensures s.ops[i].decodeOrder < s.decodeOut && s.ops[i].decodedOrder == ReadyOrder(s, s.ops[i].decodeOrder)
    {
      SlotHolds(s, i);
    }
  }

  ghost predicate HasReady(s: State, k: nat) {
    exists i :: 0 <= i < |s.ops| && s.ops[i].phase == Decoded && s.ops[i].decodedOrder == k
  }

  /** The ready orders of the decoded slots are exactly [lo, hi). */
  ghost predicate ReadyInterval(s: State, lo: nat, hi: nat) {
    && (forall i :: 0 <= i < |s.ops| && s.ops[i].phase == Decoded ==> lo <= s.ops[i].decodedOrder < hi)
    && (forall k :: lo <= k < hi ==> HasReady(s, k))
  }

  /** No scene analysis failed between the first and the last waiting frame. */
  predicate Uninterrupted(s: State)
    requires |s.trace.readyFails| == s.decodeOut
  {
    |s.trace.handed| < s.decodeOut ==> s.trace.readyFails[|s.trace.handed|] == s.trace.readyFails[s.decodeOut - 1]
  }

  /** A step between two frames after which more analyses had failed. */
  lemma {:induction false} JumpBetween(fails: seq<nat>, lo: nat, hi: nat) returns (m: nat)
    requires lo <= hi < |fails| && fails[lo] < fails[hi]
    ensures lo <= m < hi && fails[m] < fails[m + 1]
    decreases hi - lo
  {
    if fails[lo] < fails[lo + 1] { m := lo; } else { m := JumpBetween(fails, lo + 1, hi); }
  }

  /** Ready orders of waiting frames have a gap exactly when a scene analysis failed between
      them. */
  lemma ReadyContiguousIff(asyncDepth: nat, es: seq<Event>)
    ensures var s := Run(Init(asyncDepth), es);
            && |s.trace.readyFails| == s.decodeOut
            && ((exists lo, hi :: ReadyInterval(s, lo, hi)) <==> Uninterrupted(s))
  {
    LedgerInit(asyncDepth);
    LedgerRun(Init(asyncDepth), es);
    var s := Run(Init(asyncDepth), es);
    if Uninterrupted(s) {
      ReadyIsContiguous(s);
    }
    if lo, hi :| ReadyInterval(s, lo, hi) {
      ReadyHasNoGap(s, lo, hi);
    }
  }

  lemma ReadyIsContiguous(s: State)
    requires Ledger(s) && Uninterrupted(s)
    ensures exists lo, hi :: ReadyInterval(s, lo, hi)
  {
    var h, d := |s.trace.handed|, s.decodeOut;
    var lo, hi := if h < d then ReadyOrder(s, h) else 0, if h < d then ReadyOrder(s, d - 1) + 1 else 0;
    forall i | 0 <= i < |s.ops| && s.ops[i].phase == Decoded ensures lo <= s.ops[i].decodedOrder < hi {
      SlotHolds(s, i);
    }
    forall k | lo <= k < hi ensures HasReady(s, k) {
      assert DecodedAt(s, k - s.trace.readyFails[h]);
    }
    assert ReadyInterval(s, lo, hi);
  }

  lemma ReadyHasNoGap(s: State, lo: nat, hi: nat)
    requires Ledger(s) && ReadyInterval(s, lo, hi)
    ensures Uninterrupted(s)
  {
    var h, d := |s.trace.handed|, s.decodeOut;
    if h < d && s.trace.readyFails[h] != s.trace.readyFails[d - 1] {
      var m := JumpBetween(s.trace.readyFails, h, d - 1);
      assert DecodedAt(s, m) && DecodedAt(s, m + 1);
      assert HasReady(s, ReadyOrder(s, m) + 1);
      var i :| 0 <= i < |s.ops| && s.ops[i].phase == Decoded && s.ops[i].decodedOrder == ReadyOrder(s, m) + 1;
      SlotHolds(s, i);
    }
  }

  // ----- progress and losses

  /** A decode sync that the device answers "done", with a scene analysis that succeeds, makes
      progress exactly when a frame is being decoded and no decode sync ever failed. */
  lemma DecodeProgressIff(asyncDepth: nat, es: seq<Event>)
    ensures var s := Run(Init(asyncDepth), es);
            SyncDecodeStep(s, SyncDone, false).progressed <==> s.decodeOut < s.decodeSubmit && !s.trace.decodeLost
  {
    LedgerInit(asyncDepth);
    LedgerRun(Init(asyncDepth), es);
    var s := Run(Init(asyncDepth), es);
    if s.decodeOut < s.decodeSubmit && !s.trace.decodeLost {
      assert InSlot(s, s.decodeOut, Decoding);
    }
    var i := First(s.ops, WantDecoding(s.decodeOut), 0);
    if i < |s.ops| {
      SlotHolds(s, i);
    }
  }

  lemma EncodeProgressIff(asyncDepth: nat, es: seq<Event>, bits: Bits)
    ensures var s := Run(Init(asyncDepth), es);
            SyncEncodeStep(s, SyncDone, bits).progressed <==> s.encodeOut < s.encodeSubmit && !s.trace.encodeLost
  {
    LedgerInit(asyncDepth);
    LedgerRun(Init(asyncDepth), es);
    var s := Run(Init(asyncDepth), es);
    if s.encodeOut < s.encodeSubmit && !s.trace.encodeLost {
      assert EncodingAt(s, s.encodeOut);
    }
    var i := First(s.ops, WantEncoding(s.encodeOut), 0);
    if i < |s.ops| {
      SlotHolds(s, i);
    }
  }

  lemma NoTurnAfterLoss(s: State)
    requires Ledger(s)
    ensures s.trace.decodeLost ==> First(s.ops, WantDecoding(s.decodeOut), 0) == |s.ops|
    ensures s.trace.encodeLost ==> First(s.ops, WantEncoding(s.encodeOut), 0) == |s.ops|
  {
    var i := First(s.ops, WantDecoding(s.decodeOut), 0);
    if i < |s.ops| {
      SlotHolds(s, i);
    }
    var j := First(s.ops, WantEncoding(s.encodeOut), 0);
    if j < |s.ops| {
      SlotHolds(s, j);
    }
  }

  /** After a warning the search of the same pass finds no further slot in turn. */
  lemma WarningEndsTurn(s: State, bits: Bits, fails: bool)
    requires Ledger(s)
    ensures var t := SyncEncodeStep(s, SyncWarning, bits).state;
            t.trace.encodeLost ==> forall j :: 0 <= j < |t.ops| ==> !Matches(t.ops[j], WantEncoding(t.encodeOut))
    ensures var t := SyncDecodeStep(s, SyncWarning, fails).state;
            t.trace.decodeLost ==> forall j :: 0 <= j < |t.ops| ==> !Matches(t.ops[j], WantDecoding(t.decodeOut))
  {
    LedgerSyncEncode(s, SyncWarning, bits);
    LedgerSyncDecode(s, SyncWarning, fails);
    NoTurnAfterLoss(SyncEncodeStep(s, SyncWarning, bits).state);
    NoTurnAfterLoss(SyncDecodeStep(s, SyncWarning, fails).state);
  }

  /** The slots in one phase are untouched, and the counter of their completions stands still. */
  ghost predicate Keeps(s: State, t: State, phase: Phase) {
    && |t.ops| == |s.ops|
    && (phase == Decoding ==> t.decodeOut == s.decodeOut && t.trace.decodeLost == s.trace.decodeLost)
    && (phase == Encoding ==>
          t.encodeOut == s.encodeOut && t.trace.encodeLost == s.trace.encodeLost && t.trace.bits == s.trace.bits)
    && forall i :: 0 <= i < |s.ops| && s.ops[i].phase == phase ==> t.ops[i] == s.ops[i]
  }

  lemma PrepareKeeps(s: State, i: nat, p: Prepare, phase: Phase)
    requires i < |s.ops| && s.ops[i].phase == Decoded && (phase == Decoding || phase == Encoding)
    ensures Keeps(s, PrepareFrame(s, i, p).state, phase) && PrepareFrame(s, i, p).state.ops[i].phase == Decoded
  {
  }

  lemma EncodeKeeps(s: State, i: nat, answer: EncodeAnswer, phase: Phase)
    requires i < |s.ops| && s.ops[i].phase == Decoded && (phase == Decoding || phase == Encoding)
    ensures Keeps(s, Encode(s, i, answer).state, phase)
  {
  }

  lemma SubmitEncodeKeeps(s: State, prepare: Prepare, answer: EncodeAnswer, phase: Phase)
    requires phase == Decoding || phase == Encoding
    ensures Keeps(s, SubmitEncodeStep(s, prepare, answer).state, phase)
  {
    hide PrepareFrame, Encode;
    var sel := Oldest(s.ops, |s.ops|);
    if sel.Some? {
      PrepareKeeps(s, sel.value, prepare, phase);
      EncodeKeeps(s, sel.value, answer, phase);
      EncodeKeeps(PrepareFrame(s, sel.value, prepare).state, sel.value, answer, phase);
    }
  }

  lemma SubmitDecodeKeeps(s: State, draining: bool, pts: int, user: int, answer: DecodeAnswer, consumed: nat,
      phase: Phase)
    requires phase == Decoding || phase == Encoding
    ensures Keeps(s, SubmitDecodeStep(s, draining, pts, user, answer, consumed).state, phase)
  {
  }

  lemma SyncEncodeKeepsDecoding(s: State, answer: SyncAnswer, bits: Bits)
    ensures Keeps(s, SyncEncodeStep(s, answer, bits).state, Decoding)
  {
  }

  lemma SyncDecodeKeepsEncoding(s: State, answer: SyncAnswer, fails: bool)
    ensures Keeps(s, SyncDecodeStep(s, answer, fails).state, Encoding)
  {
  }

  /** No slot in the phase is in turn. */
  ghost predicate Stuck(s: State, phase: Phase) {
    && (phase == Decoding ==> First(s.ops, WantDecoding(s.decodeOut), 0) == |s.ops|)
    && (phase == Encoding ==> First(s.ops, WantEncoding(s.encodeOut), 0) == |s.ops|)
  }

  lemma StuckStep(s: State, e: Event, phase: Phase)
    requires Stuck(s, phase) && (phase == Decoding || phase == Encoding)
    ensures Keeps(s, Step(s, e), phase)
  {
    match e
    case Append(n) =>
    case SyncEncode(a, bits) => if phase == Decoding { SyncEncodeKeepsDecoding(s, a, bits); }
    case SyncDecode(a, fails) => if phase == Encoding { SyncDecodeKeepsEncoding(s, a, fails); }
    case SubmitEncode(p, a) => SubmitEncodeKeeps(s, p, a, phase);
    case SubmitDecode(d, pts, user, a, n) => SubmitDecodeKeeps(s, d, pts, user, a, n, phase);
    case DrainOutput(bits) =>
  }

  predicate Lost(s: State, phase: Phase) {
    (phase == Decoding && s.trace.decodeLost) || (phase == Encoding && s.trace.encodeLost)
  }

  lemma LostIsStuck(s: State, phase: Phase)
    requires Ledger(s) && Lost(s, phase)
    ensures Stuck(s, phase)
  {
    NoTurnAfterLoss(s);
  }

  lemma {:induction false} LossIsPermanent(asyncDepth: nat, es: seq<Event>, fs: seq<Event>, phase: Phase)
    requires Lost(Run(Init(asyncDepth), es), phase)
    ensures Keeps(Run(Init(asyncDepth), es), Run(Init(asyncDepth), es + fs), phase)
    decreases |fs|
  {
    if fs == [] {
      assert es + fs == es;
    } else {
      var m, e := fs[..|fs| - 1], fs[|fs| - 1];
      LossIsPermanent(asyncDepth, es, m, phase);
      assert es + fs == (es + m) + [e];
      RunAppend(Init(asyncDepth), es + m, e);
      LedgerInit(asyncDepth);
      LedgerRun(Init(asyncDepth), es + m);
      LostIsStuck(Run(Init(asyncDepth), es + m), phase);
      StuckStep(Run(Init(asyncDepth), es + m), e, phase);
    }
  }

  /** After one failed decode sync the decoder side never advances again: the output counter
      stays put, every frame then in decoding keeps its slot in every continuation, and no
      frame beyond the counter is ever handed to the encoder. */
  lemma DecodeLossIsPermanent(asyncDepth: nat, es: seq<Event>, fs: seq<Event>)
    requires Run(Init(asyncDepth), es).trace.decodeLost
    ensures Keeps(Run(Init(asyncDepth), es), Run(Init(asyncDepth), es + fs), Decoding)
    ensures |Run(Init(asyncDepth), es + fs).trace.handed| <= Run(Init(asyncDepth), es).decodeOut
  {
    LossIsPermanent(asyncDepth, es, fs, Decoding);
    LedgerInit(asyncDepth);
    LedgerRun(Init(asyncDepth), es + fs);
  }

  /** After one failed encode sync no encode ever completes again, and every frame then in
      encoding keeps its slot in every continuation. */
  lemma EncodeLossIsPermanent(asyncDepth: nat, es: seq<Event>, fs: seq<Event>)
    requires Run(Init(asyncDepth), es).trace.encodeLost
    ensures Keeps(Run(Init(asyncDepth), es), Run(Init(asyncDepth), es + fs), Encoding)
  {
    LossIsPermanent(asyncDepth, es, fs, Encoding);
  }

  /** Frames wait behind a lost one. */
  ghost predicate Blocked(s: State) {
    exists i :: 0 <= i < |s.ops| && s.ops[i].phase in {Decoding, Encoding} && Lost(s, s.ops[i].phase)
  }

  /** A blocked route never has all slots free again. */
  lemma BlockedForEver(asyncDepth: nat, es: seq<Event>, fs: seq<Event>)
    requires Blocked(Run(Init(asyncDepth), es))
    ensures Blocked(Run(Init(asyncDepth), es + fs))
    ensures exists i ::
            0 <= i < |Run(Init(asyncDepth), es + fs).ops| && Run(Init(asyncDepth), es + fs).ops[i].phase != Free
  {
    var s := Run(Init(asyncDepth), es);
    var i :| 0 <= i < |s.ops| && s.ops[i].phase in {Decoding, Encoding} && Lost(s, s.ops[i].phase);
    LossIsPermanent(asyncDepth, es, fs, s.ops[i].phase);
    var t := Run(Init(asyncDepth), es + fs);
    assert t.ops[i] == s.ops[i] && Lost(t, s.ops[i].phase);
  }
}
