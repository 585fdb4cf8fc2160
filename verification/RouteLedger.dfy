/** Which frame is where in every run of the route pipeline, whatever the device answers: the
    frame ledger, the order of frames, and what a failed sync does to it. */
module RouteLedger {
  import opened Basics
  import opened RouteModel

  // ----- the frame ledger

  ghost predicate Bounds(s: State) {
    && |s.ops| > 0
    && |s.trace.given| == |s.trace.slotOf| == |s.trace.stale| == s.decodeSubmit
    && |s.trace.handed| <= s.decodeOut
    && s.decodeOut + B2N(s.trace.decodeLost) <= s.decodeSubmit
    && s.decodedReady == s.decodeOut + s.trace.sceneFails && |s.trace.readyFails| == s.decodeOut
    && (forall k :: 0 <= k < s.decodeOut ==> s.trace.readyFails[k] <= s.trace.sceneFails)
    && (forall j, k :: 0 <= j < k < s.decodeOut ==> s.trace.readyFails[j] <= s.trace.readyFails[k])
    && |s.trace.accepted| == s.encodeSubmit
    && s.encodeOut + B2N(s.trace.encodeLost) <= s.encodeSubmit
    && |s.trace.bits| == s.encodeOut
    && |s.trace.accepted| + s.trace.absorbed + s.trace.rejected == |s.trace.handed|
    && (forall k :: 0 <= k < s.decodeSubmit ==> s.trace.slotOf[k] < |s.ops|)
    && (forall j :: 0 <= j < s.encodeSubmit ==> s.trace.accepted[j] < |s.trace.handed|)
    && (forall i, j :: 0 <= i < j < s.encodeSubmit ==> s.trace.accepted[i] < s.trace.accepted[j])
  }

  /** Frame `k` sits in its own slot, in the given phase, with its own metadata. */
  ghost predicate InSlot(s: State, k: nat, phase: Phase)
    requires Bounds(s)
  {
    && k < s.decodeSubmit
    && var op := s.ops[s.trace.slotOf[k]];
    && op.phase == phase
    && op.decodeOrder == k
    && op.pts == s.trace.given[k].pts
    && op.user == s.trace.given[k].user
  }

  /** Ready orders lag behind by the scene analyses that failed before. */
  function ReadyOrder(s: State, k: nat): nat
    requires k < |s.trace.readyFails|
  {
    k + s.trace.readyFails[k]
  }

  ghost predicate DecodedAt(s: State, k: nat)
    requires Bounds(s) && k < s.decodeOut
  {
    InSlot(s, k, Decoded) && s.ops[s.trace.slotOf[k]].decodedOrder == ReadyOrder(s, k)
  }

  ghost predicate EncodingAt(s: State, j: nat)
    requires Bounds(s) && j < s.encodeSubmit
  {
    var k := s.trace.accepted[j];
    InSlot(s, k, Encoding) && s.ops[s.trace.slotOf[k]].encodeOrder == j
  }

  /** Where every frame that is still inside the pipeline must be found. */
  ghost predicate Located(s: State)
    requires Bounds(s)
  {
    && (forall k ::
          s.decodeOut + B2N(s.trace.decodeLost) <= k < s.decodeSubmit ==> InSlot(s, k, Decoding))
    && (forall k ::
          |s.trace.handed| <= k < s.decodeOut ==> DecodedAt(s, k))
    && (forall j ::
          s.encodeOut + B2N(s.trace.encodeLost) <= j < s.encodeSubmit ==> EncodingAt(s, j))
  }

  /** The frame held by slot `i`, when it holds one, and the interval its order lies in. */
  ghost predicate Justified(s: State, i: nat)
    requires Bounds(s) && i < |s.ops|
  {
    var op := s.ops[i];
    && (op.phase == Decoding ==>
          && s.decodeOut + B2N(s.trace.decodeLost) <= op.decodeOrder < s.decodeSubmit
          && s.trace.slotOf[op.decodeOrder] == i)
    && (op.phase == Decoded ==>
          && |s.trace.handed| <= op.decodeOrder < s.decodeOut
          && s.trace.slotOf[op.decodeOrder] == i)
    && (op.phase == Encoding ==>
          && s.encodeOut + B2N(s.trace.encodeLost) <= op.encodeOrder < s.encodeSubmit
          && s.trace.accepted[op.encodeOrder] == op.decodeOrder
          && s.trace.slotOf[op.decodeOrder] == i)
  }

  ghost predicate Surfaced(s: State, i: nat)
    requires Bounds(s) && i < |s.ops|
  {
    var op := s.ops[i];
    && (op.surface.Some? <==> op.phase == Decoding || op.phase == Decoded)
    && (op.surface.Some? ==>
          op.decodeOrder < s.decodeSubmit && op.surface.value == s.trace.given[op.decodeOrder].surface)
  }

  ghost predicate Delivered(s: State)
    requires Bounds(s)
  {
    s.trace.handed == s.trace.given[..|s.trace.handed|]
  }

  ghost predicate Ledger(s: State) {
    && Bounds(s)
    && Located(s)
    && (forall i :: 0 <= i < |s.ops| ==> Justified(s, i))
    && (forall i :: 0 <= i < |s.ops| ==> Surfaced(s, i))
    && Delivered(s)
  }

  lemma LedgerInit(asyncDepth: nat)
    ensures Ledger(Init(asyncDepth))
  {
  }

  function DecodingFrom(s: State): nat {
    s.decodeOut + B2N(s.trace.decodeLost)
  }

  function EncodingFrom(s: State): nat {
    s.encodeOut + B2N(s.trace.encodeLost)
  }

  /** `t` differs from `s` in slot `i` only, its histories grow, and an interval may only
      lose its first order, which then belongs to slot `i`. */
  ghost predicate Touches(s: State, t: State, i: nat)
    requires Bounds(s) && Bounds(t)
  {
    && i < |s.ops| == |t.ops|
    && (forall x :: 0 <= x < |s.ops| && x != i ==> t.ops[x] == s.ops[x])
    && s.trace.given <= t.trace.given && s.trace.slotOf <= t.trace.slotOf && s.trace.accepted <= t.trace.accepted
    && (DecodingFrom(t) == DecodingFrom(s) ||
        (DecodingFrom(t) == DecodingFrom(s) + 1 && s.ops[i].phase == Decoding
            && s.ops[i].decodeOrder == DecodingFrom(s)))
    && (|t.trace.handed| == |s.trace.handed| ||
        (|t.trace.handed| == |s.trace.handed| + 1 && s.ops[i].phase == Decoded
            && s.ops[i].decodeOrder == |s.trace.handed|))
    && (EncodingFrom(t) == EncodingFrom(s) ||
        (EncodingFrom(t) == EncodingFrom(s) + 1 && s.ops[i].phase == Encoding
            && s.ops[i].encodeOrder == EncodingFrom(s)))
    && s.decodeOut <= t.decodeOut && s.decodeSubmit <= t.decodeSubmit && s.encodeSubmit <= t.encodeSubmit
    && s.trace.readyFails <= t.trace.readyFails
  }

  /** Every frame and every slot other than slot `i` keeps its place. */
  lemma OthersStay(s: State, t: State, i: nat)
    requires Ledger(s) && Bounds(t) && Touches(s, t, i)
    ensures forall k :: DecodingFrom(t) <= k < s.decodeSubmit && s.trace.slotOf[k] != i ==> InSlot(t, k, Decoding)
    ensures forall k :: |t.trace.handed| <= k < s.decodeOut && s.trace.slotOf[k] != i ==> DecodedAt(t, k)
    ensures forall j :: EncodingFrom(t) <= j < s.encodeSubmit && s.trace.slotOf[s.trace.accepted[j]] != i ==>
            EncodingAt(t, j)
    ensures forall x :: 0 <= x < |t.ops| && x != i ==> Justified(t, x) && Surfaced(t, x)
  {
    forall k | DecodingFrom(t) <= k < s.decodeSubmit && s.trace.slotOf[k] != i
      ensures InSlot(t, k, Decoding)
    {
      assert InSlot(s, k, Decoding);
    }
    forall k | |t.trace.handed| <= k < s.decodeOut && s.trace.slotOf[k] != i
      ensures DecodedAt(t, k)
    {
      assert DecodedAt(s, k);
    }
    forall j | EncodingFrom(t) <= j < s.encodeSubmit && s.trace.slotOf[s.trace.accepted[j]] != i
      ensures EncodingAt(t, j)
    {
      assert EncodingAt(s, j);
    }
    forall x | 0 <= x < |t.ops| && x != i
      ensures Justified(t, x) && Surfaced(t, x)
    {
      OtherStays(s, t, i, x);
    }
  }

  lemma OtherStays(s: State, t: State, i: nat, x: nat)
    requires Ledger(s) && Bounds(t) && Touches(s, t, i) && x < |s.ops| && x != i
    ensures Justified(t, x) && Surfaced(t, x)
  {
    assert Justified(s, x) && Surfaced(s, x) && Justified(s, i);
    OrdersDiffer(s, x, i);
  }

  /** No two slots hold frames of the same order in the same phase. */
  lemma OrdersDiffer(s: State, x: nat, i: nat)
    requires Ledger(s) && x < |s.ops| && i < |s.ops| && x != i
    ensures s.ops[x].phase != Free && s.ops[i].phase != Free ==> s.ops[x].decodeOrder != s.ops[i].decodeOrder
    ensures s.ops[x].phase == Encoding == s.ops[i].phase ==> s.ops[x].encodeOrder != s.ops[i].encodeOrder
  {
    assert Justified(s, x) && Justified(s, i);
  }

  /** The orders a slot may hold determine the frame completely. */
  lemma SlotHolds(s: State, i: nat)
    requires Ledger(s) && i < |s.ops|
    ensures s.ops[i].phase == Decoding ==>
            InSlot(s, s.ops[i].decodeOrder, Decoding) && s.trace.slotOf[s.ops[i].decodeOrder] == i
    ensures s.ops[i].phase == Decoded ==>
              && s.ops[i].decodeOrder < s.decodeOut && DecodedAt(s, s.ops[i].decodeOrder)
              && s.trace.slotOf[s.ops[i].decodeOrder] == i
    ensures s.ops[i].phase == Encoding ==>
              && s.ops[i].encodeOrder < s.encodeSubmit && EncodingAt(s, s.ops[i].encodeOrder)
              && s.trace.accepted[s.ops[i].encodeOrder] == s.ops[i].decodeOrder
              && s.trace.slotOf[s.ops[i].decodeOrder] == i
    ensures Justified(s, i) && Surfaced(s, i)
  {
    assert Justified(s, i) && Surfaced(s, i);
  }

  /** Slots outside slot `i` settle the ledger; what is left is slot `i` itself, the
      frame it may have gained, and the delivered history. */
  lemma LedgerFromOthers(s: State, t: State, i: nat)
    requires Ledger(s) && Bounds(t) && Touches(s, t, i)
    requires forall k :: DecodingFrom(t) <= k < s.decodeSubmit ==> s.trace.slotOf[k] != i || t.ops[i] == s.ops[i]
    requires forall k :: |t.trace.handed| <= k < s.decodeOut ==> s.trace.slotOf[k] != i || t.ops[i] == s.ops[i]
    requires forall j :: EncodingFrom(t) <= j < s.encodeSubmit ==>
             s.trace.slotOf[s.trace.accepted[j]] != i || t.ops[i] == s.ops[i]
    requires forall k :: s.decodeSubmit <= k < t.decodeSubmit ==> InSlot(t, k, Decoding)
    requires forall k :: s.decodeOut <= k < t.decodeOut ==> DecodedAt(t, k)
    requires forall j :: s.encodeSubmit <= j < t.encodeSubmit ==> EncodingAt(t, j)
    requires Justified(t, i) && Surfaced(t, i) && Delivered(t)
    ensures Ledger(t)
  {
    OthersStay(s, t, i);
    forall k | DecodingFrom(t) <= k < t.decodeSubmit ensures InSlot(t, k, Decoding) {
      if k < s.decodeSubmit { assert InSlot(s, k, Decoding); }
    }
    forall k | |t.trace.handed| <= k < t.decodeOut ensures DecodedAt(t, k) {
      if k < s.decodeOut { assert DecodedAt(s, k); }
    }
    forall j | EncodingFrom(t) <= j < t.encodeSubmit ensures EncodingAt(t, j) {
      if j < s.encodeSubmit { assert EncodingAt(s, j); }
    }
  }

  /** Slots other than the one whose frame leaves an interval hold the remaining frames. */
  lemma RemainingElsewhere(s: State, i: nat)
    requires Ledger(s) && i < |s.ops|
    ensures forall k :: DecodingFrom(s) <= k < s.decodeSubmit && s.trace.slotOf[k] == i ==>
                          s.ops[i].phase == Decoding && s.ops[i].decodeOrder == k
    ensures forall k :: |s.trace.handed| <= k < s.decodeOut && s.trace.slotOf[k] == i ==>
                          s.ops[i].phase == Decoded && s.ops[i].decodeOrder == k
    ensures forall j :: EncodingFrom(s) <= j < s.encodeSubmit && s.trace.slotOf[s.trace.accepted[j]] == i ==>
                          s.ops[i].phase == Encoding && s.ops[i].encodeOrder == j
  {
    forall k | DecodingFrom(s) <= k < s.decodeSubmit && s.trace.slotOf[k] == i
      ensures s.ops[i].phase == Decoding && s.ops[i].decodeOrder == k
    {
      assert InSlot(s, k, Decoding);
    }
    forall k | |s.trace.handed| <= k < s.decodeOut && s.trace.slotOf[k] == i
      ensures s.ops[i].phase == Decoded && s.ops[i].decodeOrder == k
    {
      assert DecodedAt(s, k);
    }
    forall j | EncodingFrom(s) <= j < s.encodeSubmit && s.trace.slotOf[s.trace.accepted[j]] == i
      ensures s.ops[i].phase == Encoding && s.ops[i].encodeOrder == j
    {
      assert EncodingAt(s, j);
    }
  }

  lemma LedgerCompleteEncode(s: State, i: nat, bits: Bits)
    requires Ledger(s) && i < |s.ops| && Matches(s.ops[i], WantEncoding(s.encodeOut))
    ensures Ledger(CompleteEncode(s, i, bits))
  {
    CompleteTouches(s, i, bits);
    RemainingElsewhere(s, i);
    LedgerCompleted(s, CompleteEncode(s, i, bits), i);
  }

  lemma CompleteTouches(s: State, i: nat, bits: Bits)
    requires Ledger(s) && i < |s.ops| && Matches(s.ops[i], WantEncoding(s.encodeOut))
    ensures var t := CompleteEncode(s, i, bits);
            && Bounds(t) && Touches(s, t, i) && Justified(t, i) && Surfaced(t, i) && Delivered(t)
            && t.decodeSubmit == s.decodeSubmit && t.decodeOut == s.decodeOut && t.encodeSubmit == s.encodeSubmit
            && EncodingFrom(t) == EncodingFrom(s) + 1 && DecodingFrom(t) == DecodingFrom(s)
            && t.trace.handed == s.trace.handed
  {
    SlotHolds(s, i);
  }

  /** The first order of the encoding interval leaves with slot `i`. */
  lemma LedgerCompleted(s: State, t: State, i: nat)
    requires Ledger(s) && i < |s.ops| && Matches(s.ops[i], WantEncoding(s.encodeOut))
    requires Bounds(t) && Touches(s, t, i) && Justified(t, i) && Surfaced(t, i) && Delivered(t)
    requires t.decodeSubmit == s.decodeSubmit && t.decodeOut == s.decodeOut && t.encodeSubmit == s.encodeSubmit
    requires EncodingFrom(t) == EncodingFrom(s) + 1 && DecodingFrom(t) == DecodingFrom(s)
    requires t.trace.handed == s.trace.handed
    requires forall k :: DecodingFrom(s) <= k < s.decodeSubmit ==> s.trace.slotOf[k] != i
    requires forall k :: |s.trace.handed| <= k < s.decodeOut ==> s.trace.slotOf[k] != i
    requires forall j :: EncodingFrom(s) <= j < s.encodeSubmit && s.trace.slotOf[s.trace.accepted[j]] == i ==>
                           s.ops[i].encodeOrder == j
    ensures Ledger(t)
  {
    hide Surfaced, Delivered;
    assert EncodingFrom(s) <= s.encodeOut by { SlotHolds(s, i); }
    LedgerFromOthers(s, t, i);
  }

  lemma LedgerLoseEncode(s: State, i: nat)
    requires Ledger(s) && i < |s.ops| && Matches(s.ops[i], WantEncoding(s.encodeOut))
    ensures var t := Reset(s, i);
            Ledger(t.(trace := t.trace.(encodeLost := true)))
  {
    SlotHolds(s, i);
    RemainingElsewhere(s, i);
    var t := Reset(s, i);
    LedgerFromOthers(s, t.(trace := t.trace.(encodeLost := true)), i);
  }

  lemma LedgerSyncEncode(s: State, answer: SyncAnswer, bits: Bits)
    requires Ledger(s)
    ensures Ledger(SyncEncodeStep(s, answer, bits).state)
  {
    var i := First(s.ops, WantEncoding(s.encodeOut), 0);
    if i < |s.ops| {
      LedgerCompleteEncode(s, i, bits);
      LedgerLoseEncode(s, i);
    }
  }

  lemma LedgerReady(s: State, i: nat)
    requires Ledger(s) && i < |s.ops| && Matches(s.ops[i], WantDecoding(s.decodeOut))
    ensures Ledger(MarkReady(s, i, false).state)
  {
    SlotHolds(s, i);
    RemainingElsewhere(s, i);
    LedgerFromOthers(s, MarkReady(s, i, false).state, i);
  }

  /** A failed scene analysis uses up a ready order and leaves the frame in decoding. */
  lemma LedgerSceneFails(s: State, i: nat)
    requires Ledger(s) && i < |s.ops| && Matches(s.ops[i], WantDecoding(s.decodeOut))
    ensures Ledger(MarkReady(s, i, true).state)
  {
    var t := MarkReady(s, i, true).state;
    SlotHolds(s, i);
    assert Justified(t, i) && Surfaced(t, i) && Delivered(t);
    FramesStay(s, t, i);
  }

  /** Slot `i` keeps its frame and phase, and no frame comes or goes. */
  lemma FramesStay(s: State, t: State, i: nat)
    requires Ledger(s) && Bounds(t) && Touches(s, t, i) && Justified(t, i) && Surfaced(t, i) && Delivered(t)
    requires t.ops[i] == s.ops[i].(decodeSync := t.ops[i].decodeSync, decodedOrder := t.ops[i].decodedOrder)
    requires s.ops[i].phase == Decoding
    requires t.trace.given == s.trace.given && t.trace.slotOf == s.trace.slotOf
    requires t.trace.readyFails == s.trace.readyFails && t.trace.accepted == s.trace.accepted
    requires t.decodeSubmit == s.decodeSubmit && t.decodeOut == s.decodeOut && t.encodeSubmit == s.encodeSubmit
    ensures Ledger(t)
  {
    hide Surfaced, Delivered;
    OthersStay(s, t, i);
    forall k | DecodingFrom(t) <= k < t.decodeSubmit ensures InSlot(t, k, Decoding) {
      assert InSlot(s, k, Decoding);
    }
    forall k | |t.trace.handed| <= k < t.decodeOut ensures DecodedAt(t, k) {
      assert DecodedAt(s, k);
    }
    forall j | EncodingFrom(t) <= j < t.encodeSubmit ensures EncodingAt(t, j) {
      assert EncodingAt(s, j);
    }
  }

  lemma LedgerLoseDecode(s: State, i: nat)
    requires Ledger(s) && i < |s.ops| && Matches(s.ops[i], WantDecoding(s.decodeOut))
    ensures var t := Reset(s, i);
            Ledger(t.(trace := t.trace.(decodeLost := true)))
  {
    SlotHolds(s, i);
    RemainingElsewhere(s, i);
    var t := Reset(s, i);
    LedgerFromOthers(s, t.(trace := t.trace.(decodeLost := true)), i);
  }

  lemma LedgerSyncDecode(s: State, answer: SyncAnswer, sceneFails: bool)
    requires Ledger(s)
    ensures Ledger(SyncDecodeStep(s, answer, sceneFails).state)
  {
    var i := First(s.ops, WantDecoding(s.decodeOut), 0);
    if i < |s.ops| {
      LedgerReady(s, i);
      LedgerSceneFails(s, i);
      LedgerLoseDecode(s, i);
    }
  }

  lemma LedgerSlotChange(s: State, t: State, i: nat)
    requires Ledger(s) && i < |s.ops|
    requires t == s.(ops := t.ops, ctrl := t.ctrl, inputLen := t.inputLen, outputPackets := t.outputPackets,
                     trace := s.trace.(preprocessed := t.trace.preprocessed, refiltered := t.trace.refiltered,
                                       unmarked := t.trace.unmarked, leaked := t.trace.leaked,
                                       outputs := t.trace.outputs))
    requires |t.ops| == |s.ops| && forall x :: 0 <= x < |s.ops| && x != i ==> t.ops[x] == s.ops[x]
    requires s.ops[i].phase == t.ops[i].phase
    requires t.ops[i].phase != Free ==>
               t.ops[i] == s.ops[i].(ctrl := t.ops[i].ctrl, encodeSync := t.ops[i].encodeSync,
                                        preprocessed := t.ops[i].preprocessed)
    requires t.ops[i].phase == Free ==> t.ops[i].surface.None?
    ensures Ledger(t)
  {
    SlotHolds(s, i);
    OthersStay(s, t, i);
    LocatedStays(s, t, i);
  }

  /** Frames stay where they are when slot `i` keeps its phase, order and metadata. */
  lemma LocatedStays(s: State, t: State, i: nat)
    requires Bounds(s) && Bounds(t) && Located(s) && i < |s.ops| == |t.ops|
    requires forall x :: 0 <= x < |s.ops| && x != i ==> t.ops[x] == s.ops[x]
    requires t.ops[i].phase == s.ops[i].phase
    requires t.ops[i].phase != Free ==>
               t.ops[i] == s.ops[i].(ctrl := t.ops[i].ctrl, encodeSync := t.ops[i].encodeSync,
                                        preprocessed := t.ops[i].preprocessed)
    requires (t.decodeSubmit, t.decodeOut, t.encodeSubmit, t.encodeOut) ==
             (s.decodeSubmit, s.decodeOut, s.encodeSubmit, s.encodeOut)
    requires t.trace.given == s.trace.given && t.trace.slotOf == s.trace.slotOf
             && t.trace.readyFails == s.trace.readyFails
    requires t.trace.handed == s.trace.handed && t.trace.accepted == s.trace.accepted
    requires t.trace.decodeLost == s.trace.decodeLost && t.trace.encodeLost == s.trace.encodeLost
    ensures Located(t)
  {
    forall k | DecodingFrom(t) <= k < t.decodeSubmit ensures InSlot(t, k, Decoding) {
      assert InSlot(s, k, Decoding);
    }
    forall k | |t.trace.handed| <= k < t.decodeOut ensures DecodedAt(t, k) {
      assert DecodedAt(s, k);
    }
    forall j | EncodingFrom(t) <= j < t.encodeSubmit ensures EncodingAt(t, j) {
      assert EncodingAt(s, j);
    }
  }

  /** The oldest decoded slot holds exactly the next frame in decode-submit order. */
  lemma OldestIsNext(s: State)
    requires Ledger(s)
    ensures Oldest(s.ops, |s.ops|).Some? <==> |s.trace.handed| < s.decodeOut
    ensures Oldest(s.ops, |s.ops|).Some? ==>
              && s.ops[Oldest(s.ops, |s.ops|).value].decodeOrder == |s.trace.handed|
              && Oldest(s.ops, |s.ops|).value == s.trace.slotOf[|s.trace.handed|]
  {
    var sel := Oldest(s.ops, |s.ops|);
    var k := |s.trace.handed|;
    if k < s.decodeOut {
      assert DecodedAt(s, k);
    }
    if sel.Some? {
      SlotHolds(s, sel.value);
    }
  }

  lemma LedgerAccept(s: State, i: nat, hasSync: bool)
    requires Ledger(s) && i < |s.ops|
    requires s.ops[i].phase == Decoded && s.ops[i].decodeOrder == |s.trace.handed|
    ensures Ledger(Encode(s, i, EncodeAccepted(hasSync)).state)
  {
    var t := Encode(s, i, EncodeAccepted(hasSync)).state;
    SlotHolds(s, i);
    RemainingElsewhere(s, i);
    assert t.trace.handed == t.trace.given[..|t.trace.handed|];
    LedgerFromOthers(s, t, i);
  }

  lemma LedgerTurnDown(s: State, i: nat, answer: EncodeAnswer)
    requires Ledger(s) && i < |s.ops| && (answer.EncodeMoreData? || answer.EncodeError?)
    requires s.ops[i].phase == Decoded && s.ops[i].decodeOrder == |s.trace.handed|
    ensures Ledger(Encode(s, i, answer).state)
  {
    var t := Encode(s, i, answer).state;
    SlotHolds(s, i);
    RemainingElsewhere(s, i);
    assert t.trace.handed == t.trace.given[..|t.trace.handed|];
    LedgerFromOthers(s, t, i);
  }

  lemma LedgerEncode(s: State, i: nat, answer: EncodeAnswer)
    requires Ledger(s) && i < |s.ops|
    requires s.ops[i].phase == Decoded && s.ops[i].decodeOrder == |s.trace.handed|
    ensures Ledger(Encode(s, i, answer).state)
  {
    match answer
    case EncodeBusy => LedgerSlotChange(s, Encode(s, i, answer).state, i);
    case EncodeAccepted(hasSync) => LedgerAccept(s, i, hasSync);
    case _ => LedgerTurnDown(s, i, answer);
  }

  lemma LedgerPrepare(s: State, i: nat, p: Prepare)
    requires Ledger(s) && i < |s.ops| && s.ops[i].phase == Decoded
    ensures var t := PrepareFrame(s, i, p).state;
            && Ledger(t) && |t.ops| == |s.ops| && t.trace.handed == s.trace.handed
            && t.ops[i].phase == Decoded && t.ops[i].decodeOrder == s.ops[i].decodeOrder
  {
    LedgerSlotChange(s, PrepareFrame(s, i, p).state, i);
  }

  lemma LedgerSubmitEncode(s: State, prepare: Prepare, answer: EncodeAnswer)
    requires Ledger(s)
    ensures Ledger(SubmitEncodeStep(s, prepare, answer).state)
  {
    hide PrepareFrame, Encode;
    OldestIsNext(s);
    var sel := Oldest(s.ops, |s.ops|);
    if sel.Some? {
      var i := sel.value;
      LedgerPrepare(s, i, prepare);
      LedgerEncode(s, i, answer);
      LedgerEncode(PrepareFrame(s, i, prepare).state, i, answer);
    }
  }

  lemma LedgerTakeFrame(s: State, i: nat, surface: Surface, hasSync: bool)
    requires Ledger(s) && i < |s.ops| && s.ops[i].phase == Free
    ensures Ledger(TakeFrame(s, i, surface, hasSync))
  {
    var t := TakeFrame(s, i, surface, hasSync);
    RemainingElsewhere(s, i);
    LedgerFromOthers(s, t, i);
  }

  lemma LedgerSubmitDecode(s: State, draining: bool, pts: int, user: int, answer: DecodeAnswer, consumed: nat)
    requires Ledger(s)
    ensures Ledger(SubmitDecodeStep(s, draining, pts, user, answer, consumed).state)
  {
    var i := First(s.ops, WantFree, 0);
    if i < |s.ops| {
      var u := SubmitDecodeStep(s, draining, pts, user, DecodeBusy, consumed).state;
      LedgerSlotChange(s, u, i);
      if answer.DecodeFrame? {
        LedgerTakeFrame(u, i, answer.surface, answer.hasSync);
      }
    }
  }

  lemma LedgerStep(s: State, e: Event)
    requires Ledger(s)
    ensures Ledger(Step(s, e))
  {
    match e
    case Append(n) => LedgerIdle(s, e);
    case SyncEncode(a, bits) => LedgerSyncEncode(s, a, bits);
    case SyncDecode(a, fails) => LedgerSyncDecode(s, a, fails);
    case SubmitEncode(p, a) => LedgerSubmitEncode(s, p, a);
    case SubmitDecode(d, pts, user, a, n) => LedgerSubmitDecode(s, d, pts, user, a, n);
    case DrainOutput(bits) => LedgerIdle(s, e);
  }

  lemma LedgerIdle(s: State, e: Event)
    requires Ledger(s) && (e.Append? || e.DrainOutput?)
    ensures Ledger(Step(s, e))
  {
    SlotHolds(s, 0);
    LedgerSlotChange(s, Step(s, e), 0);
  }

  lemma {:induction false} LedgerRun(s: State, es: seq<Event>)
    requires Ledger(s)
    ensures Ledger(Run(s, es))
    decreases |es|
  {
    if es != [] {
      LedgerRun(s, es[..|es| - 1]);
      LedgerStep(Run(s, es[..|es| - 1]), es[|es| - 1]);
    }
  }

}
