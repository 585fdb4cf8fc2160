/** How often preprocessing of a frame is attempted: once when its pipeline slot was clean as the
    frame came in, and once more for every failure that left the frame without a control. */
module RoutePreprocess {
  import opened Basics
  import opened Sums
  import opened RouteModel
  import opened RouteLedger

  function Times(frames: seq<nat>, k: nat): nat {
    multiset(frames)[k]
  }

  function FlagW(): Op -> int {
    (op: Op) => if op.preprocessed then 1 else 0
  }

  /** Preprocessing of frame `k` was attempted `extra` times more than it failed without a control. */
  ghost predicate Filtered(tr: Trace, k: nat, extra: nat, unmarked: nat) {
    && Times(tr.preprocessed, k) == Times(tr.refiltered, k) + extra
    && Times(tr.unmarked, k) == unmarked
  }

  ghost predicate Untouched(tr: Trace, k: nat) {
    Times(tr.preprocessed, k) == Times(tr.refiltered, k) == Times(tr.unmarked, k) == 0
  }

  /** Slot `i` agrees with the preprocess history. */
  ghost predicate FlagTells(s: State, i: nat)
    requires Bounds(s) && i < |s.ops|
  {
    var op, k := s.ops[i], s.ops[i].decodeOrder;
    k < s.decodeSubmit ==>
      && (op.phase == Decoding ==> op.preprocessed == s.trace.stale[k] && op.ctrl.None?)
      && (op.phase == Decoded && s.trace.stale[k] ==> op.preprocessed && Untouched(s.trace, k))
      && (op.phase == Decoded && !s.trace.stale[k] ==>
            if op.preprocessed then Filtered(s.trace, k, 1, 0)
            else if op.ctrl.Some? then Filtered(s.trace, k, 1, 1)
            else Filtered(s.trace, k, 0, 0))
      && (op.phase == Encoding ==> (op.preprocessed <==> Times(s.trace.unmarked, k) == 0))
  }

  ghost predicate Settled(s: State, k: nat)
    requires Bounds(s) && k < |s.trace.handed|
  {
    if s.trace.stale[k] then Untouched(s.trace, k)
    else Times(s.trace.preprocessed, k) == Times(s.trace.refiltered, k) + 1
  }

  ghost predicate Below(frames: seq<nat>, n: nat) {
    forall m :: 0 <= m < |frames| ==> frames[m] < n
  }

  ghost predicate Once(s: State) {
    && Bounds(s)
    && Below(s.trace.preprocessed, s.decodeOut) && Below(s.trace.refiltered, s.decodeOut)
    && Below(s.trace.unmarked, s.decodeOut)
    && (forall i :: 0 <= i < |s.ops| ==> FlagTells(s, i))
    && (forall k :: 0 <= k < |s.trace.handed| ==> Settled(s, k))
    && |s.trace.preprocessed| <= Sum(s.ops, FlagW()) + s.trace.resets + |s.trace.refiltered| + |s.trace.unmarked|
  }

  lemma BelowMeansNone(frames: seq<nat>, n: nat, k: nat)
    requires Below(frames, n) && k >= n
    ensures Times(frames, k) == 0
  {
    assert k !in frames;
  }

  /** A step that changes slot `i` and adds nothing to the preprocess history. */
  lemma OnceElsewhere(s: State, t: State, i: nat)
    requires Ledger(s) && Once(s) && Bounds(t)
    requires i < |s.ops| == |t.ops| && t.ops == s.ops[i := t.ops[i]]
    requires t.trace.preprocessed == s.trace.preprocessed && s.trace.stale <= t.trace.stale
    requires t.trace.refiltered == s.trace.refiltered && t.trace.unmarked == s.trace.unmarked
    requires s.decodeOut <= t.decodeOut && |s.trace.handed| <= |t.trace.handed|
    requires FlagTells(t, i)
    requires forall k :: |s.trace.handed| <= k < |t.trace.handed| ==> Settled(t, k)
    requires t.trace.resets + FlagW()(t.ops[i]) >= s.trace.resets + FlagW()(s.ops[i])
    ensures Once(t)
  {
    hide Sum;
    SumUpdate(s.ops, i, t.ops[i], FlagW());
    forall x | 0 <= x < |t.ops| ensures FlagTells(t, x) {
      assert FlagTells(s, x) && Justified(s, x);
    }
    forall k | 0 <= k < |t.trace.handed| ensures Settled(t, k) {
      if k < |s.trace.handed| { assert Settled(s, k); }
    }
  }

  lemma OnceSyncEncode(s: State, a: SyncAnswer, bits: Bits)
    requires Ledger(s) && Once(s) && Bounds(SyncEncodeStep(s, a, bits).state)
    ensures Once(SyncEncodeStep(s, a, bits).state)
  {
    hide Times;
    var i, t := First(s.ops, WantEncoding(s.encodeOut), 0), SyncEncodeStep(s, a, bits).state;
    if i < |s.ops| {
      assert FlagTells(s, i);
      assert s.ops[i := s.ops[i]] == s.ops;
      OnceElsewhere(s, t, i);
    }
  }

  lemma OnceSyncDecode(s: State, a: SyncAnswer, fails: bool)
    requires Ledger(s) && Once(s) && Bounds(SyncDecodeStep(s, a, fails).state)
    ensures Once(SyncDecodeStep(s, a, fails).state)
  {
    var i, t := First(s.ops, WantDecoding(s.decodeOut), 0), SyncDecodeStep(s, a, fails).state;
    if i < |s.ops| {
      SlotHolds(s, i);
      assert FlagTells(s, i);
      var k := s.ops[i].decodeOrder;
      BelowMeansNone(s.trace.preprocessed, s.decodeOut, k);
      BelowMeansNone(s.trace.refiltered, s.decodeOut, k);
      BelowMeansNone(s.trace.unmarked, s.decodeOut, k);
      assert s.ops[i := s.ops[i]] == s.ops;
      OnceElsewhere(s, t, i);
    }
  }

  lemma OnceSubmitDecode(s: State, e: Event)
    requires Ledger(s) && Once(s) && e.SubmitDecode? && Bounds(Step(s, e))
    ensures Once(Step(s, e))
  {
    hide Times;
    var i := First(s.ops, WantFree, 0);
    if i < |s.ops| {
      OnceElsewhere(s, Step(s, e), i);
    }
  }

  /** What preparing does to the slot and to the preprocess history. */
  lemma PrepareEffect(s: State, i: nat, p: Prepare)
    requires i < |s.ops|
    ensures var t := PrepareFrame(s, i, p).state;
            var op, u := s.ops[i], t.ops[i];
            var ran := !p.control.UnmapFails? && !op.preprocessed;
            && |t.ops| == |s.ops| && t.ops == s.ops[i := u]
            && u == op.(ctrl := u.ctrl, preprocessed := u.preprocessed)
            && u.preprocessed == (op.preprocessed || (ran && !p.filterFails))
            && (u.ctrl.Some? <==> if p.control.UnmapFails? then op.ctrl.Some? else p.control.ControlKept?)
            && t.trace.preprocessed == s.trace.preprocessed + (if ran then [op.decodeOrder] else [])
            && t.trace.refiltered ==
                 s.trace.refiltered + (if ran && p.filterFails && u.ctrl.None? then [op.decodeOrder] else [])
            && t.trace.unmarked ==
                 s.trace.unmarked + (if ran && p.filterFails && u.ctrl.Some? then [op.decodeOrder] else [])
            && t.trace.resets == s.trace.resets
            && (!PrepareFrame(s, i, p).threw ==> u.preprocessed)
  {
    hide Acquire, FirstUnused, ReleaseCtrl;
  }

  /** Adding frame `k` to a history leaves the counts of other frames alone. */
  lemma TimesAppend(frames: seq<nat>, more: seq<nat>, k: nat)
    requires forall m :: 0 <= m < |more| ==> more[m] == k
    ensures Times(frames + more, k) == Times(frames, k) + |more|
    ensures forall x: nat :: x != k ==> Times(frames + more, x) == Times(frames, x)
    decreases |more|
  {
    if more == [] {
      assert frames + more == frames;
    } else {
      var n := |more| - 1;
      TimesAppend(frames, more[..n], k);
      assert frames + more == (frames + more[..n]) + [k];
    }
  }

  /** The histories after preparing count as before for every other frame. */
  lemma PrepareTimes(s: State, i: nat, p: Prepare)
    requires i < |s.ops|
    ensures var t := PrepareFrame(s, i, p).state;
            var k := s.ops[i].decodeOrder;
            var ran := !p.control.UnmapFails? && !s.ops[i].preprocessed;
            && Times(t.trace.preprocessed, k) == Times(s.trace.preprocessed, k) + B2N(ran)
            && Times(t.trace.refiltered, k) ==
                 Times(s.trace.refiltered, k) + B2N(ran && p.filterFails && t.ops[i].ctrl.None?)
            && Times(t.trace.unmarked, k) ==
                 Times(s.trace.unmarked, k) + B2N(ran && p.filterFails && t.ops[i].ctrl.Some?)
            && forall x: nat :: x != k ==>
                 && Times(t.trace.preprocessed, x) == Times(s.trace.preprocessed, x)
                 && Times(t.trace.refiltered, x) == Times(s.trace.refiltered, x)
                 && Times(t.trace.unmarked, x) == Times(s.trace.unmarked, x)
  {
    hide PrepareFrame;
    PrepareEffect(s, i, p);
    var t, k := PrepareFrame(s, i, p).state, s.ops[i].decodeOrder;
    TimesAppend(s.trace.preprocessed, t.trace.preprocessed[|s.trace.preprocessed|..], k);
    TimesAppend(s.trace.refiltered, t.trace.refiltered[|s.trace.refiltered|..], k);
    TimesAppend(s.trace.unmarked, t.trace.unmarked[|s.trace.unmarked|..], k);
    assert t.trace.preprocessed == s.trace.preprocessed + t.trace.preprocessed[|s.trace.preprocessed|..];
    assert t.trace.refiltered == s.trace.refiltered + t.trace.refiltered[|s.trace.refiltered|..];
    assert t.trace.unmarked == s.trace.unmarked + t.trace.unmarked[|s.trace.unmarked|..];
  }

  lemma OncePrepare(s: State, i: nat, p: Prepare)
    requires Ledger(s) && Once(s) && i < |s.ops| && s.ops[i].phase == Decoded && s.ops[i].ctrl.None?
    requires Ledger(PrepareFrame(s, i, p).state) && PrepareFrame(s, i, p).state.decodeOut == s.decodeOut
    requires PrepareFrame(s, i, p).state.trace.handed == s.trace.handed
    requires PrepareFrame(s, i, p).state.trace.stale == s.trace.stale
    ensures Once(PrepareFrame(s, i, p).state)
  {
    hide PrepareFrame, Sum, Times;
    PrepareEffect(s, i, p);
    PrepareTimes(s, i, p);
    var t := PrepareFrame(s, i, p).state;
    SumUpdate(s.ops, i, t.ops[i], FlagW());
    SlotHolds(s, i);
    assert FlagTells(s, i);
    forall j | 0 <= j < |t.ops| ensures FlagTells(t, j) {
      assert FlagTells(s, j);
      if j != i { OrdersDiffer(s, i, j); }
    }
    forall k | 0 <= k < |t.trace.handed| ensures Settled(t, k) {
      assert Settled(s, k);
    }
  }

  /** Preparing leaves frames and counters alone. */
  lemma PrepareFrames(s: State, i: nat, p: Prepare)
    requires i < |s.ops|
    ensures var t := PrepareFrame(s, i, p).state;
            && t.decodeOut == s.decodeOut && t.trace.handed == s.trace.handed && t.trace.stale == s.trace.stale
  {
    hide Acquire, FirstUnused, ReleaseCtrl;
  }

  lemma OnceEncode(s: State, i: nat, answer: EncodeAnswer)
    requires Ledger(s) && Once(s) && i < |s.ops|
    requires s.ops[i].phase == Decoded && s.ops[i].decodeOrder == |s.trace.handed|
    requires s.ops[i].preprocessed || s.ops[i].ctrl.Some?
    ensures Once(Encode(s, i, answer).state)
  {
    hide Times, Sum, Located, Surfaced, Delivered;
    var t := Encode(s, i, answer).state;
    LedgerEncode(s, i, answer);
    SlotHolds(s, i);
    assert FlagTells(s, i);
    OnceElsewhere(s, t, i);
  }

  lemma OnceSubmitEncode(s: State, p: Prepare, a: EncodeAnswer)
    requires Ledger(s) && Once(s)
    ensures Once(SubmitEncodeStep(s, p, a).state)
  {
    hide PrepareFrame, Encode, Once, Ledger;
    var sel := Oldest(s.ops, |s.ops|);
    OldestIsNext(s);
    if sel.Some? {
      var i := sel.value;
      if s.ops[i].ctrl.Some? {
        OnceEncode(s, i, a);
      } else {
        LedgerPrepare(s, i, p);
        PrepareFrames(s, i, p);
        OncePrepare(s, i, p);
        PrepareEffect(s, i, p);
        if !PrepareFrame(s, i, p).threw {
          OnceEncode(PrepareFrame(s, i, p).state, i, a);
        }
      }
    }
  }

  lemma OnceIdle(s: State, e: Event)
    requires Ledger(s) && Once(s) && Bounds(Step(s, e)) && (e.Append? || e.DrainOutput?)
    ensures Once(Step(s, e))
  {
    assert FlagTells(s, 0);
    OnceElsewhere(s, Step(s, e), 0);
  }

  lemma OnceStep(s: State, e: Event)
    requires Ledger(s) && Once(s)
    ensures Once(Step(s, e))
  {
    hide Once;
    LedgerStep(s, e);
    match e
    case Append(_) => OnceIdle(s, e);
    case DrainOutput(_) => OnceIdle(s, e);
    case SyncEncode(a, bits) => OnceSyncEncode(s, a, bits);
    case SyncDecode(a, fails) => OnceSyncDecode(s, a, fails);
    case SubmitEncode(p, a) => OnceSubmitEncode(s, p, a);
    case SubmitDecode(_, _, _, _, _) => OnceSubmitDecode(s, e);
  }

  lemma {:induction false} OnceRun(asyncDepth: nat, es: seq<Event>)
    ensures Once(Run(Init(asyncDepth), es))
    decreases |es|
  {
    if es == [] {
      SumConst(Init(asyncDepth).ops, FlagW(), 0);
    } else {
      OnceRun(asyncDepth, es[..|es| - 1]);
      LedgerInit(asyncDepth);
      LedgerRun(Init(asyncDepth), es[..|es| - 1]);
      OnceStep(Run(Init(asyncDepth), es[..|es| - 1]), es[|es| - 1]);
    }
  }

  /** Preprocessing of a frame that reached the encoder was not attempted when the flag of its
      slot was set as it was taken, and otherwise once and once more for every time an attempt
      failed while the frame held no control: so at most once exactly when none failed so.  No
      frame is attempted more often than that, and the flags, resets and failures bound all
      attempts. */
  lemma PreprocessTheorem(asyncDepth: nat, es: seq<Event>)
    ensures var s := Run(Init(asyncDepth), es);
            var tr := s.trace;
            && |tr.handed| <= |tr.stale|
            && (forall k :: 0 <= k < |tr.handed| ==>
                  && Times(tr.preprocessed, k) == (if tr.stale[k] then 0 else 1 + Times(tr.refiltered, k))
                  && (Times(tr.preprocessed, k) <= 1 <==> Times(tr.refiltered, k) == 0))
            && (forall k: nat :: Times(tr.preprocessed, k) <= 1 + Times(tr.refiltered, k))
            && |tr.preprocessed| <= |s.ops| + tr.resets + |tr.refiltered| + |tr.unmarked|
  {
    hide Once, Ledger;
    OnceRun(asyncDepth, es);
    LedgerInit(asyncDepth);
    LedgerRun(Init(asyncDepth), es);
    PreprocessCounts(Run(Init(asyncDepth), es));
  }

  lemma PreprocessCounts(s: State)
    requires Ledger(s) && Once(s)
    ensures |s.trace.handed| <= |s.trace.stale|
    ensures forall k :: 0 <= k < |s.trace.handed| ==>
              && Times(s.trace.preprocessed, k) == (if s.trace.stale[k] then 0 else 1 + Times(s.trace.refiltered, k))
              && (Times(s.trace.preprocessed, k) <= 1 <==> Times(s.trace.refiltered, k) == 0)
    ensures forall k: nat :: Times(s.trace.preprocessed, k) <= 1 + Times(s.trace.refiltered, k)
    ensures |s.trace.preprocessed| <= |s.ops| + s.trace.resets + |s.trace.refiltered| + |s.trace.unmarked|
  {
    hide Times, Sum;
    SumFull(s.ops, FlagW());
    forall k | 0 <= k < |s.trace.handed|
      ensures Times(s.trace.preprocessed, k) == (if s.trace.stale[k] then 0 else 1 + Times(s.trace.refiltered, k))
      ensures Times(s.trace.preprocessed, k) <= 1 <==> Times(s.trace.refiltered, k) == 0
    {
      assert Settled(s, k);
    }
    forall k: nat ensures Times(s.trace.preprocessed, k) <= 1 + Times(s.trace.refiltered, k) {
      AtMostOnceMore(s, k);
    }
  }

  lemma AtMostOnceMore(s: State, k: nat)
    requires Ledger(s) && Once(s)
    ensures Times(s.trace.preprocessed, k) <= 1 + Times(s.trace.refiltered, k)
  {
    hide Times;
    if k < |s.trace.handed| {
      assert Settled(s, k);
    } else if k < s.decodeOut {
      assert DecodedAt(s, k);
      assert FlagTells(s, s.trace.slotOf[k]);
    } else {
      BelowMeansNone(s.trace.preprocessed, s.decodeOut, k);
    }
  }

  // ----- runs that attempt a frame never, or twice

  const TAKE_FRAME := SubmitDecode(false, 0, 0, DecodeFrame(0, false), 0)
  const MAKE_READY := SyncDecode(SyncDone, false)
  const PLAIN_ENCODE := SubmitEncode(Prepare(NoControl, false, false), EncodeAccepted(false))
  const FAIL_FILTER := SubmitEncode(Prepare(NoControl, true, false), EncodeBusy)
  const COMPLETE := SyncEncode(SyncDone, Bits([0], None))

  /** With one slot, the second frame goes through the whole pipeline unpreprocessed. */
  lemma SecondFrameIsNotPreprocessed()
    ensures var cycle := [TAKE_FRAME, MAKE_READY, PLAIN_ENCODE, COMPLETE];
            var tr := Run(Init(1), cycle + cycle).trace;
            |tr.outputs| == 2 && tr.preprocessed == [0] && tr.stale == [false, true]
  {
    var cycle := [TAKE_FRAME, MAKE_READY, PLAIN_ENCODE, COMPLETE];
    var s0 := Init(1);
    var s4 := Cycle(s0);
    var s8 := Cycle(s4);
    RunFour(s0, TAKE_FRAME, MAKE_READY, PLAIN_ENCODE, COMPLETE);
    RunFour(s4, TAKE_FRAME, MAKE_READY, PLAIN_ENCODE, COMPLETE);
    RunConcat(s0, cycle, cycle);
    assert Run(s0, cycle + cycle) == s8;
    assert s8.trace.stale == [false, true];
  }

  lemma RunFour(s: State, a: Event, b: Event, c: Event, d: Event)
    ensures Run(s, [a, b, c, d]) == Step(Step(Step(Step(s, a), b), c), d)
  {
    hide Step;
    RunAppend(s, [], a);
    RunAppend(s, [a], b);
    RunAppend(s, [a, b], c);
    RunAppend(s, [a, b, c], d);
    assert [a] == [] + [a] && [a, b] == [a] + [b] && [a, b, c] == [a, b] + [c] && [a, b, c, d] == [a, b, c] + [d];
  }

  /** One frame through a single free slot. */
  lemma Cycle(s: State) returns (t: State)
    requires |s.ops| == 1 && s.ops[0].phase == Free && s.decodeSubmit == s.decodeOut && s.encodeSubmit == s.encodeOut
    ensures t == Step(Step(Step(Step(s, TAKE_FRAME), MAKE_READY), PLAIN_ENCODE), COMPLETE)
    ensures |t.ops| == 1 && t.ops[0].phase == Free && t.decodeSubmit == t.decodeOut && t.encodeSubmit == t.encodeOut
    ensures t.ops[0].preprocessed
    ensures t.trace.stale == s.trace.stale + [s.ops[0].preprocessed]
    ensures t.trace.preprocessed == s.trace.preprocessed + (if s.ops[0].preprocessed then [] else [s.decodeSubmit])
    ensures t.decodeSubmit == s.decodeSubmit + 1 && |t.trace.outputs| == |s.trace.outputs| + 1
  {
    var s1 := Step(s, TAKE_FRAME);
    var s2 := Step(s1, MAKE_READY);
    assert s2.ops[0].phase == Decoded && Oldest(s2.ops, 1) == Some(0);
    var s3 := Step(s2, PLAIN_ENCODE);
    t := Step(s3, COMPLETE);
  }

  /** When preprocessing fails at its end and the frame holds no control, the retry attempts the
      same frame again, although its picture may be filtered already. */
  lemma FailedFrameIsPreprocessedTwice()
    ensures var tr := Run(Init(1), [TAKE_FRAME, MAKE_READY, FAIL_FILTER, PLAIN_ENCODE]).trace;
            |tr.handed| == 1 && tr.preprocessed == [0, 0] && tr.refiltered == [0]
  {
    hide Step;
    RunFour(Init(1), TAKE_FRAME, MAKE_READY, FAIL_FILTER, PLAIN_ENCODE);
    var t := FilterTwice(Init(1));
  }

  /** A frame whose preprocessing fails once, through a single free slot. */
  lemma FilterTwice(s: State) returns (t: State)
    requires s == Init(1)
    ensures t == Step(Step(Step(Step(s, TAKE_FRAME), MAKE_READY), FAIL_FILTER), PLAIN_ENCODE)
    ensures |t.trace.handed| == 1 && t.trace.preprocessed == [0, 0] && t.trace.refiltered == [0]
  {
    var s1 := Step(s, TAKE_FRAME);
    var s2 := Step(s1, MAKE_READY);
    assert s2.ops[0].phase == Decoded && Oldest(s2.ops, 1) == Some(0);
    var s3 := Step(s2, FAIL_FILTER);
    assert s3.ops[0] == s2.ops[0] && s3.trace.preprocessed == [0] && s3.trace.refiltered == [0];
    t := EncodeAgain(s3);
  }

  lemma EncodeAgain(s: State) returns (t: State)
    requires |s.ops| == 1 && s.ops[0].phase == Decoded && !s.ops[0].preprocessed && s.ops[0].ctrl.None?
    ensures t == Step(s, PLAIN_ENCODE) && t.trace.refiltered == s.trace.refiltered
    ensures t.trace.preprocessed == s.trace.preprocessed + [s.ops[0].decodeOrder]
            && |t.trace.handed| == |s.trace.handed| + 1
  {
    assert Oldest(s.ops, 1) == Some(0);
    t := Step(s, PLAIN_ENCODE);
  }
}
