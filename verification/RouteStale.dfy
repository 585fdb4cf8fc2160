/** When the preprocess flag of a slot is set as a new frame comes in: exactly when the previous
    frame in the slot left by a completed encode with its flag set. */
module RouteStale {
  import opened Basics
  import opened RouteModel
  import opened RouteLedger
  import opened RoutePreprocess

  /** The last frame that was put into slot `i`. */
  function LastIn(slotOf: seq<nat>, i: nat): (r: Option<nat>)
    ensures r.Some? ==> r.value < |slotOf| && slotOf[r.value] == i
    ensures r.Some? ==> forall m :: r.value < m < |slotOf| ==> slotOf[m] != i
    ensures r.None? ==> forall m :: 0 <= m < |slotOf| ==> slotOf[m] != i
  {
    if slotOf == [] then None
    else
      var n := |slotOf| - 1;
      if slotOf[n] == i then Some(n) else LastIn(slotOf[..n], i)
  }

  /** Frame `k` completed its encode. */
  predicate Completed(s: State, k: nat)
    requires s.encodeOut <= |s.trace.accepted|
  {
    k in s.trace.accepted[..s.encodeOut]
  }

  /** There is a frame, it completed its encode, and its preprocessing never failed with a
      control in hand. */
  predicate LeftMarked(s: State, frame: Option<nat>)
    requires s.encodeOut <= |s.trace.accepted|
  {
    frame.Some? && Completed(s, frame.value) && Times(s.trace.unmarked, frame.value) == 0
  }

  function Previous(s: State, k: nat): Option<nat>
    requires k < |s.trace.slotOf|
  {
    LastIn(s.trace.slotOf[..k], s.trace.slotOf[k])
  }

  ghost predicate StaleAt(s: State, k: nat)
    requires Bounds(s) && k < s.decodeSubmit
  {
    s.trace.stale[k] <==> LeftMarked(s, Previous(s, k))
  }

  ghost predicate SlotMarked(s: State, i: nat)
    requires Bounds(s) && i < |s.ops|
  {
    if s.ops[i].phase == Free then s.ops[i].preprocessed <==> LeftMarked(s, LastIn(s.trace.slotOf, i))
    else LastIn(s.trace.slotOf, i) == Some(s.ops[i].decodeOrder)
  }

  ghost predicate StaleKept(s: State) {
    && Bounds(s)
    && (forall k :: 0 <= k < s.decodeSubmit ==> StaleAt(s, k))
    && (forall i :: 0 <= i < |s.ops| ==> SlotMarked(s, i))
  }

  /** Only frame `c` may have completed or failed its preprocessing. */
  ghost predicate SameMarks(s: State, t: State, c: nat)
    requires Bounds(s) && Bounds(t)
  {
    forall k: nat :: k != c && k < s.decodeSubmit ==>
                       && (Completed(t, k) <==> Completed(s, k))
                       && Times(t.trace.unmarked, k) == Times(s.trace.unmarked, k)
  }

  /** A step on slot `i` that takes no frame; `c` is the frame in the slot, or no frame at all. */
  lemma StaleStays(s: State, t: State, i: nat, c: nat)
    requires StaleKept(s) && Bounds(t) && i < |s.ops| == |t.ops| && t.ops == s.ops[i := t.ops[i]]
    requires t.trace.slotOf == s.trace.slotOf && t.trace.stale == s.trace.stale && t.decodeSubmit == s.decodeSubmit
    requires SameMarks(s, t, c) && (LastIn(s.trace.slotOf, i) == Some(c) || c >= s.decodeSubmit)
    requires SlotMarked(t, i)
    ensures StaleKept(t)
  {
    hide LastIn, Completed, Times;
    forall k | 0 <= k < t.decodeSubmit ensures StaleAt(t, k) {
      assert StaleAt(s, k);
    }
    forall x | 0 <= x < |t.ops| ensures SlotMarked(t, x) {
      assert SlotMarked(s, x);
    }
  }

  lemma LastInAppend(slotOf: seq<nat>, i: nat, x: nat)
    ensures LastIn(slotOf + [i], x) == if x == i then Some(|slotOf|) else LastIn(slotOf, x)
  {
    assert (slotOf + [i])[..|slotOf|] == slotOf;
  }

  /** Frame `c` completes: no other frame does. */
  lemma CompletedNext(s: State, t: State, c: nat)
    requires Bounds(s) && Bounds(t) && t.trace.accepted == s.trace.accepted
    requires t.encodeOut == s.encodeOut + 1 <= s.encodeSubmit && c == s.trace.accepted[s.encodeOut]
    ensures Completed(t, c)
    ensures forall k: nat :: k != c ==> (Completed(t, k) <==> Completed(s, k))
  {
    assert t.trace.accepted[..t.encodeOut] == s.trace.accepted[..s.encodeOut] + [c];
  }

  /** Accepting more frames completes none. */
  lemma CompletedStays(s: State, t: State)
    requires Bounds(s) && Bounds(t) && s.trace.accepted <= t.trace.accepted && t.encodeOut == s.encodeOut
    ensures forall k: nat :: Completed(t, k) <==> Completed(s, k)
  {
    assert t.trace.accepted[..t.encodeOut] == s.trace.accepted[..s.encodeOut];
  }

  /** Frames that were not handed on, and the frame whose encode is in turn, have not completed. */
  lemma NotCompleted(s: State, k: nat)
    requires Bounds(s)
    requires k >= |s.trace.handed| || (s.encodeOut < s.encodeSubmit && k == s.trace.accepted[s.encodeOut])
    ensures !Completed(s, k)
  {
  }

  lemma StaleSyncEncode(s: State, a: SyncAnswer, bits: Bits)
    requires Ledger(s) && Once(s) && StaleKept(s) && Bounds(SyncEncodeStep(s, a, bits).state)
    ensures StaleKept(SyncEncodeStep(s, a, bits).state)
  {
    hide Times, LastIn, Completed, Located, Surfaced, Delivered;
    var i, t := First(s.ops, WantEncoding(s.encodeOut), 0), SyncEncodeStep(s, a, bits).state;
    if i < |s.ops| {
      SlotHolds(s, i);
      assert FlagTells(s, i) && SlotMarked(s, i);
      assert s.ops[i := s.ops[i]] == s.ops;
      var c := s.ops[i].decodeOrder;
      if t.encodeOut > s.encodeOut {
        CompletedNext(s, t, c);
      } else {
        CompletedStays(s, t);
        NotCompleted(s, c);
      }
      StaleStays(s, t, i, c);
    }
  }

  lemma StaleSyncDecode(s: State, a: SyncAnswer, fails: bool)
    requires Ledger(s) && StaleKept(s) && Bounds(SyncDecodeStep(s, a, fails).state)
    ensures StaleKept(SyncDecodeStep(s, a, fails).state)
  {
    hide Times, LastIn, Completed, Located, Surfaced, Delivered;
    var i, t := First(s.ops, WantDecoding(s.decodeOut), 0), SyncDecodeStep(s, a, fails).state;
    if i < |s.ops| {
      SlotHolds(s, i);
      assert SlotMarked(s, i);
      assert s.ops[i := s.ops[i]] == s.ops;
      var c := s.ops[i].decodeOrder;
      CompletedStays(s, t);
      NotCompleted(s, c);
      StaleStays(s, t, i, c);
    }
  }

  lemma StalePrepare(s: State, i: nat, p: Prepare)
    requires StaleKept(s) && i < |s.ops| && s.ops[i].phase == Decoded
    requires Ledger(PrepareFrame(s, i, p).state)
    ensures StaleKept(PrepareFrame(s, i, p).state)
  {
    hide PrepareFrame, Times, LastIn, Completed;
    var t := PrepareFrame(s, i, p).state;
    PrepareEffect(s, i, p);
    PrepareTimes(s, i, p);
    PrepareHistory(s, i, p);
    assert SlotMarked(s, i);
    CompletedStays(s, t);
    StaleStays(s, t, i, s.ops[i].decodeOrder);
  }

  lemma PrepareHistory(s: State, i: nat, p: Prepare)
    requires i < |s.ops|
    ensures var t := PrepareFrame(s, i, p).state;
            && t.trace.slotOf == s.trace.slotOf && t.trace.stale == s.trace.stale && t.decodeSubmit == s.decodeSubmit
            && t.trace.accepted == s.trace.accepted && t.encodeOut == s.encodeOut
  {
    hide Acquire, FirstUnused, ReleaseCtrl;
  }

  lemma StaleEncode(s: State, i: nat, answer: EncodeAnswer)
    requires Ledger(s) && StaleKept(s) && i < |s.ops|
    requires s.ops[i].phase == Decoded && s.ops[i].decodeOrder == |s.trace.handed|
    ensures StaleKept(Encode(s, i, answer).state)
  {
    hide Times, LastIn, Completed, Located, Surfaced, Delivered;
    var t := Encode(s, i, answer).state;
    LedgerEncode(s, i, answer);
    SlotHolds(s, i);
    assert SlotMarked(s, i);
    CompletedStays(s, t);
    NotCompleted(s, |s.trace.handed|);
    StaleStays(s, t, i, |s.trace.handed|);
  }

  lemma StaleSubmitEncode(s: State, p: Prepare, a: EncodeAnswer)
    requires Ledger(s) && StaleKept(s)
    ensures StaleKept(SubmitEncodeStep(s, p, a).state)
  {
    hide PrepareFrame, Encode, StaleKept, Ledger;
    var sel := Oldest(s.ops, |s.ops|);
    OldestIsNext(s);
    if sel.Some? {
      var i := sel.value;
      if s.ops[i].ctrl.Some? {
        StaleEncode(s, i, a);
      } else {
        LedgerPrepare(s, i, p);
        PrepareFrames(s, i, p);
        PrepareEffect(s, i, p);
        StalePrepare(s, i, p);
        if !PrepareFrame(s, i, p).threw {
          StaleEncode(PrepareFrame(s, i, p).state, i, a);
        }
      }
    }
  }

  lemma StaleTake(s: State, i: nat, surface: Surface, hasSync: bool)
    requires StaleKept(s) && i < |s.ops| && s.ops[i].phase == Free && Bounds(TakeFrame(s, i, surface, hasSync))
    ensures StaleKept(TakeFrame(s, i, surface, hasSync))
  {
    hide Times, LastIn, Completed;
    var t := TakeFrame(s, i, surface, hasSync);
    CompletedStays(s, t);
    assert SlotMarked(s, i);
    forall k | 0 <= k < t.decodeSubmit ensures StaleAt(t, k) {
      assert t.trace.slotOf[..k] == s.trace.slotOf[..k];
      if k < s.decodeSubmit { assert StaleAt(s, k); } else { assert s.trace.slotOf[..k] == s.trace.slotOf; }
    }
    forall x | 0 <= x < |t.ops| ensures SlotMarked(t, x) {
      assert SlotMarked(s, x);
      LastInAppend(s.trace.slotOf, i, x);
    }
  }

  lemma StaleSubmitDecode(s: State, e: Event)
    requires Ledger(s) && StaleKept(s) && e.SubmitDecode?
    ensures StaleKept(Step(s, e))
  {
    hide Times, LastIn, Completed, Located, Surfaced, Delivered;
    var i := First(s.ops, WantFree, 0);
    if i < |s.ops| {
      var u := SubmitDecodeStep(s, e.draining, e.pts, e.user, DecodeBusy, e.consumed).state;
      LedgerSubmitDecode(s, e.draining, e.pts, e.user, DecodeBusy, e.consumed);
      LedgerSubmitDecode(s, e.draining, e.pts, e.user, e.decode, e.consumed);
      assert SlotMarked(s, i);
      CompletedStays(s, u);
      StaleStays(s, u, i, s.decodeSubmit);
      if e.decode.DecodeFrame? { StaleTake(u, i, e.decode.surface, e.decode.hasSync); }
    }
  }

  lemma StaleIdle(s: State, e: Event)
    requires StaleKept(s) && Bounds(Step(s, e)) && (e.Append? || e.DrainOutput?)
    ensures StaleKept(Step(s, e))
  {
    hide Times, LastIn, Completed;
    CompletedStays(s, Step(s, e));
    assert SlotMarked(s, 0) && s.ops[0 := s.ops[0]] == s.ops;
    StaleStays(s, Step(s, e), 0, s.decodeSubmit);
  }

  lemma StaleStep(s: State, e: Event)
    requires Ledger(s) && Once(s) && StaleKept(s)
    ensures StaleKept(Step(s, e))
  {
    hide StaleKept, Once;
    LedgerStep(s, e);
    match e
    case Append(_) => StaleIdle(s, e);
    case DrainOutput(_) => StaleIdle(s, e);
    case SyncEncode(a, bits) => StaleSyncEncode(s, a, bits);
    case SyncDecode(a, fails) => StaleSyncDecode(s, a, fails);
    case SubmitEncode(p, a) => StaleSubmitEncode(s, p, a);
    case SubmitDecode(_, _, _, _, _) => StaleSubmitDecode(s, e);
  }

  lemma {:induction false} StaleRun(asyncDepth: nat, es: seq<Event>)
    ensures StaleKept(Run(Init(asyncDepth), es))
    decreases |es|
  {
    LedgerInit(asyncDepth);
    if es != [] {
      StaleRun(asyncDepth, es[..|es| - 1]);
      OnceRun(asyncDepth, es[..|es| - 1]);
      LedgerRun(Init(asyncDepth), es[..|es| - 1]);
      StaleStep(Run(Init(asyncDepth), es[..|es| - 1]), es[|es| - 1]);
    }
  }

  /** In every run the flag of the slot is set as frame `k` is taken exactly when there was a
      frame in the slot before, the last of them completed its encode, and its preprocessing
      never failed with a control in hand. */
  lemma StaleIff(asyncDepth: nat, es: seq<Event>, k: nat)
    requires k < Run(Init(asyncDepth), es).decodeSubmit
    ensures var s := Run(Init(asyncDepth), es);
            && Bounds(s)
            && (s.trace.stale[k] <==> LeftMarked(s, Previous(s, k)))
  {
    StaleRun(asyncDepth, es);
    assert StaleAt(Run(Init(asyncDepth), es), k);
  }
}
