/** The pool of encode-control slots: who holds them, and when the pool has to grow. */
module RoutePool {
  import opened Basics
  import opened Sums
  import opened RouteModel
  import opened RouteResources

  // ----- control slots

  function UsedW(): bool -> int {
    (b: bool) => if b then 1 else 0
  }

  function HolderW(): Op -> int {
    (op: Op) => if op.ctrl.Some? then 1 else 0
  }

  function Used(ctrl: seq<bool>): int {
    Sum(ctrl, UsedW())
  }

  function Holders(s: State): int {
    Sum(s.ops, HolderW())
  }

  /** Slots in use are held by one pipeline slot each, or were lost to a failed Unmap. */
  ghost predicate Pooled(s: State) {
    && (forall i :: 0 <= i < |s.ops| && s.ops[i].ctrl.Some? ==>
          s.ops[i].ctrl.value < |s.ctrl| && s.ctrl[s.ops[i].ctrl.value] && s.ops[i].phase in {Decoded, Encoding})
    && (forall i, j :: 0 <= i < j < |s.ops| && s.ops[i].ctrl.Some? && s.ops[j].ctrl.Some? ==>
          s.ops[i].ctrl.value != s.ops[j].ctrl.value)
    && Used(s.ctrl) == Holders(s) + s.trace.leaked
  }

  lemma AcquireUses(ctrl: seq<bool>)
    requires |ctrl| > 0
    ensures Used(Acquire(ctrl)) == Used(ctrl) + 1
    ensures AcquiredIndex(ctrl) < |Acquire(ctrl)| && Acquire(ctrl)[AcquiredIndex(ctrl)]
    ensures |ctrl| <= |Acquire(ctrl)| <= |ctrl| + 1
    ensures |Acquire(ctrl)| > |ctrl| <==> Used(ctrl) == |ctrl|
    ensures forall j :: 0 <= j < |ctrl| && ctrl[j] ==> j != AcquiredIndex(ctrl) && Acquire(ctrl)[j]
  {
    var i := FirstUnused(ctrl, 0);
    SumFull(ctrl, UsedW());
    if i < |ctrl| {
      SumUpdate(ctrl, i, true, UsedW());
    } else {
      SumAppend(ctrl, true, UsedW());
    }
  }

  lemma ReleaseFrees(ctrl: seq<bool>, slot: nat)
    requires slot < |ctrl| && ctrl[slot]
    ensures Used(ReleaseCtrl(ctrl, Some(slot))) == Used(ctrl) - 1
    ensures |ReleaseCtrl(ctrl, Some(slot))| == |ctrl|
  {
    SumUpdate(ctrl, slot, false, UsedW());
  }

  /** A slot gives its control back (or never had one) and keeps none. */
  lemma PooledRelease(s: State, t: State, i: nat)
    requires Pooled(s) && i < |s.ops| == |t.ops|
    requires t.ops == s.ops[i := t.ops[i]] && t.ops[i].ctrl.None?
    requires t.ctrl == ReleaseCtrl(s.ctrl, s.ops[i].ctrl) && t.trace.leaked == s.trace.leaked
    ensures Pooled(t) && |t.ctrl| == |s.ctrl|
  {
    SumUpdate(s.ops, i, t.ops[i], HolderW());
    if s.ops[i].ctrl.Some? {
      ReleaseFrees(s.ctrl, s.ops[i].ctrl.value);
    }
  }

  /** A slot changes without touching its control. */
  lemma PooledKeep(s: State, t: State, i: nat)
    requires Pooled(s) && i < |s.ops| == |t.ops|
    requires t.ops == s.ops[i := t.ops[i]] && t.ops[i].ctrl == s.ops[i].ctrl
    requires t.ops[i].ctrl.Some? ==> t.ops[i].phase in {Decoded, Encoding}
    requires t.ctrl == s.ctrl && t.trace.leaked == s.trace.leaked
    ensures Pooled(t)
  {
    SumUpdate(s.ops, i, t.ops[i], HolderW());
  }

  /** A slot without a control takes the acquired one. */
  lemma PooledTake(s: State, t: State, i: nat)
    requires Pooled(s) && i < |s.ops| == |t.ops| && |s.ctrl| > 0
    requires s.ops[i].ctrl.None? && t.ops == s.ops[i := t.ops[i]]
    requires t.ops[i].ctrl == Some(AcquiredIndex(s.ctrl)) && t.ops[i].phase == Decoded
    requires t.ctrl == Acquire(s.ctrl) && t.trace.leaked == s.trace.leaked
    ensures Pooled(t)
  {
    AcquireUses(s.ctrl);
    SumUpdate(s.ops, i, t.ops[i], HolderW());
  }

  /** A slot without a control goes without one. */
  lemma PooledRefuse(s: State, t: State, i: nat)
    requires Pooled(s) && i < |s.ops| == |t.ops|
    requires s.ops[i].ctrl.None? && t.ops == s.ops[i := t.ops[i]] && t.ops[i].ctrl.None?
    requires |t.ctrl| >= |s.ctrl| && forall j :: 0 <= j < |s.ctrl| && s.ctrl[j] ==> t.ctrl[j]
    requires Used(t.ctrl) == Used(s.ctrl) + t.trace.leaked - s.trace.leaked
    ensures Pooled(t)
  {
    SumUpdate(s.ops, i, t.ops[i], HolderW());
  }

  lemma NotAllHold(s: State, i: nat)
    requires i < |s.ops| && s.ops[i].ctrl.None?
    ensures Holders(s) < |s.ops|
  {
    SumFull(s.ops, HolderW());
    assert HolderW()(s.ops[i]) == 0;
  }

  lemma PooledControl(s: State, i: nat, control: Control)
    requires Pooled(s) && i < |s.ops| && |s.ctrl| > 0
    requires s.ops[i].phase == Decoded && s.ops[i].ctrl.None?
    ensures Pooled(TakeControl(s, i, control))
    ensures |s.ctrl| <= |TakeControl(s, i, control).ctrl|
    ensures |TakeControl(s, i, control).ctrl| > |s.ctrl| <==> Used(s.ctrl) == |s.ctrl| && !control.NoControl?
  {
    var t := TakeControl(s, i, control);
    AcquireUses(s.ctrl);
    if control.ControlKept? {
      PooledTake(s, t, i);
    } else {
      if control.ControlDropped? { ReleaseFrees(Acquire(s.ctrl), AcquiredIndex(s.ctrl)); }
      assert s.ops[i := s.ops[i]] == s.ops;
      PooledRefuse(s, t, i);
    }
  }

  lemma PooledFilter(s: State, i: nat, fails: bool)
    requires Pooled(s) && i < |s.ops|
    ensures Pooled(Filter(s, i, fails)) && Filter(s, i, fails).ctrl == s.ctrl
  {
    assert s.ops[i := s.ops[i]] == s.ops;
    PooledKeep(s, Filter(s, i, fails), i);
  }

  lemma PooledPrepare(s: State, i: nat, p: Prepare)
    requires Pooled(s) && i < |s.ops| && |s.ctrl| > 0
    requires s.ops[i].phase == Decoded && s.ops[i].ctrl.None?
    ensures Pooled(PrepareFrame(s, i, p).state)
    ensures Holders(s) < |s.ops|
    ensures |s.ctrl| <= |PrepareFrame(s, i, p).state.ctrl|
    ensures |PrepareFrame(s, i, p).state.ctrl| > |s.ctrl| <==> Used(s.ctrl) == |s.ctrl| && !p.control.NoControl?
  {
    hide TakeControl, Filter;
    NotAllHold(s, i);
    PooledControl(s, i, p.control);
    ControlKeepsSlots(s, i, p.control);
    PooledFilter(TakeControl(s, i, p.control), i, p.filterFails);
  }

  /** Taking a control changes the slot's control only; losing one changes no slot. */
  lemma ControlKeepsSlots(s: State, i: nat, control: Control)
    requires i < |s.ops|
    ensures var t := TakeControl(s, i, control);
            && |t.ops| == |s.ops| && t.ops[i] == s.ops[i].(ctrl := t.ops[i].ctrl)
            && t.trace.leaked == s.trace.leaked + (if control.UnmapFails? then 1 else 0)
  {
  }

  /** Preparing keeps the slot decoded and loses a control only when Unmap throws. */
  lemma PrepareKeepsSlot(s: State, i: nat, p: Prepare)
    requires i < |s.ops|
    ensures var t := PrepareFrame(s, i, p).state;
            && |t.ops| == |s.ops| && t.ops[i].phase == s.ops[i].phase
            && t.trace.leaked == s.trace.leaked + (if p.control.UnmapFails? then 1 else 0)
  {
    hide TakeControl;
    ControlKeepsSlots(s, i, p.control);
  }

  lemma PooledEncode(s: State, i: nat, answer: EncodeAnswer)
    requires Pooled(s) && i < |s.ops| && s.ops[i].phase == Decoded
    ensures Pooled(Encode(s, i, answer).state) && |Encode(s, i, answer).state.ctrl| == |s.ctrl|
  {
    var t := Encode(s, i, answer).state;
    match answer
    case EncodeBusy => PooledKeep(s, t, i);
    case EncodeAccepted(_) => PooledKeep(s, t, i);
    case _ => PooledRelease(s, t, i);
  }

  /** Pool size: fixed by initialisation as long as the losses leave room for all slots. */
  ghost predicate Sized(s: State, asyncDepth: nat) {
    && |s.ops| == Depth(asyncDepth)
    && |s.ctrl| >= asyncDepth + 4
    && (s.trace.leaked + Depth(asyncDepth) <= asyncDepth + 4 ==> |s.ctrl| == asyncDepth + 4)
  }

  lemma PoolPrepare(s: State, i: nat, p: Prepare, asyncDepth: nat)
    requires Pooled(s) && Sized(s, asyncDepth) && i < |s.ops|
    requires s.ops[i].phase == Decoded && s.ops[i].ctrl.None?
    ensures Pooled(PrepareFrame(s, i, p).state) && Sized(PrepareFrame(s, i, p).state, asyncDepth)
  {
    hide PrepareFrame;
    PooledPrepare(s, i, p);
    PrepareKeepsSlot(s, i, p);
  }

  lemma PoolEncode(s: State, i: nat, answer: EncodeAnswer, asyncDepth: nat)
    requires Pooled(s) && Sized(s, asyncDepth) && i < |s.ops| && s.ops[i].phase == Decoded
    ensures Pooled(Encode(s, i, answer).state) && Sized(Encode(s, i, answer).state, asyncDepth)
  {
    PooledEncode(s, i, answer);
  }

  lemma PoolSubmitEncode(s: State, prepare: Prepare, answer: EncodeAnswer, asyncDepth: nat)
    requires Pooled(s) && Sized(s, asyncDepth)
    ensures Pooled(SubmitEncodeStep(s, prepare, answer).state)
    ensures Sized(SubmitEncodeStep(s, prepare, answer).state, asyncDepth)
  {
    hide PrepareFrame, Encode, Pooled;
    var sel := Oldest(s.ops, |s.ops|);
    if sel.Some? {
      var i := sel.value;
      if s.ops[i].ctrl.Some? {
        PoolEncode(s, i, answer, asyncDepth);
      } else {
        PoolPrepare(s, i, prepare, asyncDepth);
        PrepareKeepsSlot(s, i, prepare);
        PoolEncode(PrepareFrame(s, i, prepare).state, i, answer, asyncDepth);
      }
    }
  }

  lemma PoolSyncEncode(s: State, a: SyncAnswer, bits: Bits, asyncDepth: nat)
    requires Pooled(s) && Sized(s, asyncDepth)
    ensures Pooled(SyncEncodeStep(s, a, bits).state) && Sized(SyncEncodeStep(s, a, bits).state, asyncDepth)
  {
    var i, t := First(s.ops, WantEncoding(s.encodeOut), 0), SyncEncodeStep(s, a, bits).state;
    if t != s { PooledRelease(s, t, i); }
  }

  lemma PoolSyncDecode(s: State, a: SyncAnswer, fails: bool, asyncDepth: nat)
    requires Pooled(s) && Sized(s, asyncDepth)
    ensures Pooled(SyncDecodeStep(s, a, fails).state) && Sized(SyncDecodeStep(s, a, fails).state, asyncDepth)
  {
    var i, t := First(s.ops, WantDecoding(s.decodeOut), 0), SyncDecodeStep(s, a, fails).state;
    if t != s { PooledRelease(s, t, i); }
  }

  lemma PoolSubmitDecode(s: State, e: Event, asyncDepth: nat)
    requires Pooled(s) && Sized(s, asyncDepth) && e.SubmitDecode?
    ensures Pooled(Step(s, e)) && Sized(Step(s, e), asyncDepth)
  {
    var i := First(s.ops, WantFree, 0);
    SubmitDecodeTouches(s, e);
    if i < |s.ops| { PooledKeep(s, Step(s, e), i); }
  }

  lemma PoolStep(s: State, e: Event, asyncDepth: nat)
    requires Pooled(s) && Sized(s, asyncDepth)
    ensures Pooled(Step(s, e)) && Sized(Step(s, e), asyncDepth)
  {
    match e
    case Append(_) =>
    case DrainOutput(_) =>
    case SyncEncode(a, bits) => PoolSyncEncode(s, a, bits, asyncDepth);
    case SyncDecode(a, fails) => PoolSyncDecode(s, a, fails, asyncDepth);
    case SubmitEncode(p, a) => PoolSubmitEncode(s, p, a, asyncDepth);
    case SubmitDecode(_, _, _, _, _) => PoolSubmitDecode(s, e, asyncDepth);
  }

  lemma {:induction false} PoolRun(asyncDepth: nat, es: seq<Event>)
    ensures Pooled(Run(Init(asyncDepth), es)) && Sized(Run(Init(asyncDepth), es), asyncDepth)
    decreases |es|
  {
    if es == [] {
      SumConst(Init(asyncDepth).ctrl, UsedW(), 0);
      SumConst(Init(asyncDepth).ops, HolderW(), 0);
    } else {
      PoolRun(asyncDepth, es[..|es| - 1]);
      PoolStep(Run(Init(asyncDepth), es[..|es| - 1]), es[|es| - 1], asyncDepth);
    }
  }

  /** Control slots in use are exactly the ones held by pipeline slots, one each, plus the
      ones lost to a failed Unmap; without such losses the pool keeps its initial size and no
      held pointer is ever invalidated, across all busy retries and errors. */
  lemma PoolTheorem(asyncDepth: nat, es: seq<Event>)
    ensures var s := Run(Init(asyncDepth), es);
            && Pooled(s)
            && (s.trace.leaked + Depth(asyncDepth) <= asyncDepth + 4 ==> |s.ctrl| == asyncDepth + 4)
  {
    PoolRun(asyncDepth, es);
  }

  /** The pool grows at a step exactly when holders and losses together fill it. */
  lemma PoolGrowsIff(asyncDepth: nat, es: seq<Event>, prepare: Prepare, answer: EncodeAnswer)
    ensures var s := Run(Init(asyncDepth), es);
            var sel := Oldest(s.ops, |s.ops|);
            |SubmitEncodeStep(s, prepare, answer).state.ctrl| > |s.ctrl| <==>
            && sel.Some? && s.ops[sel.value].ctrl.None? && !prepare.control.NoControl?
            && Holders(s) + s.trace.leaked == |s.ctrl|
  {
    PoolRun(asyncDepth, es);
    var s := Run(Init(asyncDepth), es);
    var sel := Oldest(s.ops, |s.ops|);
    if sel.Some? {
      var i := sel.value;
      if s.ops[i].ctrl.Some? {
        PooledEncode(s, i, answer);
      } else {
        PooledPrepare(s, i, prepare);
        PrepareKeepsSlot(s, i, prepare);
        PooledEncode(PrepareFrame(s, i, prepare).state, i, answer);
      }
    }
  }

  // ----- the bound on losses is exact

  /** Slots below `m` are encoding and hold the control slots below `m`, slot `m` (if any)
      is in the given phase without a control, the others are free. */
  ghost predicate Staged(s: State, asyncDepth: nat, m: nat, phase: Phase) {
    && |s.ops| == Depth(asyncDepth) && |s.ctrl| == asyncDepth + 4 && m <= |s.ops|
    && (forall i :: 0 <= i < m ==> s.ops[i].phase == Encoding)
    && (forall i :: m < i < |s.ops| ==> s.ops[i].phase == Free)
    && (m < |s.ops| ==> s.ops[m].phase == phase && (phase != Free ==> s.ops[m].ctrl.None?))
    && (phase == Decoding ==> m < |s.ops| && s.ops[m].decodeOrder == s.decodeOut && s.ops[m].surface.Some?)
    && (phase == Free ==> s.decodeOut == s.decodeSubmit)
    && (forall j :: 0 <= j < |s.ctrl| ==> (s.ctrl[j] <==> j < m))
    && s.trace.leaked == 0
  }

  const TAKE := SubmitDecode(false, 0, 0, DecodeFrame(0, false), 0)
  const READY := SyncDecode(SyncDone, false)
  const ACCEPT := SubmitEncode(Prepare(ControlKept, false, false), EncodeAccepted(true))
  const LOSE := SubmitEncode(Prepare(UnmapFails, false, false), EncodeBusy)
  const HOLD := SubmitEncode(Prepare(ControlKept, false, false), EncodeBusy)

  lemma StageTake(s: State, asyncDepth: nat, m: nat)
    requires Staged(s, asyncDepth, m, Free) && m < |s.ops|
    ensures Staged(Step(s, TAKE), asyncDepth, m, Decoding)
  {
    assert First(s.ops, WantFree, 0) == m;
  }

  lemma StageReady(s: State, asyncDepth: nat, m: nat)
    requires Staged(s, asyncDepth, m, Decoding) && s.decodeSubmit == s.decodeOut + 1
    ensures Staged(Step(s, READY), asyncDepth, m, Decoded)
    ensures Step(s, READY).decodeOut == s.decodeSubmit == Step(s, READY).decodeSubmit
  {
    assert First(s.ops, WantDecoding(s.decodeOut), 0) == m;
  }

  lemma StageOldest(s: State, asyncDepth: nat, m: nat)
    requires Staged(s, asyncDepth, m, Decoded) && m < |s.ops|
    ensures Oldest(s.ops, |s.ops|) == Some(m)
    ensures FirstUnused(s.ctrl, 0) == m
  {
    assert s.ops[m].phase == Decoded;
    assert m < |s.ctrl| && !s.ctrl[m];
  }

  lemma StageAccept(s: State, asyncDepth: nat, m: nat)
    requires Staged(s, asyncDepth, m, Decoded) && m < |s.ops| && s.decodeOut == s.decodeSubmit
    ensures Staged(Step(s, ACCEPT), asyncDepth, m + 1, Free)
  {
    StageOldest(s, asyncDepth, m);
  }

  /** One more frame up to the encoder. */
  lemma StageFrame(asyncDepth: nat, m: nat, before: seq<Event>) returns (es: seq<Event>)
    requires var s := Run(Init(asyncDepth), before);
             Staged(s, asyncDepth, m, Free) && m < |s.ops|
    ensures Staged(Run(Init(asyncDepth), es), asyncDepth, m, Decoded)
    ensures Run(Init(asyncDepth), es).decodeOut == Run(Init(asyncDepth), es).decodeSubmit
  {
    var s := Run(Init(asyncDepth), before);
    StageTake(s, asyncDepth, m);
    var t := Step(s, TAKE);
    RunAppend(Init(asyncDepth), before, TAKE);
    StageReady(t, asyncDepth, m);
    RunAppend(Init(asyncDepth), before + [TAKE], READY);
    es := before + [TAKE] + [READY];
  }

  lemma {:induction false} Fill(asyncDepth: nat, m: nat) returns (es: seq<Event>)
    requires m < Depth(asyncDepth)
    ensures Staged(Run(Init(asyncDepth), es), asyncDepth, m, Decoded)
    ensures Run(Init(asyncDepth), es).decodeOut == Run(Init(asyncDepth), es).decodeSubmit
  {
    if m == 0 {
      es := StageFrame(asyncDepth, 0, []);
    } else {
      var fs := Fill(asyncDepth, m - 1);
      StageAccept(Run(Init(asyncDepth), fs), asyncDepth, m - 1);
      RunAppend(Init(asyncDepth), fs, ACCEPT);
      es := StageFrame(asyncDepth, m, fs + [ACCEPT]);
    }
  }

  /** Losing `n` control slots to failing Unmaps leaves the decoded frame where it is. */
  lemma {:induction false} Lose(s: State, asyncDepth: nat, n: nat) returns (t: State, es: seq<Event>)
    requires Pooled(s) && Sized(s, asyncDepth)
    requires Oldest(s.ops, |s.ops|).Some? && s.ops[Oldest(s.ops, |s.ops|).value].ctrl.None?
    ensures t == Run(s, es) && t.ops == s.ops && Pooled(t) && Sized(t, asyncDepth)
            && t.trace.leaked == s.trace.leaked + n
  {
    if n == 0 {
      t, es := s, [];
    } else {
      var u, fs := Lose(s, asyncDepth, n - 1);
      PoolStep(u, LOSE, asyncDepth);
      RunAppend(s, fs, LOSE);
      t, es := Step(u, LOSE), fs + [LOSE];
    }
  }

  /** For every depth there is a run that grows the pool with one loss more than the
      theorem allows. */
  lemma PoolCanGrow(asyncDepth: nat) returns (es: seq<Event>)
    ensures var s := Run(Init(asyncDepth), es);
            s.trace.leaked + Depth(asyncDepth) == asyncDepth + 5 && |s.ctrl| > asyncDepth + 4
  {
    var m := Depth(asyncDepth) - 1;
    var fs := Fill(asyncDepth, m);
    var s := Run(Init(asyncDepth), fs);
    PoolRun(asyncDepth, fs);
    StageOldest(s, asyncDepth, m);
    var t, gs := Lose(s, asyncDepth, asyncDepth + 5 - Depth(asyncDepth));
    RunConcat(Init(asyncDepth), fs, gs);
    es := fs + gs + [HOLD];
    StagedUse(s, asyncDepth, m);
    PooledPrepare(t, m, Prepare(ControlKept, false, false));
  }

  lemma StagedUse(s: State, asyncDepth: nat, m: nat)
    requires Staged(s, asyncDepth, m, Decoded) && m < |s.ops|
    ensures Used(s.ctrl) == m
  {
    CountBelow(s.ctrl, m);
  }

  lemma {:induction false} CountBelow(ctrl: seq<bool>, m: nat)
    requires forall j :: 0 <= j < |ctrl| ==> (ctrl[j] <==> j < m)
    ensures Used(ctrl) == if m < |ctrl| then m else |ctrl|
    decreases |ctrl|
  {
    if ctrl != [] {
      CountBelow(ctrl[..|ctrl| - 1], m);
    }
  }

  /** The pool keeps its size in every run with at most `losses` failed Unmaps exactly when
      `losses` plus the pipeline depth fits the initial pool. */
  lemma PoolBoundIsExact(asyncDepth: nat, losses: nat)
    ensures (forall es :: Run(Init(asyncDepth), es).trace.leaked <= losses ==>
                            |Run(Init(asyncDepth), es).ctrl| == asyncDepth + 4)
            <==> losses + Depth(asyncDepth) <= asyncDepth + 4
  {
    if losses + Depth(asyncDepth) <= asyncDepth + 4 {
      forall es | Run(Init(asyncDepth), es).trace.leaked <= losses
        ensures |Run(Init(asyncDepth), es).ctrl| == asyncDepth + 4
      {
        PoolTheorem(asyncDepth, es);
      }
    } else {
      var es := PoolCanGrow(asyncDepth);
      assert Run(Init(asyncDepth), es).trace.leaked <= losses;
    }
  }
}
