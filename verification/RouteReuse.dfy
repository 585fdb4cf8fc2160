/** Static reuse in whole runs of a route: which preparations the frames of a run go through, and
    how old, in frames, the picture of a replaced frame can be. */
module RouteReuse {
  import opened Basics
  import opened RouteModel
  import opened RouteLedger
  import opened RoutePreprocess
  import Reuse = StaticReuse
  import Bounds = ReuseBounds

  /** One preparation: the number of its frame, and what it comes to for static reuse. */
  datatype Preparation = Preparation(frame: nat, fate: Reuse.Fate)

  /** A lost control loses its decision, and a failure of preprocessing skips the reuse step; a
      failure to unmap after the reuse step leaves its effect. */
  function FateOf(op: Op, p: Prepare): Reuse.Fate {
    match p.control
    case UnmapFails => Reuse.Lost
    case ControlKept => if !op.preprocessed && p.filterFails then Reuse.Skipped else Reuse.Applied
    case _ => Reuse.Undecided
  }

  /** The preparation of an event, when it is one. */
  function PreparationOf(s: State, e: Event): seq<Preparation> {
    if !e.SubmitEncode? then []
    else
      var sel := Oldest(s.ops, |s.ops|);
      if sel.None? || s.ops[sel.value].ctrl.Some? then []
      else [Preparation(s.ops[sel.value].decodeOrder, FateOf(s.ops[sel.value], e.prepare))]
  }

  /** All preparations of a run, in order. */
  function Preparations(asyncDepth: nat, es: seq<Event>): seq<Preparation> {
    if es == [] then []
    else
      var before := es[..|es| - 1];
      Preparations(asyncDepth, before) + PreparationOf(Run(Init(asyncDepth), before), es[|es| - 1])
  }

  /** The frame keeps its control and is not prepared again. */
  predicate Final(p: Preparation) {
    p.fate.Applied? || p.fate.Skipped?
  }

  /** Frames are prepared one after the other, each again only until it has a control. */
  ghost predicate InTurn(ps: seq<Preparation>) {
    && (ps != [] ==> ps[0].frame == 0)
    && forall j :: 0 < j < |ps| ==>
         && ps[j - 1].frame <= ps[j].frame <= ps[j - 1].frame + 1
         && (Final(ps[j - 1]) ==> ps[j].frame == ps[j - 1].frame + 1)
  }

  function SkippedFrames(ps: seq<Preparation>): seq<nat> {
    if ps == [] then []
    else
      var last := ps[|ps| - 1];
      SkippedFrames(ps[..|ps| - 1]) + if last.fate.Skipped? then [last.frame] else []
  }

  function LostDecisions(ps: seq<Preparation>): nat {
    if ps == [] then 0 else LostDecisions(ps[..|ps| - 1]) + B2N(ps[|ps| - 1].fate.Lost?)
  }

  /** The last preparation was of the next frame to hand on. */
  predicate OnNext(s: State, ps: seq<Preparation>) {
    ps != [] && ps[|ps| - 1].frame == |s.trace.handed|
  }

  ghost predicate SlotTracked(s: State, ps: seq<Preparation>, i: nat)
    requires i < |s.ops|
  {
    s.ops[i].phase == Decoded ==>
      (s.ops[i].ctrl.Some? <==>
         s.ops[i].decodeOrder == |s.trace.handed| && OnNext(s, ps) && Final(ps[|ps| - 1]))
  }

  ghost predicate Tracked(s: State, ps: seq<Preparation>) {
    && InTurn(ps)
    && (ps == [] ==> s.trace.handed == [])
    && (ps != [] ==> ps[|ps| - 1].frame <= |s.trace.handed| <= ps[|ps| - 1].frame + 1)
    && (OnNext(s, ps) ==> |s.trace.handed| < s.decodeOut)
    && (forall i :: 0 <= i < |s.ops| ==> SlotTracked(s, ps, i))
    && SkippedFrames(ps) == s.trace.unmarked && LostDecisions(ps) == s.trace.leaked
  }

  // ----- every step keeps track

  /** A slot that is not being encoded: as before, or newly decoded without a control. */
  ghost predicate SlotStays(s: State, t: State, i: nat)
    requires i < |s.ops| == |t.ops|
  {
    t.ops[i].phase == Decoded ==>
      t.ops[i] == s.ops[i] || (t.ops[i].ctrl.None? && t.ops[i].decodeOrder == s.decodeOut)
  }

  lemma TrackedStays(s: State, t: State, ps: seq<Preparation>)
    requires Tracked(s, ps) && |t.ops| == |s.ops| && t.trace.handed == s.trace.handed && s.decodeOut <= t.decodeOut
    requires t.trace.unmarked == s.trace.unmarked && t.trace.leaked == s.trace.leaked
    requires forall i :: 0 <= i < |s.ops| ==> SlotStays(s, t, i)
    ensures Tracked(t, ps)
  {
    hide InTurn, SkippedFrames, LostDecisions;
    forall i | 0 <= i < |t.ops| ensures SlotTracked(t, ps, i) {
      assert SlotStays(s, t, i) && SlotTracked(s, ps, i);
    }
  }

  lemma TrackedSyncDecode(s: State, a: SyncAnswer, fails: bool, ps: seq<Preparation>)
    requires Ledger(s) && Once(s) && Tracked(s, ps)
    ensures Tracked(SyncDecodeStep(s, a, fails).state, ps)
  {
    hide Tracked, Located, Times;
    var i, t := First(s.ops, WantDecoding(s.decodeOut), 0), SyncDecodeStep(s, a, fails).state;
    if i < |s.ops| {
      SlotHolds(s, i);
      assert FlagTells(s, i);
    }
    forall x | 0 <= x < |s.ops| ensures SlotStays(s, t, x) {}
    TrackedStays(s, t, ps);
  }

  lemma TrackedSyncEncode(s: State, a: SyncAnswer, bits: Bits, ps: seq<Preparation>)
    requires Tracked(s, ps)
    ensures Tracked(SyncEncodeStep(s, a, bits).state, ps)
  {
    hide Tracked;
    var t := SyncEncodeStep(s, a, bits).state;
    forall x | 0 <= x < |s.ops| ensures SlotStays(s, t, x) {}
    TrackedStays(s, t, ps);
  }

  lemma TrackedOther(s: State, e: Event, ps: seq<Preparation>)
    requires Tracked(s, ps) && (e.Append? || e.DrainOutput? || e.SubmitDecode?)
    ensures Tracked(Step(s, e), ps)
  {
    hide Tracked;
    forall x | 0 <= x < |s.ops| ensures SlotStays(s, Step(s, e), x) {}
    TrackedStays(s, Step(s, e), ps);
  }

  lemma TurnAppended(ps: seq<Preparation>, p: Preparation)
    requires InTurn(ps) && (ps == [] ==> p.frame == 0)
    requires ps != [] ==>
               && ps[|ps| - 1].frame <= p.frame <= ps[|ps| - 1].frame + 1
               && (Final(ps[|ps| - 1]) ==> p.frame == ps[|ps| - 1].frame + 1)
    ensures InTurn(ps + [p])
  {
    hide Final;
    var qs := ps + [p];
    forall j | 0 < j < |qs|
      ensures qs[j - 1].frame <= qs[j].frame <= qs[j - 1].frame + 1
      ensures Final(qs[j - 1]) ==> qs[j].frame == qs[j - 1].frame + 1
    {
      assert qs[j - 1] == ps[j - 1];
    }
  }

  lemma CountsAppended(ps: seq<Preparation>, p: Preparation)
    ensures SkippedFrames(ps + [p]) == SkippedFrames(ps) + if p.fate.Skipped? then [p.frame] else []
    ensures LostDecisions(ps + [p]) == LostDecisions(ps) + B2N(p.fate.Lost?)
  {
    assert (ps + [p])[..|ps|] == ps;
  }

  /** What preparing slot `i` leaves: its control, and the histories of failures. */
  lemma PrepareKeeps(s: State, i: nat, p: Prepare)
    requires i < |s.ops| && s.ops[i].ctrl.None?
    ensures var t, f := PrepareFrame(s, i, p).state, FateOf(s.ops[i], p);
            && |t.ops| == |s.ops| && t.trace.handed == s.trace.handed && t.decodeOut == s.decodeOut
            && (forall x :: 0 <= x < |s.ops| && x != i ==> t.ops[x] == s.ops[x])
            && t.ops[i].phase == s.ops[i].phase && t.ops[i].decodeOrder == s.ops[i].decodeOrder
            && (t.ops[i].ctrl.Some? <==> f.Applied? || f.Skipped?)
            && t.trace.unmarked == s.trace.unmarked + (if f.Skipped? then [s.ops[i].decodeOrder] else [])
            && t.trace.leaked == s.trace.leaked + B2N(f.Lost?)
  {
    hide Acquire, FirstUnused, ReleaseCtrl;
  }

  lemma TrackedPrepare(s: State, i: nat, p: Prepare, ps: seq<Preparation>)
    requires Ledger(s) && Tracked(s, ps) && i < |s.ops| && s.ops[i].phase == Decoded && s.ops[i].ctrl.None?
    requires s.ops[i].decodeOrder == |s.trace.handed|
    ensures Tracked(PrepareFrame(s, i, p).state, ps + [Preparation(s.ops[i].decodeOrder, FateOf(s.ops[i], p))])
  {
    hide PrepareFrame, FateOf, InTurn, SkippedFrames, LostDecisions;
    var t, q := PrepareFrame(s, i, p).state, Preparation(s.ops[i].decodeOrder, FateOf(s.ops[i], p));
    PrepareKeeps(s, i, p);
    SlotHolds(s, i);
    assert SlotTracked(s, ps, i);
    TurnAppended(ps, q);
    CountsAppended(ps, q);
    forall x | 0 <= x < |t.ops| ensures SlotTracked(t, ps + [q], x) {
      assert SlotTracked(s, ps, x);
      if x != i { OrdersDiffer(s, i, x); }
    }
  }

  /** Encoding the frame that was prepared last hands it on, unless the device is busy. */
  lemma TrackedEncode(s: State, i: nat, answer: EncodeAnswer, ps: seq<Preparation>)
    requires Ledger(s) && Tracked(s, ps) && i < |s.ops| && s.ops[i].phase == Decoded
    requires s.ops[i].decodeOrder == |s.trace.handed| && OnNext(s, ps)
    ensures Tracked(Encode(s, i, answer).state, ps)
  {
    hide InTurn, SkippedFrames, LostDecisions, Ledger;
    var t := Encode(s, i, answer).state;
    forall x | 0 <= x < |t.ops| ensures SlotTracked(t, ps, x) {
      assert SlotTracked(s, ps, x);
      if x != i { OrdersDiffer(s, i, x); }
    }
  }

  lemma TrackedSubmitEncode(s: State, e: Event, ps: seq<Preparation>)
    requires Ledger(s) && Tracked(s, ps) && e.SubmitEncode?
    ensures Tracked(Step(s, e), ps + PreparationOf(s, e))
  {
    hide PrepareFrame, Encode, FateOf, Ledger, InTurn, SkippedFrames, LostDecisions;
    var sel := Oldest(s.ops, |s.ops|);
    OldestIsNext(s);
    assert ps + [] == ps;
    if sel.Some? {
      var i := sel.value;
      assert SlotTracked(s, ps, i);
      if s.ops[i].ctrl.Some? {
        TrackedEncode(s, i, e.encode, ps);
      } else {
        LedgerPrepare(s, i, e.prepare);
        PrepareKeeps(s, i, e.prepare);
        TrackedPrepare(s, i, e.prepare, ps);
        if !PrepareFrame(s, i, e.prepare).threw {
          TrackedEncode(PrepareFrame(s, i, e.prepare).state, i, e.encode, ps + PreparationOf(s, e));
        }
      }
    }
  }

  lemma TrackedStep(s: State, e: Event, ps: seq<Preparation>)
    requires Ledger(s) && Once(s) && Tracked(s, ps)
    ensures Tracked(Step(s, e), ps + PreparationOf(s, e))
  {
    hide Tracked, Once, Ledger;
    assert ps + [] == ps;
    match e
    case SyncEncode(a, bits) => TrackedSyncEncode(s, a, bits, ps);
    case SyncDecode(a, fails) => TrackedSyncDecode(s, a, fails, ps);
    case SubmitEncode(_, _) => TrackedSubmitEncode(s, e, ps);
    case _ => TrackedOther(s, e, ps);
  }

  lemma {:induction false} TrackedRun(asyncDepth: nat, es: seq<Event>)
    ensures Tracked(Run(Init(asyncDepth), es), Preparations(asyncDepth, es))
    decreases |es|
  {
    if es != [] {
      hide Tracked;
      var before := es[..|es| - 1];
      TrackedRun(asyncDepth, before);
      LedgerInit(asyncDepth);
      LedgerRun(Init(asyncDepth), before);
      OnceRun(asyncDepth, before);
      TrackedStep(Run(Init(asyncDepth), before), es[|es| - 1], Preparations(asyncDepth, before));
    }
  }

  // ----- what a run prepares

  ghost predicate IsPrepared(ps: seq<Preparation>, k: nat) {
    exists j :: 0 <= j < |ps| && ps[j].frame == k
  }

  lemma {:induction false} FramesApart(ps: seq<Preparation>, i: nat, j: nat)
    requires InTurn(ps) && i <= j < |ps|
    ensures ps[i].frame <= ps[j].frame && ps[j].frame - ps[i].frame <= j - i
    ensures i < j && Final(ps[i]) ==> ps[i].frame < ps[j].frame
    decreases j
  {
    if i < j { FramesApart(ps, i, j - 1); }
  }

  lemma {:induction false} AllPrepared(ps: seq<Preparation>, n: nat, k: nat)
    requires InTurn(ps) && n < |ps| && k <= ps[n].frame
    ensures IsPrepared(ps, k)
    decreases n
  {
    if k == ps[n].frame {
    } else {
      AllPrepared(ps, n - 1, k);
    }
  }

  /** In every run the frames are prepared in turn, every frame handed to the encoder among them,
      and each at most once with a control kept, at its last preparation; the skipped reuse steps
      are exactly those of the frames whose preprocessing failed with a control in hand, and
      decisions are lost exactly with the controls that leaked. */
  lemma PreparationTheorem(asyncDepth: nat, es: seq<Event>)
    ensures var ps, tr := Preparations(asyncDepth, es), Run(Init(asyncDepth), es).trace;
            && InTurn(ps)
            && (forall k :: 0 <= k < |tr.handed| ==> IsPrepared(ps, k))
            && (forall j :: 0 <= j < |ps| ==> ps[j].frame <= |tr.handed|)
            && (forall i, j :: 0 <= i < j < |ps| && Final(ps[i]) ==> ps[i].frame < ps[j].frame)
            && SkippedFrames(ps) == tr.unmarked && LostDecisions(ps) == tr.leaked
  {
    hide Run, Preparations, Tracked;
    TrackedRun(asyncDepth, es);
    TrackedFrames(Run(Init(asyncDepth), es), Preparations(asyncDepth, es));
  }

  lemma TrackedFrames(s: State, ps: seq<Preparation>)
    requires Tracked(s, ps)
    ensures InTurn(ps) && SkippedFrames(ps) == s.trace.unmarked && LostDecisions(ps) == s.trace.leaked
    ensures forall k :: 0 <= k < |s.trace.handed| ==> IsPrepared(ps, k)
    ensures forall j :: 0 <= j < |ps| ==> ps[j].frame <= |s.trace.handed|
    ensures forall i, j :: 0 <= i < j < |ps| && Final(ps[i]) ==> ps[i].frame < ps[j].frame
  {
    hide InTurn, SlotTracked, SkippedFrames, LostDecisions, IsPrepared;
    var tr := s.trace;
    forall k | 0 <= k < |tr.handed| ensures IsPrepared(ps, k) { AllPrepared(ps, |ps| - 1, k); }
    forall j | 0 <= j < |ps| ensures ps[j].frame <= |tr.handed| { FramesApart(ps, j, |ps| - 1); }
    forall i, j | 0 <= i < j < |ps| && Final(ps[i]) ensures ps[i].frame < ps[j].frame { FramesApart(ps, i, j); }
  }

  // ----- age in frames

  /** What the callback and the surfaces were like at each preparation of a run. */
  ghost predicate Describes(xs: seq<Reuse.Call>, ps: seq<Preparation>) {
    |xs| == |ps| && forall k :: 0 <= k < |xs| ==> xs[k].fate == ps[k].fate
  }

  lemma {:induction false} FewMissed(interval: nat, xs: seq<Reuse.Call>, ps: seq<Preparation>, from: nat, n: nat)
    requires Describes(xs, ps) && n <= |xs|
    ensures Bounds.MissedIn(interval, xs, from, n) <= |SkippedFrames(ps[..n])| + LostDecisions(ps[..n])
    decreases n
  {
    if n > 0 {
      FewMissed(interval, xs, ps, from, n - 1);
      assert ps[..n][..n - 1] == ps[..n - 1];
    }
  }

  lemma {:induction false} Grows(ps: seq<Preparation>, n: nat)
    requires n <= |ps|
    ensures |SkippedFrames(ps[..n])| + LostDecisions(ps[..n]) <= |SkippedFrames(ps)| + LostDecisions(ps)
    decreases |ps| - n
  {
    if n == |ps| {
      assert ps[..n] == ps;
    } else {
      Grows(ps, n + 1);
      assert ps[..n + 1][..n] == ps[..n];
    }
  }

  /** In every run of a route with a fresh decision per preparation, a replaced frame shows the
      picture of an earlier frame, at most 11 frames older, plus 12 for every missed refresh and
      1 for every preparation without a decision in between; refreshes are missed at most as often
      as unmapping failed after preprocessing with a control in hand, or after a decision. */
  lemma RouteAgeTheorem(asyncDepth: nat, es: seq<Event>, interval: nat, xs: seq<Reuse.Call>, i: nat, from: nat)
    requires Describes(xs, Preparations(asyncDepth, es))
    requires interval <= 1 && i < |xs| && Reuse.ReplacedBy(interval, xs, i, from)
    ensures var ps, tr := Preparations(asyncDepth, es), Run(Init(asyncDepth), es).trace;
            && from < i && ps[from].frame < ps[i].frame
            && ps[i].frame - ps[from].frame <=
               11 + 12 * Bounds.MissedIn(interval, xs, from, i) + Bounds.UndecidedIn(xs, from, i)
            && Bounds.MissedIn(interval, xs, from, i) <= |tr.unmarked| + tr.leaked
  {
    hide Run, Preparations, InTurn, Bounds.MissedIn, Bounds.UndecidedIn, Reuse.After;
    var ps := Preparations(asyncDepth, es);
    PreparationTheorem(asyncDepth, es);
    Bounds.AgeTheorem(interval, xs, i, from);
    Bounds.OriginTheorem(interval, xs, i, from);
    FramesApart(ps, from, i);
    FewMissed(interval, xs, ps, from, i);
    Grows(ps, i);
  }

  // ----- every sequence of fates occurs in a run

  /** Slot 0 holds the oldest frame, clean and without a control, and no other slot is in use. */
  ghost predicate Waiting(s: State) {
    && |s.ops| > 0 && s.ops[0].phase == Decoded && s.ops[0].ctrl.None? && !s.ops[0].preprocessed
    && (forall i :: 0 < i < |s.ops| ==> s.ops[i].phase == Free)
    && s.decodeSubmit == s.decodeOut
  }

  /** The encoder takes the frame without giving an output, and the next frame is decoded. */
  const ABSORB := SubmitEncode(Prepare(NoControl, false, false), EncodeMoreData)

  function PrepareFor(fate: Reuse.Fate): Prepare {
    match fate
    case Undecided => Prepare(NoControl, false, false)
    case Lost => Prepare(UnmapFails, false, false)
    case Skipped => Prepare(ControlKept, true, false)
    case Applied => Prepare(ControlKept, false, false)
  }

  lemma PreparationsAppend(asyncDepth: nat, es: seq<Event>, e: Event)
    ensures Preparations(asyncDepth, es + [e]) ==
            Preparations(asyncDepth, es) + PreparationOf(Run(Init(asyncDepth), es), e)
    ensures Run(Init(asyncDepth), es + [e]) == Step(Run(Init(asyncDepth), es), e)
  {
    assert (es + [e])[..|es|] == es;
  }

  /** A frame in slot 0 of an idle route. */
  lemma NextFrame(s: State)
    requires |s.ops| > 0 && s.decodeSubmit == s.decodeOut && s.ops[0] == FreshOp()
    requires forall i :: 0 < i < |s.ops| ==> s.ops[i].phase == Free
    ensures Waiting(Step(Step(s, TAKE_FRAME), MAKE_READY))
    ensures PreparationOf(s, TAKE_FRAME) == PreparationOf(Step(s, TAKE_FRAME), MAKE_READY) == []
  {
    assert First(s.ops, WantFree, 0) == 0;
    var t := Step(s, TAKE_FRAME);
    assert First(t.ops, WantDecoding(t.decodeOut), 0) == 0;
  }

  lemma WaitingIsOldest(s: State)
    requires |s.ops| > 0 && s.ops[0].phase == Decoded && forall i :: 0 < i < |s.ops| ==> s.ops[i].phase == Free
    ensures Oldest(s.ops, |s.ops|) == Some(0)
  {
  }

  /** The encoder absorbs the frame of slot 0, which already has a control. */
  lemma Absorbed(s: State, e: Event)
    requires |s.ops| > 0 && s.ops[0].phase == Decoded && s.ops[0].ctrl.Some?
    requires forall i :: 0 < i < |s.ops| ==> s.ops[i].phase == Free
    requires e.SubmitEncode? && e.encode.EncodeMoreData?
    ensures var t := Step(s, e);
            && t.ops == s.ops[0 := FreshOp()] && t.decodeSubmit == s.decodeSubmit && t.decodeOut == s.decodeOut
            && PreparationOf(s, e) == []
  {
    WaitingIsOldest(s);
  }

  lemma PreparedSlots(s: State, p: Prepare)
    requires Waiting(s)
    ensures var o := PrepareFrame(s, 0, p);
            && |o.state.ops| == |s.ops| && o.state.decodeSubmit == s.decodeSubmit && o.state.decodeOut == s.decodeOut
            && o.state.ops == s.ops[0 := o.state.ops[0]] && o.state.ops[0].phase == Decoded
            && (o.state.ops[0].ctrl.Some? <==> Final(Preparation(0, FateOf(s.ops[0], p))))
            && (p.control.UnmapFails? ==> o.threw && o.state.ops == s.ops)
            && (!p.control.UnmapFails? && !p.reuseFails ==> o.threw == p.filterFails)
  {
    hide Acquire, FirstUnused, ReleaseCtrl;
  }

  /** The waiting frame meets the given fate; afterwards the route is idle, or the frame waits
      again or with its control. */
  lemma OneFate(s: State, fate: Reuse.Fate)
    requires Waiting(s)
    ensures var e := SubmitEncode(PrepareFor(fate), EncodeMoreData);
            var t := Step(s, e);
            && PreparationOf(s, e) == [Preparation(s.ops[0].decodeOrder, fate)]
            && |t.ops| == |s.ops| && t.decodeSubmit == t.decodeOut
            && (forall i :: 0 < i < |t.ops| ==> t.ops[i].phase == Free)
            && match fate
               case Lost => Waiting(t)
               case Skipped => t.ops[0].phase == Decoded && t.ops[0].ctrl.Some?
               case _ => t.ops[0] == FreshOp()
  {
    hide PrepareFrame;
    WaitingIsOldest(s);
    PreparedSlots(s, PrepareFor(fate));
  }

  /** Two events bring the next frame into an idle slot 0. */
  lemma Refilled(asyncDepth: nat, es: seq<Event>) returns (fs: seq<Event>)
    requires var s := Run(Init(asyncDepth), es);
             && |s.ops| > 0 && s.decodeSubmit == s.decodeOut && s.ops[0] == FreshOp()
             && forall i :: 0 < i < |s.ops| ==> s.ops[i].phase == Free
    ensures Waiting(Run(Init(asyncDepth), fs)) && Preparations(asyncDepth, fs) == Preparations(asyncDepth, es)
  {
    hide Step, Waiting, Preparations, PreparationOf;
    NextFrame(Run(Init(asyncDepth), es));
    PreparationsAppend(asyncDepth, es, TAKE_FRAME);
    PreparationsAppend(asyncDepth, es + [TAKE_FRAME], MAKE_READY);
    fs := es + [TAKE_FRAME] + [MAKE_READY];
  }

  /** A run in which a frame waits can give it any fate and have a frame wait again. */
  lemma FateMet(asyncDepth: nat, es: seq<Event>, fate: Reuse.Fate) returns (fs: seq<Event>)
    requires Waiting(Run(Init(asyncDepth), es))
    ensures Waiting(Run(Init(asyncDepth), fs))
    ensures var k := Run(Init(asyncDepth), es).ops[0].decodeOrder;
            Preparations(asyncDepth, fs) == Preparations(asyncDepth, es) + [Preparation(k, fate)]
  {
    hide Step, Preparations, PreparationOf, PrepareFor;
    var e := SubmitEncode(PrepareFor(fate), EncodeMoreData);
    OneFate(Run(Init(asyncDepth), es), fate);
    PreparationsAppend(asyncDepth, es, e);
    fs := es + [e];
    if fate.Skipped? {
      Absorbed(Run(Init(asyncDepth), fs), ABSORB);
      PreparationsAppend(asyncDepth, fs, ABSORB);
      fs := fs + [ABSORB];
    }
    if !fate.Lost? { fs := Refilled(asyncDepth, fs); }
  }

  /** Every sequence of fates is that of the preparations of some run of the route. */
  lemma {:induction false} EveryFateOccurs(asyncDepth: nat, fates: seq<Reuse.Fate>) returns (es: seq<Event>)
    ensures var ps := Preparations(asyncDepth, es);
            |ps| == |fates| && forall k :: 0 <= k < |ps| ==> ps[k].fate == fates[k]
    ensures Waiting(Run(Init(asyncDepth), es))
  {
    hide Waiting, Preparations;
    if fates == [] {
      NoPreparation(asyncDepth);
      es := Refilled(asyncDepth, []);
    } else {
      var before := EveryFateOccurs(asyncDepth, fates[..|fates| - 1]);
      es := FateMet(asyncDepth, before, fates[|fates| - 1]);
    }
  }

  lemma NoPreparation(asyncDepth: nat)
    ensures Preparations(asyncDepth, []) == [] && Run(Init(asyncDepth), []) == Init(asyncDepth)
  {
  }

  // ----- when the bound holds in every run

  /** The picture is of a frame at most 11 frames earlier, in the same static run. */
  ghost predicate RecentFrame(ps: seq<Preparation>, xs: seq<Reuse.Call>, i: nat, from: nat)
    requires i < |xs| == |ps|
  {
    && from < i && ps[i].frame - ps[from].frame <= 11
    && forall k :: from <= k <= i ==> xs[k].isStatic
  }

  /** In every run of the route, whatever the callback and the surfaces are like. */
  ghost predicate AlwaysRecent(asyncDepth: nat, interval: nat, may: iset<nat>) {
    forall es: seq<Event>, xs: seq<Reuse.Call>, i: nat, from: nat ::
      Describes(xs, Preparations(asyncDepth, es)) && i < |xs|
      && Bounds.MissesWithin(interval, xs, may) && Reuse.ReplacedBy(interval, xs, i, from)
      ==> RecentFrame(Preparations(asyncDepth, es), xs, i, from)
  }

  /** When every preparation is final, preparations and frames have the same numbers. */
  lemma {:induction false} OnePerFrame(ps: seq<Preparation>, n: nat)
    requires InTurn(ps) && n < |ps| && forall k :: 0 <= k < |ps| ==> Final(ps[k])
    ensures ps[n].frame == n
  {
    if n > 0 { OnePerFrame(ps, n - 1); }
  }

  /** A described run that breaks the bound is a run of the route. */
  lemma RouteBreaks(asyncDepth: nat, interval: nat, may: iset<nat>, xs: seq<Reuse.Call>, i: nat, from: nat)
    requires i < |xs| && Bounds.MissesWithin(interval, xs, may) && Reuse.ReplacedBy(interval, xs, i, from)
    requires from < i && !Bounds.Recent(xs, i, from) && Bounds.NoneLost(xs)
    ensures !AlwaysRecent(asyncDepth, interval, may)
  {
    hide Bounds.MissesWithin, Reuse.ReplacedBy, Preparations, Run;
    var fates := seq(|xs|, k requires 0 <= k < |xs| => xs[k].fate);
    var es := EveryFateOccurs(asyncDepth, fates);
    var ps := Preparations(asyncDepth, es);
    PreparationTheorem(asyncDepth, es);
    OnePerFrame(ps, i);
    OnePerFrame(ps, from);
    assert !RecentFrame(ps, xs, i, from);
  }

  /** When only decisions with a count in `may` may miss their step, every replaced frame shows a
      picture at most 11 frames old from its own static run, in every run of the route, exactly
      when decisions are not cached, no refresh may be missed, and not all of the counts 0, 1, 2. */
  lemma RouteBoundIff(asyncDepth: nat, interval: nat, may: iset<nat>)
    ensures AlwaysRecent(asyncDepth, interval, may)
            <==> interval <= 1 && !Bounds.MayMissRefresh(may) && !Bounds.MayMissReset(may)
  {
    hide Bounds.MissesWithin, Reuse.ReplacedBy, Preparations;
    if interval <= 1 && !Bounds.MayMissRefresh(may) && !Bounds.MayMissReset(may) {
      forall es: seq<Event>, xs: seq<Reuse.Call>, i: nat, from: nat
        | Describes(xs, Preparations(asyncDepth, es)) && i < |xs|
          && Bounds.MissesWithin(interval, xs, may) && Reuse.ReplacedBy(interval, xs, i, from)
        ensures RecentFrame(Preparations(asyncDepth, es), xs, i, from)
      {
        Bounds.RecentHolds(interval, xs, may, i, from);
        Bounds.OriginTheorem(interval, xs, i, from);
        PreparationTheorem(asyncDepth, es);
        FramesApart(Preparations(asyncDepth, es), from, i);
      }
    } else {
      var xs, i, from := Bounds.BoundBreaks(interval, may);
      RouteBreaks(asyncDepth, interval, may, xs, i, from);
    }
  }
}
