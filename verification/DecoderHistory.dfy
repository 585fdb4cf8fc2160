/** What the steps of the split decoder amount to, counted from the events themselves: the
    surfaces delivered with the metadata of their submissions, the input left, what completed the
    drain, and what the device was asked. */
module DecoderHistory {
  import opened Basics
  import opened DecoderModel

  predicate HasIdle(s: State) {
    exists i :: 0 <= i < |s.ops| && !s.ops[i].inUse
  }

  /** A submission reaches the device. */
  predicate Reaches(s: State, e: Event) {
    && e.Submit? && HasIdle(s) && |s.queue| < s.maxOut && !s.drained
    && (e.draining ==> s.flushing && s.inputLen == 0)
  }

  datatype Delivery = Delivery(surface: Surface, hasSync: bool, pts: int, dts: int, user: int)

  /** The surface and sync point of the answer with the metadata of the submission. */
  function DeliveredBy(s: State, e: Event): seq<Delivery> {
    if !Reaches(s, e) || !e.decode.DecodeFrame? then []
    else [Delivery(e.decode.surface, e.decode.hasSync, e.pts, e.dts, e.user)]
  }

  /** The drain completes when a draining submission runs dry, or when a flush finds a decoder
      that never got ready. */
  predicate Completes(s: State, e: Event) {
    || (e.StartFlush? && !s.ready)
    || (Reaches(s, e) && e.draining && (e.decode.DecodeMoreData? || e.decode.DecodeNoSurface?))
  }

  function InputAfter(s: State, len: nat, e: Event): nat {
    match e
    case Append(n) => if s.flushing || s.drained then len else len + n
    case Submit(draining, _, _, _, _, consumed) =>
      if draining || !Reaches(s, e) then len else if consumed <= len then len - consumed else 0
    case _ => len
  }

  /** A question to the device or the allocator, with its answer. */
  datatype Ask =
    | SyncAsked(sync: SyncAnswer)
    | DecodeAsked(draining: bool, decode: DecodeAnswer, consumed: nat)
    | WrapAsked(wrapped: bool)

  /** An operation with a sync point is asked about, a submission asks for a frame, and handing out
      the front asks for a wrapper. */
  function AskedBy(s: State, e: Event): seq<Ask> {
    match e
    case SyncOp(i, a) => if i < |s.ops| && s.ops[i].inUse && s.ops[i].sync then [SyncAsked(a)] else []
    case Submit(draining, _, _, _, a, n) => if Reaches(s, e) then [DecodeAsked(draining, a, n)] else []
    case Pop(w) => if s.queue == [] then [] else [WrapAsked(w)]
    case _ => []
  }

  /** The history of a run. */
  datatype History = History(deliveries: seq<Delivery>, inputLen: nat, completed: bool, asked: seq<Ask>)

  function HistoryAfter(h: History, s: State, e: Event): History {
    History(h.deliveries + DeliveredBy(s, e), InputAfter(s, h.inputLen, e), h.completed || Completes(s, e),
            h.asked + AskedBy(s, e))
  }

  function HistoryOf(asyncDepth: int, maxOut: int, es: seq<Event>): History {
    if es == [] then History([], 0, false, [])
    else
      var before := es[..|es| - 1];
      HistoryAfter(HistoryOf(asyncDepth, maxOut, before), Run(Init(asyncDepth, maxOut), before), es[|es| - 1])
  }

  lemma HistoryAppend(asyncDepth: int, maxOut: int, es: seq<Event>, e: Event)
    ensures HistoryOf(asyncDepth, maxOut, es + [e]) ==
            HistoryAfter(HistoryOf(asyncDepth, maxOut, es), Run(Init(asyncDepth, maxOut), es), e)
  {
    hide HistoryAfter;
    assert (es + [e])[..|es|] == es;
  }

  /** A queued item and an operation in flight hold what was delivered under their number. */
  ghost predicate ItemKept(d: seq<Delivery>, item: Item) {
    && item.serial < |d|
    && d[item.serial] == Delivery(item.surface, d[item.serial].hasSync, item.pts, item.dts, item.user)
  }

  ghost predicate OpKept(d: seq<Delivery>, op: Op) {
    op.inUse && op.surface.Some? ==>
      op.serial < |d| && d[op.serial] == Delivery(op.surface.value, op.sync, op.pts, op.dts, op.user)
  }

  ghost predicate Kept(s: State, h: History) {
    && s.delivered == |h.deliveries| && s.inputLen == h.inputLen && s.drained == h.completed
    && (forall i :: 0 <= i < |s.ops| ==> OpKept(h.deliveries, s.ops[i]))
    && (forall k :: 0 <= k < |s.queue| ==> ItemKept(h.deliveries, s.queue[k]))
  }

  lemma ReachesIff(s: State, e: Event)
    requires e.Submit?
    ensures Reaches(s, e) <==> MaySubmit(s, e.draining) && FirstIdle(s.ops, 0) < |s.ops|
  {
    var i := FirstIdle(s.ops, 0);
    if i < |s.ops| { assert !s.ops[i].inUse; }
  }

  lemma KeptSubmit(s: State, h: History, e: Event)
    requires Kept(s, h) && Sound(s) && e.Submit?
    ensures Kept(Step(s, e), HistoryAfter(h, s, e))
  {
    hide Reaches, Sound;
    ReachesIff(s, e);
    var t, g := Step(s, e), HistoryAfter(h, s, e);
    forall i | 0 <= i < |t.ops| ensures OpKept(g.deliveries, t.ops[i]) { assert OpKept(h.deliveries, s.ops[i]); }
    forall k | 0 <= k < |t.queue| ensures ItemKept(g.deliveries, t.queue[k]) {
      assert ItemKept(h.deliveries, s.queue[k]);
    }
  }

  lemma KeptSync(s: State, h: History, i: nat, a: SyncAnswer)
    requires Kept(s, h) && Sound(s)
    ensures Kept(SyncStep(s, i, a), h)
  {
    var t := SyncStep(s, i, a);
    forall x | 0 <= x < |t.ops| ensures OpKept(h.deliveries, t.ops[x]) { assert OpKept(h.deliveries, s.ops[x]); }
    forall k | 0 <= k < |t.queue| ensures ItemKept(h.deliveries, t.queue[k]) {
      if k < |s.queue| { assert ItemKept(h.deliveries, s.queue[k]); } else { assert OpKept(h.deliveries, s.ops[i]); }
    }
  }

  lemma KeptStep(s: State, h: History, e: Event)
    requires Kept(s, h) && Sound(s)
    ensures Kept(Step(s, e), HistoryAfter(h, s, e))
  {
    hide OpKept, ItemKept, Sound, Reaches;
    match e
    case Submit(_, _, _, _, _, _) => KeptSubmit(s, h, e);
    case SyncOp(i, a) =>
      KeptSync(s, h, i, a);
      NothingReached(s, h, e);
    case _ => KeptOther(s, h, e);
  }

  lemma KeptOther(s: State, h: History, e: Event)
    requires Kept(s, h) && (e.Append? || e.BecomeReady? || e.StartFlush? || e.Pop?)
    ensures Kept(Step(s, e), HistoryAfter(h, s, e))
  {
    hide OpKept, ItemKept;
    NothingReached(s, h, e);
    var t := Step(s, e);
    forall k | 0 <= k < |t.queue| ensures ItemKept(h.deliveries, t.queue[k]) {
      assert ItemKept(h.deliveries, s.queue[if |t.queue| < |s.queue| then k + 1 else k]);
    }
  }

  lemma NothingReached(s: State, h: History, e: Event)
    requires !e.Submit?
    ensures HistoryAfter(h, s, e).deliveries == h.deliveries
    ensures Completes(s, e) <==> e.StartFlush? && !s.ready
  {
    assert DeliveredBy(s, e) == [];
  }

  lemma {:induction false} KeptRun(asyncDepth: int, maxOut: int, es: seq<Event>)
    ensures Kept(Run(Init(asyncDepth, maxOut), es), HistoryOf(asyncDepth, maxOut, es))
    decreases |es|
  {
    if es != [] {
      hide Kept, Step, HistoryAfter, Sound;
      var before := es[..|es| - 1];
      KeptRun(asyncDepth, maxOut, before);
      SoundRun(asyncDepth, maxOut, before);
      KeptStep(Run(Init(asyncDepth, maxOut), before), HistoryOf(asyncDepth, maxOut, before), es[|es| - 1]);
    }
  }

  /** In every run each surface in the queue and in flight is the one delivered under its number,
      with the time stamps and the user pointer of the submission that delivered it; one in flight
      waits for the device exactly when it was delivered with a sync point. */
  lemma DeliveryTheorem(asyncDepth: int, maxOut: int, es: seq<Event>)
    ensures var s, d := Run(Init(asyncDepth, maxOut), es), HistoryOf(asyncDepth, maxOut, es).deliveries;
            && s.delivered == |d|
            && (forall k :: 0 <= k < |s.queue| ==> ItemKept(d, s.queue[k]))
            && (forall i :: 0 <= i < |s.ops| ==> OpKept(d, s.ops[i]))
  {
    KeptRun(asyncDepth, maxOut, es);
  }

  /** In every run the input left is what was appended less what submissions consumed, and the
      drain is complete exactly when one of the events completed it. */
  lemma InputTheorem(asyncDepth: int, maxOut: int, es: seq<Event>)
    ensures var s, h := Run(Init(asyncDepth, maxOut), es), HistoryOf(asyncDepth, maxOut, es);
            s.inputLen == h.inputLen && s.drained == h.completed
  {
    KeptRun(asyncDepth, maxOut, es);
  }

  /** An operation in flight stays as it is, unless it is asked about and is not in execution any
      more, or has no sync point: then its surface goes to the end of the queue when it is done,
      and is released after a warning or an error. */
  lemma OperationLeaves(s: State, e: Event, i: nat)
    requires i < |s.ops| && s.ops[i].inUse && s.ops[i].surface.Some?
    ensures var t, op := Step(s, e), s.ops[i];
            var item := Item(op.surface.value, op.pts, op.dts, op.user, op.serial);
            && |t.ops| == |s.ops|
            && (t.ops[i] == op <==> !(e.SyncOp? && e.i == i && (!op.sync || !e.answer.InExecution?)))
            && (t.ops[i] != op && (!op.sync || e.answer.SyncDone?) ==>
                  !t.ops[i].inUse && t.queue == s.queue + [item] && t.released == s.released)
            && (t.ops[i] != op && op.sync && !e.answer.SyncDone? ==>
                  !t.ops[i].inUse && t.queue == s.queue && t.released == s.released + [op.serial])
  {
  }
}
