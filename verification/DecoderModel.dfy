/** The split decoder as a protocol: asynchronous decode operations, the queue of decoded
    surfaces, and the flush, drain and end-of-stream state. */
module DecoderModel {
  import opened Basics
  import opened Sums

  type Surface = nat

  /** An asynchronous decode.  `serial` is history: the position of its surface among all
      surfaces the device delivered. */
  datatype Op = Op(inUse: bool, surface: Option<Surface>, sync: bool, pts: int, dts: int, user: int, serial: nat)

  datatype Item = Item(surface: Surface, pts: int, dts: int, user: int, serial: nat)

  datatype State = State(
    ops: seq<Op>,
    queue: seq<Item>,
    maxOut: nat,
    inputLen: nat,
    ready: bool,
    flushing: bool,
    drained: bool,
    delivered: nat,
    handed: seq<nat>,
    released: seq<nat>)

  /** `SyncWarning` is any other non-negative status: the surface is released all the same. */
  datatype SyncAnswer = SyncDone | InExecution | SyncWarning | SyncFails

  datatype DecodeAnswer =
    | DecodeStall
    | DecodeMoreData
    | DecodeFails
    | DecodeNoSurface
    | DecodeFrame(surface: Surface, hasSync: bool)

  datatype Event =
    | Append(bytes: nat)
    | BecomeReady
    | StartFlush
    | SyncOp(i: nat, answer: SyncAnswer)
    | Submit(draining: bool, pts: int, dts: int, user: int, decode: DecodeAnswer, consumed: nat)
    | Pop(wrapped: bool)

  function IdleOp(): Op {
    Op(false, None, false, 0, 0, 0, 0)
  }

  /** Creation normalises the configuration. */
  function NormalDepth(asyncDepth: int): nat {
    if asyncDepth <= 0 then 2 else asyncDepth
  }

  function NormalMax(asyncDepth: int, maxOut: int): nat {
    var m := if maxOut <= 0 then 16 else maxOut;
    if m < NormalDepth(asyncDepth) then NormalDepth(asyncDepth) else m
  }

  function Init(asyncDepth: int, maxOut: int): State {
    var ops := seq(NormalDepth(asyncDepth), _ => IdleOp());
    State(ops, [], NormalMax(asyncDepth, maxOut), 0, false, false, false, 0, [], [])
  }

  function FirstIdle(ops: seq<Op>, from: nat): (r: nat)
    requires from <= |ops|
    ensures from <= r <= |ops|
    ensures r < |ops| ==> !ops[r].inUse
    ensures forall j :: from <= j < r ==> ops[j].inUse
    decreases |ops| - from
  {
    if from == |ops| || !ops[from].inUse then from else FirstIdle(ops, from + 1)
  }

  /** A finished operation moves its surface to the end of the output queue. */
  function Enqueue(s: State, i: nat): State
    requires i < |s.ops|
  {
    var op := s.ops[i];
    var idle := op.(inUse := false, surface := None, sync := false, pts := 0, dts := 0, user := 0);
    if op.surface.None? then s.(ops := s.ops[i := idle])
    else s.(ops := s.ops[i := idle], queue := s.queue + [Item(op.surface.value, op.pts, op.dts, op.user, op.serial)])
  }

  function ReleasedBy(op: Op): seq<nat> {
    if op.surface.Some? then [op.serial] else []
  }

  function SyncStep(s: State, i: nat, answer: SyncAnswer): State {
    if i >= |s.ops| || !s.ops[i].inUse then s
    else if !s.ops[i].sync || answer.SyncDone? then Enqueue(s, i)
    else if answer.InExecution? then s
    else s.(ops := s.ops[i := s.ops[i].(inUse := false, surface := None, sync := false)],
            released := s.released + ReleasedBy(s.ops[i]))
  }

  /** Submission is reached only with room in the queue, before the drain is complete, and
      without input only while flushing with no input pending. */
  predicate MaySubmit(s: State, draining: bool) {
    |s.queue| < s.maxOut && !s.drained && (draining ==> s.flushing && s.inputLen == 0)
  }

  /** The operation after a submission: in flight with its surface, or idle again. */
  function SubmittedOp(op: Op, e: Event, serial: nat): Op
    requires e.Submit?
  {
    match e.decode
    case DecodeFrame(surface, hasSync) => Op(true, Some(surface), hasSync, e.pts, e.dts, e.user, serial)
    case _ => op.(inUse := false, surface := None, sync := false, pts := e.pts, dts := e.dts, user := e.user)
  }

  function SubmitStep(s: State, e: Event): State
    requires e.Submit?
  {
    var i := FirstIdle(s.ops, 0);
    if !MaySubmit(s, e.draining) || i == |s.ops| then s
    else
      s.(inputLen := if e.draining then s.inputLen else if e.consumed > s.inputLen then 0 else s.inputLen - e.consumed,
         ops := s.ops[i := SubmittedOp(s.ops[i], e, s.delivered)],
         delivered := if e.decode.DecodeFrame? then s.delivered + 1 else s.delivered,
         drained := e.draining && (e.decode.DecodeMoreData? || e.decode.DecodeNoSurface?))
  }

  function Step(s: State, e: Event): State {
    match e
    case Append(n) => if s.flushing || s.drained then s else s.(inputLen := s.inputLen + n)
    case BecomeReady => if s.flushing || s.drained then s else s.(ready := true)
    case StartFlush => if s.drained then s else s.(flushing := true, drained := !s.ready)
    case SyncOp(i, a) => SyncStep(s, i, a)
    case Submit(_, _, _, _, _, _) => SubmitStep(s, e)
    case Pop(wrapped) =>
      if s.queue == [] then s
      else if wrapped then s.(queue := s.queue[1..], handed := s.handed + [s.queue[0].serial])
      else s.(queue := s.queue[1..], released := s.released + [s.queue[0].serial])
  }

  function Run(s: State, es: seq<Event>): State {
    if es == [] then s else Step(Run(s, es[..|es| - 1]), es[|es| - 1])
  }

  lemma RunAppend(s: State, es: seq<Event>, e: Event)
    ensures Run(s, es + [e]) == Step(Run(s, es), e)
  {
    assert (es + [e])[..|es|] == es;
  }

  // ----- occupancy

  function BusyW(): Op -> int {
    (op: Op) => if op.inUse then 1 else 0
  }

  function Active(s: State): int {
    Sum(s.ops, BusyW())
  }

  ghost predicate Sound(s: State) {
    && (forall i :: 0 <= i < |s.ops| ==> (s.ops[i].inUse <==> s.ops[i].surface.Some?))
    && 1 <= |s.ops| <= s.maxOut
    && 0 <= Active(s) <= |s.ops|
    && |s.queue| + Active(s) <= s.maxOut + |s.ops| - 1
    && (s.drained ==> s.flushing && (s.ready ==> s.inputLen == 0))
  }

  lemma SoundInit(asyncDepth: int, maxOut: int)
    ensures Sound(Init(asyncDepth, maxOut))
  {
    SumConst(Init(asyncDepth, maxOut).ops, BusyW(), 0);
  }

  lemma SoundStep(s: State, e: Event)
    requires Sound(s)
    ensures Sound(Step(s, e)) && |Step(s, e).ops| == |s.ops| && Step(s, e).maxOut == s.maxOut
  {
    match e
    case SyncOp(i, a) => SoundSync(s, i, a);
    case Submit(_, _, _, _, _, _) => SoundSubmit(s, e);
    case _ =>
  }

  lemma SoundSync(s: State, i: nat, answer: SyncAnswer)
    requires Sound(s)
    ensures Sound(SyncStep(s, i, answer)) && |SyncStep(s, i, answer).ops| == |s.ops|
  {
    var t := SyncStep(s, i, answer);
    if t != s {
      SumFull(t.ops, BusyW());
      SumUpdate(s.ops, i, t.ops[i], BusyW());
    }
  }

  lemma SoundSubmit(s: State, e: Event)
    requires Sound(s) && e.Submit?
    ensures Sound(Step(s, e)) && |Step(s, e).ops| == |s.ops|
  {
    var t := Step(s, e);
    if t != s {
      var i := FirstIdle(s.ops, 0);
      SumFull(t.ops, BusyW());
      SumUpdate(s.ops, i, t.ops[i], BusyW());
      assert t.ops == s.ops[i := t.ops[i]];
    }
  }

  lemma {:induction false} SoundRun(asyncDepth: int, maxOut: int, es: seq<Event>)
    ensures var s := Run(Init(asyncDepth, maxOut), es);
            Sound(s) && |s.ops| == NormalDepth(asyncDepth) && s.maxOut == NormalMax(asyncDepth, maxOut)
    decreases |es|
  {
    if es == [] {
      SoundInit(asyncDepth, maxOut);
    } else {
      SoundRun(asyncDepth, maxOut, es[..|es| - 1]);
      SoundStep(Run(Init(asyncDepth, maxOut), es[..|es| - 1]), es[|es| - 1]);
    }
  }

  /** Queued surfaces and active operations together never exceed the configured maximum
      plus the depth less one, in any reachable state. */
  lemma OccupancyTheorem(asyncDepth: int, maxOut: int, es: seq<Event>)
    ensures var s := Run(Init(asyncDepth, maxOut), es);
            |s.queue| + Active(s) <= NormalMax(asyncDepth, maxOut) + NormalDepth(asyncDepth) - 1
  {
    SoundRun(asyncDepth, maxOut, es);
  }

  /** Weight of a state for the drive loop: a queued surface counts twice, an active one once. */
  function Progress(s: State): int {
    2 * |s.queue| + Active(s)
  }

  lemma SubmitMakesProgress(s: State, e: Event)
    requires Sound(s) && e.Submit?
    ensures Progress(SubmitStep(s, e)) == Progress(s) + (SubmitStep(s, e).delivered - s.delivered)
  {
    var t := SubmitStep(s, e);
    if t != s {
      var i := FirstIdle(s.ops, 0);
      SumUpdate(s.ops, i, t.ops[i], BusyW());
      assert t.ops == s.ops[i := t.ops[i]];
    }
  }

  // ----- every delivered surface is in exactly one place

  function OpW(k: nat): Op -> int {
    (op: Op) => if op.inUse && op.serial == k then 1 else 0
  }

  function ItemW(k: nat): Item -> int {
    (item: Item) => if item.serial == k then 1 else 0
  }

  function SerialW(k: nat): nat -> int {
    (n: nat) => if n == k then 1 else 0
  }

  /** How often surface `k` is active, queued, handed out or released. */
  function Places(s: State, k: nat): int {
    Sum(s.ops, OpW(k)) + Sum(s.queue, ItemW(k)) + Sum(s.handed, SerialW(k)) + Sum(s.released, SerialW(k))
  }

  lemma PopPlaces(s: State, k: nat)
    requires s.queue != []
    ensures Sum(s.queue, ItemW(k)) == Sum(s.queue[1..], ItemW(k)) + SerialW(k)(s.queue[0].serial)
  {
    var front := [s.queue[0]];
    assert s.queue == front + s.queue[1..];
    SumConcat(front, s.queue[1..], ItemW(k));
    assert front[..0] == [];
  }

  lemma PlacesSync(s: State, i: nat, answer: SyncAnswer, k: nat)
    requires Sound(s)
    ensures Places(SyncStep(s, i, answer), k) == Places(s, k)
  {
    var t := SyncStep(s, i, answer);
    if t != s {
      SumUpdate(s.ops, i, t.ops[i], OpW(k));
      SumAppend(s.released, s.ops[i].serial, SerialW(k));
      if t.queue != s.queue {
        SumAppend(s.queue, t.queue[|s.queue|], ItemW(k));
      }
    }
  }

  lemma PlacesSubmit(s: State, e: Event, k: nat)
    requires Sound(s) && e.Submit?
    ensures Places(Step(s, e), k) == Places(s, k) + (if s.delivered == k && Step(s, e).delivered == k + 1 then 1 else 0)
    ensures s.delivered <= Step(s, e).delivered <= s.delivered + 1
  {
    var t := Step(s, e);
    if t != s {
      var i := FirstIdle(s.ops, 0);
      SumUpdate(s.ops, i, t.ops[i], OpW(k));
      assert t.ops == s.ops[i := t.ops[i]];
    }
  }

  lemma PlacesStep(s: State, e: Event, k: nat)
    requires Sound(s)
    ensures Places(Step(s, e), k) == Places(s, k) + (if s.delivered == k && Step(s, e).delivered == k + 1 then 1 else 0)
    ensures s.delivered <= Step(s, e).delivered <= s.delivered + 1
  {
    var t := Step(s, e);
    match e
    case SyncOp(i, a) => PlacesSync(s, i, a, k);
    case Submit(_, _, _, _, _, _) => PlacesSubmit(s, e, k);
    case Pop(_) =>
      if s.queue != [] {
        PopPlaces(s, k);
        SumAppend(s.handed, s.queue[0].serial, SerialW(k));
        SumAppend(s.released, s.queue[0].serial, SerialW(k));
      }
    case _ =>
  }

  /** In every run each surface the device delivered is in exactly one place: active, queued,
      handed to the caller, or released after a failure. */
  lemma {:induction false} OnePlaceTheorem(asyncDepth: int, maxOut: int, es: seq<Event>, k: nat)
    ensures var s := Run(Init(asyncDepth, maxOut), es);
            Places(s, k) == if k < s.delivered then 1 else 0
    decreases |es|
  {
    if es == [] {
      SumConst(Init(asyncDepth, maxOut).ops, OpW(k), 0);
    } else {
      OnePlaceTheorem(asyncDepth, maxOut, es[..|es| - 1], k);
      SoundRun(asyncDepth, maxOut, es[..|es| - 1]);
      PlacesStep(Run(Init(asyncDepth, maxOut), es[..|es| - 1]), es[|es| - 1], k);
    }
  }

  // ----- end of stream

  predicate HasActive(s: State) {
    exists i :: 0 <= i < |s.ops| && s.ops[i].inUse
  }

  /** The condition under which polling reports the end of the stream. */
  predicate Finished(s: State) {
    s.queue == [] && s.drained && !HasActive(s)
  }

  /** In every run the end of the stream means that all input was consumed, unless the decoder
      never got ready: while a ready decoder has input, polling does not report the end. */
  lemma EndOfInputTheorem(asyncDepth: int, maxOut: int, es: seq<Event>)
    ensures var s := Run(Init(asyncDepth, maxOut), es);
            s.ready && s.inputLen > 0 ==> !s.drained && !Finished(s)
  {
    SoundRun(asyncDepth, maxOut, es);
  }

  /** Once the stream has ended it stays ended, whatever is called afterwards, and no
      further surface is ever delivered. */
  lemma {:induction false} FinishedForever(s: State, fs: seq<Event>)
    requires Finished(s)
    ensures Finished(Run(s, fs)) && Run(s, fs).delivered == s.delivered && Run(s, fs).handed == s.handed
    decreases |fs|
  {
    if fs != [] {
      FinishedForever(s, fs[..|fs| - 1]);
    }
  }

  /** At the end of the stream every delivered surface was handed out or released. */
  lemma FinishedAccounts(asyncDepth: int, maxOut: int, es: seq<Event>, k: nat)
    requires Finished(Run(Init(asyncDepth, maxOut), es)) && k < Run(Init(asyncDepth, maxOut), es).delivered
    ensures var s := Run(Init(asyncDepth, maxOut), es);
            Sum(s.handed, SerialW(k)) + Sum(s.released, SerialW(k)) == 1
  {
    var s := Run(Init(asyncDepth, maxOut), es);
    OnePlaceTheorem(asyncDepth, maxOut, es, k);
    SumConst(s.ops, OpW(k), 0);
  }

  // ----- output order

  ghost predicate Increasing(s: seq<nat>) {
    forall i, j :: 0 <= i < j < |s| ==> s[i] < s[j]
  }

  function Serials(queue: seq<Item>): (r: seq<nat>)
    ensures |r| == |queue|
  {
    seq(|queue|, i requires 0 <= i < |queue| => queue[i].serial)
  }

  /** With one operation: everything handed out, queued and active, in that order. */
  function Pipeline(s: State): seq<nat>
    requires |s.ops| == 1
  {
    s.handed + Serials(s.queue) + (if s.ops[0].inUse then [s.ops[0].serial] else [])
  }

  ghost predicate Orderly(s: State) {
    && |s.ops| == 1
    && Increasing(Pipeline(s))
    && forall i :: 0 <= i < |Pipeline(s)| ==> Pipeline(s)[i] < s.delivered
  }

  lemma OrderlySync(s: State, answer: SyncAnswer)
    requires Sound(s) && Orderly(s) && s.ops[0].inUse
    ensures Orderly(SyncStep(s, 0, answer))
  {
    var t := SyncStep(s, 0, answer);
    if t.queue != s.queue {
      assert Serials(t.queue) == Serials(s.queue) + [s.ops[0].serial];
      assert Pipeline(t) == Pipeline(s);
    } else if t != s {
      var n := |Pipeline(s)| - 1;
      assert Pipeline(t) == Pipeline(s)[..n];
    }
  }

  lemma OrderlyPop(s: State, wrapped: bool)
    requires Orderly(s) && s.queue != []
    ensures Orderly(Step(s, Pop(wrapped)))
  {
    var t := Step(s, Pop(wrapped));
    assert Serials(s.queue) == [s.queue[0].serial] + Serials(t.queue);
    if wrapped {
      assert Pipeline(t) == Pipeline(s);
    } else {
      var n := |s.handed|;
      assert Pipeline(t) == Pipeline(s)[..n] + Pipeline(s)[n + 1..];
      OrderlyWithout(s, t, n);
    }
  }

  /** Dropping one surface keeps the others in order. */
  lemma OrderlyWithout(s: State, t: State, n: nat)
    requires Orderly(s) && |t.ops| == 1 && t.delivered == s.delivered && n < |Pipeline(s)|
    requires Pipeline(t) == Pipeline(s)[..n] + Pipeline(s)[n + 1..]
    ensures Orderly(t)
  {
    hide Pipeline;
    var ps, qs := Pipeline(s), Pipeline(t);
    forall i | 0 <= i < |qs| ensures qs[i] == ps[if i < n then i else i + 1] {}
  }

  lemma OrderlyStep(s: State, e: Event)
    requires Sound(s) && Orderly(s)
    ensures Orderly(Step(s, e))
  {
    var t := Step(s, e);
    match e
    case SyncOp(i, a) =>
      if t != s { OrderlySync(s, a); }
    case Submit(_, _, _, _, _, _) =>
      if t.delivered != s.delivered {
        assert Pipeline(t) == Pipeline(s) + [s.delivered];
      }
    case Pop(wrapped) =>
      if s.queue != [] { OrderlyPop(s, wrapped); }
    case _ =>
  }

  lemma {:induction false} OrderlyRun(maxOut: int, es: seq<Event>)
    ensures Orderly(Run(Init(1, maxOut), es))
    decreases |es|
  {
    if es != [] {
      OrderlyRun(maxOut, es[..|es| - 1]);
      SoundRun(1, maxOut, es[..|es| - 1]);
      OrderlyStep(Run(Init(1, maxOut), es[..|es| - 1]), es[|es| - 1]);
    }
  }

  /** Two operations in flight: the second finishes at an earlier pass than the first. */
  function Overtaking(): seq<Event> {
    [Append(10), BecomeReady,
     Submit(false, 0, 0, 0, DecodeFrame(7, true), 5), Submit(false, 1, 1, 0, DecodeFrame(8, true), 5),
     SyncOp(0, InExecution), SyncOp(1, SyncDone), Pop(true),
     SyncOp(0, SyncDone), Pop(true)]
  }

  lemma OvertakingSwaps(asyncDepth: int, maxOut: int)
    requires NormalDepth(asyncDepth) >= 2
    ensures Run(Init(asyncDepth, maxOut), Overtaking()).handed == [1, 0]
  {
    var es := Overtaking();
    var s0 := Init(asyncDepth, maxOut);
    var s2 := Step(Step(s0, es[0]), es[1]);
    var s3 := Step(s2, es[2]);
    assert FirstIdle(s2.ops, 0) == 0;
    assert FirstIdle(s3.ops, 0) == 1;
    var s4 := Step(s3, es[3]);
    var s6 := Step(Step(s4, es[4]), es[5]);
    assert s6.queue == [Item(8, 1, 1, 0, 1)];
    var s7 := Step(s6, es[6]);
    var s9 := Step(Step(s7, es[7]), es[8]);
    assert s9.handed == [1, 0];
    RunPrefix(s0, es, 9);
    assert es[..9] == es;
    RunPrefix(s0, es, 8);
    RunPrefix(s0, es, 7);
    RunPrefix(s0, es, 6);
    RunPrefix(s0, es, 5);
    RunPrefix(s0, es, 4);
    RunPrefix(s0, es, 3);
    RunPrefix(s0, es, 2);
    RunPrefix(s0, es, 1);
  }

  lemma RunPrefix(s: State, es: seq<Event>, n: nat)
    requires 0 < n <= |es|
    ensures Run(s, es[..n]) == Step(Run(s, es[..n - 1]), es[n - 1])
  {
    assert es[..n][..n - 1] == es[..n - 1];
  }

  /** Surfaces are handed out in the order the decoder delivered them, in every run, exactly
      when the decoder keeps a single operation in flight. */
  lemma OrderKeptIffSingleOp(asyncDepth: int, maxOut: int)
    ensures (forall es :: Increasing(Run(Init(asyncDepth, maxOut), es).handed)) <==> asyncDepth == 1
  {
    if asyncDepth == 1 {
      forall es ensures Increasing(Run(Init(asyncDepth, maxOut), es).handed) {
        OrderlyRun(maxOut, es);
        var s := Run(Init(1, maxOut), es);
        forall i, j | 0 <= i < j < |s.handed| ensures s.handed[i] < s.handed[j] {
          assert Pipeline(s)[i] == s.handed[i] && Pipeline(s)[j] == s.handed[j];
        }
      }
    } else {
      OvertakingSwaps(asyncDepth, maxOut);
      var handed := Run(Init(asyncDepth, maxOut), Overtaking()).handed;
      assert handed[0] > handed[1];
    }
  }
}
