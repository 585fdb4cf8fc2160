/** The calls of the split decoder as functions of the device's answers: passes over the
    operations, rounds of the drive loop, pushing, polling and flushing; how long a drive can
    take, and an overtaking that the calls perform. */
module DecoderCalls {
  import opened Basics
  import opened Sums
  import opened DecoderHistory
  import opened DecoderModel

  // ----- a pass over the operations

  /** How a pass ended: with all operations visited, or early at a warning or an error. */
  datatype Verdict = Whole | Warned | Failed

  datatype PassResult = PassResult(state: State, progressed: bool, verdict: Verdict)

  /** An operation without a sync point is done; an idle one is left alone. */
  function Effective(s: State, i: nat, answers: seq<SyncAnswer>): SyncAnswer {
    if i >= |s.ops| || !s.ops[i].inUse then InExecution
    else if !s.ops[i].sync then SyncDone
    else if i < |answers| then answers[i] else InExecution
  }

  function Visit(p: PassResult, i: nat, answers: seq<SyncAnswer>): PassResult {
    var a := Effective(p.state, i, answers);
    PassResult(SyncStep(p.state, i, a), p.progressed || a.SyncDone?,
               if a.SyncWarning? then Warned else if a.SyncFails? then Failed else Whole)
  }

  /** The pass over the first `n` operations; `answers` are the device's, by operation. */
  function PassTo(s: State, answers: seq<SyncAnswer>, n: nat): PassResult {
    if n == 0 then PassResult(s, false, Whole)
    else
      var p := PassTo(s, answers, n - 1);
      if p.verdict != Whole then p else Visit(p, n - 1, answers)
  }

  function Pass(s: State, answers: seq<SyncAnswer>): PassResult {
    PassTo(s, answers, |s.ops|)
  }

  /** Later answers do not change an earlier part of the pass. */
  lemma {:induction false} PassPrefix(s: State, answers: seq<SyncAnswer>, more: seq<SyncAnswer>, n: nat)
    requires n <= |answers|
    ensures PassTo(s, answers + more, n) == PassTo(s, answers, n)
  {
    if n > 0 {
      hide SyncStep;
      PassPrefix(s, answers, more, n - 1);
    }
  }

  /** A pass that ended early stays as it is. */
  lemma {:induction false} PassEnded(s: State, answers: seq<SyncAnswer>, m: nat, n: nat)
    requires m <= n && PassTo(s, answers, m).verdict != Whole
    ensures PassTo(s, answers, n) == PassTo(s, answers, m)
    decreases n
  {
    if m < n {
      hide SyncStep;
      PassEnded(s, answers, m, n - 1);
    }
  }

  /** What a visit does to the measure of the drive loop: a finished operation raises it by one,
      a released one lowers it by one. */
  lemma VisitProgress(s: State, i: nat, answers: seq<SyncAnswer>)
    requires Sound(s)
    ensures var a := Effective(s, i, answers);
            var t := SyncStep(s, i, a);
            && Sound(t) && |t.ops| == |s.ops| && t.maxOut == s.maxOut && t.drained == s.drained
            && t.flushing == s.flushing
            && t.inputLen == s.inputLen
            && Progress(t) == Progress(s) + B2N(a.SyncDone?) - B2N(a.SyncWarning? || a.SyncFails?)
  {
    var a := Effective(s, i, answers);
    var t := SyncStep(s, i, a);
    SoundSync(s, i, a);
    if t != s {
      SumUpdate(s.ops, i, t.ops[i], BusyW());
    }
  }

  lemma {:induction false} PassProgress(s: State, answers: seq<SyncAnswer>, n: nat)
    requires Sound(s)
    ensures var p := PassTo(s, answers, n);
            && Sound(p.state) && |p.state.ops| == |s.ops| && p.state.maxOut == s.maxOut
            && p.state.drained == s.drained && p.state.flushing == s.flushing && p.state.inputLen == s.inputLen
            && Progress(p.state) >= Progress(s) + B2N(p.progressed) - B2N(p.verdict != Whole)
  {
    hide Sound, Progress, SyncStep;
    if n > 0 {
      PassProgress(s, answers, n - 1);
      var p := PassTo(s, answers, n - 1);
      if p.verdict == Whole {
        VisitProgress(p.state, n - 1, answers);
      }
    }
  }

  /** A pass makes no idle operation busy. */
  lemma {:induction false} PassKeepsIdle(s: State, answers: seq<SyncAnswer>, n: nat, i: nat)
    requires i < |s.ops| && !s.ops[i].inUse
    ensures var ops := PassTo(s, answers, n).state.ops;
            |ops| == |s.ops| && !ops[i].inUse
  {
    if n > 0 {
      PassKeepsIdle(s, answers, n - 1, i);
    }
  }

  /** Operation `i` is in flight, and it is done: it has no sync point, or is answered so. */
  predicate Finishing(s: State, answers: seq<SyncAnswer>, i: nat) {
    i < |s.ops| && s.ops[i].inUse && (!s.ops[i].sync || (i < |answers| && answers[i].SyncDone?))
  }

  predicate SomeFinish(s: State, answers: seq<SyncAnswer>, n: nat) {
    exists i: nat :: i < n && Finishing(s, answers, i)
  }

  lemma SomeFinishNext(s: State, answers: seq<SyncAnswer>, n: nat)
    ensures !SomeFinish(s, answers, 0)
    ensures SomeFinish(s, answers, n + 1) <==> SomeFinish(s, answers, n) || Finishing(s, answers, n)
  {
    hide Finishing;
  }

  /** Operation `i` is in flight, and the device warns about it or fails. */
  predicate InTrouble(s: State, answers: seq<SyncAnswer>, i: nat) {
    && i < |s.ops| && s.ops[i].inUse && s.ops[i].sync && i < |answers|
    && (answers[i].SyncWarning? || answers[i].SyncFails?)
  }

  /** The surface of operation `i` with its metadata, if it finishes. */
  function FinishedItem(s: State, answers: seq<SyncAnswer>, i: nat): seq<Item> {
    if !Finishing(s, answers, i) || s.ops[i].surface.None? then []
    else [Item(s.ops[i].surface.value, s.ops[i].pts, s.ops[i].dts, s.ops[i].user, s.ops[i].serial)]
  }

  /** The surfaces of the finished operations among the first `n`, in their order. */
  function FinishedItems(s: State, answers: seq<SyncAnswer>, n: nat): seq<Item> {
    if n == 0 then [] else FinishedItems(s, answers, n - 1) + FinishedItem(s, answers, n - 1)
  }

  /** Exactly the finished operations among the first `n` are idle afterwards. */
  ghost predicate Settles(s: State, t: State, answers: seq<SyncAnswer>, n: nat) {
    && |t.ops| == |s.ops|
    && (forall i :: 0 <= i < |s.ops| && !(i < n && Finishing(s, answers, i)) ==> t.ops[i] == s.ops[i])
    && (forall i :: 0 <= i < n && Finishing(s, answers, i) ==> !t.ops[i].inUse)
    && t.released == s.released && t.inputLen == s.inputLen && t.delivered == s.delivered
  }

  /** A pass that meets no trouble queues the surfaces of all finished operations, in order, and
      leaves the others alone. */
  lemma {:induction false} WholePass(s: State, answers: seq<SyncAnswer>, n: nat)
    requires n <= |s.ops| && forall i :: 0 <= i < n ==> !InTrouble(s, answers, i)
    ensures var p := PassTo(s, answers, n);
            && p.verdict == Whole && Settles(s, p.state, answers, n)
            && p.state.queue == s.queue + FinishedItems(s, answers, n)
            && (p.progressed <==> SomeFinish(s, answers, n))
  {
    if n == 0 {
      SomeFinishNext(s, answers, 0);
    } else {
      hide Settles, SyncStep, Finishing, InTrouble, FinishedItem, SomeFinish, Effective;
      SomeFinishNext(s, answers, n - 1);
      WholePass(s, answers, n - 1);
      var p := PassTo(s, answers, n - 1);
      SettlesNext(s, p.state, answers, n - 1);
    }
  }

  /** The next visit of a pass that met no trouble so far. */
  lemma SettlesNext(s: State, t: State, answers: seq<SyncAnswer>, i: nat)
    requires i < |s.ops| && !InTrouble(s, answers, i) && Settles(s, t, answers, i)
    ensures var a := Effective(t, i, answers);
            var u := SyncStep(t, i, a);
            && Settles(s, u, answers, i + 1) && u.queue == t.queue + FinishedItem(s, answers, i)
            && (a.SyncDone? <==> Finishing(s, answers, i)) && !a.SyncWarning? && !a.SyncFails?
  {
    hide SyncStep;
    assert t.ops[i] == s.ops[i];
    OneVisit(t, answers, i);
  }

  /** A visit to an operation that is in no trouble. */
  lemma OneVisit(s: State, answers: seq<SyncAnswer>, i: nat)
    requires i < |s.ops| && !InTrouble(s, answers, i)
    ensures var a := Effective(s, i, answers);
            var t := SyncStep(s, i, a);
            && (a.SyncDone? <==> Finishing(s, answers, i)) && !a.SyncWarning? && !a.SyncFails?
            && |t.ops| == |s.ops| && (forall x :: 0 <= x < |s.ops| && x != i ==> t.ops[x] == s.ops[x])
            && (if Finishing(s, answers, i) then !t.ops[i].inUse else t.ops[i] == s.ops[i])
            && t.released == s.released && t.inputLen == s.inputLen && t.delivered == s.delivered
            && t.queue == s.queue + FinishedItem(s, answers, i)
  {
  }

  /** A pass ends at the first operation in trouble: as a success after a warning, as a failure
      otherwise, and its surface is released. */
  lemma TroubledPass(s: State, answers: seq<SyncAnswer>, m: nat)
    requires m < |s.ops| && InTrouble(s, answers, m) && forall i :: 0 <= i < m ==> !InTrouble(s, answers, i)
    ensures var p := Pass(s, answers);
            && p.verdict == (if answers[m].SyncWarning? then Warned else Failed)
            && p.state.queue == s.queue + FinishedItems(s, answers, m)
            && p.state.released == s.released + ReleasedBy(s.ops[m])
            && |p.state.ops| == |s.ops| && !p.state.ops[m].inUse
            && (forall i :: m < i < |s.ops| ==> p.state.ops[i] == s.ops[i])
  {
    hide Finishing, SomeFinish, FinishedItem, FinishedItems;
    WholePass(s, answers, m);
    var p := PassTo(s, answers, m);
    assert p.state.ops[m] == s.ops[m];
    assert PassTo(s, answers, m + 1) == Visit(p, m, answers);
    PassEnded(s, answers, m + 1, |s.ops|);
  }

  // ----- rounds of the drive loop

  datatype Args = Args(draining: bool, pts: int, dts: int, user: int, blocking: bool)

  /** The device's answers in one round. */
  datatype Round = Round(answers: seq<SyncAnswer>, decode: DecodeAnswer, consumed: nat)

  datatype RoundResult = Goes(state: State) | Ends(state: State, failed: bool)

  function Submission(args: Args, decode: DecodeAnswer, consumed: nat): Event {
    Submit(args.draining, args.pts, args.dts, args.user, decode, consumed)
  }

  /** One round: a pass, then a submission when the queue has room and an operation is idle. */
  function RoundStep(s: State, args: Args, r: Round): RoundResult {
    var p := Pass(s, r.answers);
    if p.verdict == Failed then Ends(p.state, true)
    else if |p.state.queue| >= p.state.maxOut then Ends(p.state, false)
    else if FirstIdle(p.state.ops, 0) == |p.state.ops| then
      if p.progressed then Goes(p.state) else Ends(p.state, false)
    else
      AfterSubmission(SubmitStep(p.state, Submission(args, r.decode, r.consumed)), args, r.decode, p.progressed)
  }

  /** Whether the loop goes on after a submission. */
  function AfterSubmission(t: State, args: Args, decode: DecodeAnswer, progressed: bool): RoundResult {
    match decode
    case DecodeFails => Ends(t, true)
    case DecodeMoreData => Ends(t, false)
    case DecodeNoSurface => Ends(t, false)
    case DecodeStall => if progressed then Goes(t) else Ends(t, false)
    case DecodeFrame(_, _) =>
      if (!args.draining && t.inputLen == 0) || (!args.blocking && FirstIdle(t.ops, 0) == |t.ops|)
      then Ends(t, false) else Goes(t)
  }

  /** After a submission the loop goes on when a frame came, there is more input or the decoder is
      drained, and, unless it blocks, an operation is idle; or when the device stalled but the pass
      had finished something. */
  predicate SubmissionLeavesWork(t: State, args: Args, decode: DecodeAnswer, progressed: bool) {
    || (decode.DecodeFrame? && (args.draining || t.inputLen > 0) && (args.blocking || HasIdle(t)))
    || (decode.DecodeStall? && progressed)
  }

  /** A round ends the loop when the pass fails, the queue is full, no operation is idle although
      none was finished, or the submission leaves no work; at a device error as a failure. */
  lemma RoundGoesIff(s: State, args: Args, r: Round)
    ensures var p := Pass(s, r.answers);
            var t := SubmitStep(p.state, Submission(args, r.decode, r.consumed));
            var room := p.verdict != Failed && |p.state.queue| < p.state.maxOut;
            && (RoundStep(s, args, r).Goes? <==>
                  && room
                  && if HasIdle(p.state) then SubmissionLeavesWork(t, args, r.decode, p.progressed) else p.progressed)
            && RoundStep(s, args, r).state == (if room && HasIdle(p.state) then t else p.state)
            && (RoundStep(s, args, r).Ends? ==>
                  (RoundStep(s, args, r).failed <==>
                     p.verdict == Failed || (room && HasIdle(p.state) && r.decode.DecodeFails?)))
  {
    hide PassTo, SubmitStep;
    var u := Pass(s, r.answers).state;
    IdleIff(u);
    IdleIff(SubmitStep(u, Submission(args, r.decode, r.consumed)));
  }

  lemma IdleIff(s: State)
    ensures HasIdle(s) <==> FirstIdle(s.ops, 0) < |s.ops|
  {
    var i := FirstIdle(s.ops, 0);
    if i < |s.ops| { assert !s.ops[i].inUse; }
  }

  function Rounds(s: State, args: Args, rs: seq<Round>): RoundResult {
    if rs == [] then Goes(s)
    else
      match Rounds(s, args, rs[..|rs| - 1])
      case Ends(t, failed) => Ends(t, failed)
      case Goes(t) => RoundStep(t, args, rs[|rs| - 1])
  }

  predicate RoundWarned(s: State, r: Round) {
    Pass(s, r.answers).verdict == Warned
  }

  /** How many of the rounds met a warning. */
  function Warnings(s: State, args: Args, rs: seq<Round>): nat {
    if rs == [] then 0
    else
      var before := rs[..|rs| - 1];
      Warnings(s, args, before) +
      B2N(Rounds(s, args, before).Goes? && RoundWarned(Rounds(s, args, before).state, rs[|rs| - 1]))
  }

  /** The loop is entered before the drain is complete, draining only while flushing with no
      input pending. */
  ghost predicate MayDrive(s: State, args: Args) {
    Sound(s) && !s.drained && (args.draining ==> s.flushing && s.inputLen == 0)
  }

  lemma SubmissionGoesOn(s: State, args: Args, r: Round)
    requires MayDrive(s, args) && |s.queue| < s.maxOut && FirstIdle(s.ops, 0) < |s.ops|
    ensures var t := SubmitStep(s, Submission(args, r.decode, r.consumed));
            && Sound(t) && |t.ops| == |s.ops| && t.maxOut == s.maxOut && t.flushing == s.flushing
            && (args.draining ==> t.inputLen == s.inputLen)
            && (r.decode.DecodeFrame? || r.decode.DecodeStall? ==> !t.drained)
            && Progress(t) == Progress(s) + B2N(r.decode.DecodeFrame?)
  {
    var e := Submission(args, r.decode, r.consumed);
    SoundSubmit(s, e);
    SubmitMakesProgress(s, e);
  }

  /** A round after which the loop goes on raises the measure by one, less one for a warning. */
  lemma RoundProgress(s: State, args: Args, r: Round)
    requires MayDrive(s, args) && RoundStep(s, args, r).Goes?
    ensures var t := RoundStep(s, args, r).state;
            && MayDrive(t, args) && |t.ops| == |s.ops| && t.maxOut == s.maxOut
            && Progress(t) >= Progress(s) + 1 - B2N(RoundWarned(s, r))
  {
    hide Sound, Progress, PassTo, SubmitStep;
    PassProgress(s, r.answers, |s.ops|);
    var u := Pass(s, r.answers).state;
    if FirstIdle(u.ops, 0) < |u.ops| {
      SubmissionGoesOn(u, args, r);
    }
  }

  lemma {:induction false} RoundsProgress(s: State, args: Args, rs: seq<Round>)
    requires MayDrive(s, args) && Rounds(s, args, rs).Goes?
    ensures var t := Rounds(s, args, rs).state;
            && MayDrive(t, args) && |t.ops| == |s.ops| && t.maxOut == s.maxOut
            && Progress(t) >= Progress(s) + |rs| - Warnings(s, args, rs)
    decreases |rs|
  {
    if rs != [] {
      hide RoundStep, MayDrive, Progress, RoundWarned;
      var n := |rs| - 1;
      RoundsProgress(s, args, rs[..n]);
      RoundProgress(Rounds(s, args, rs[..n]).state, args, rs[n]);
    }
  }

  lemma RoundsAppend(s: State, args: Args, rs: seq<Round>, r: Round)
    requires Rounds(s, args, rs).Goes?
    ensures Rounds(s, args, rs + [r]) == RoundStep(Rounds(s, args, rs).state, args, r)
  {
    assert (rs + [r])[..|rs|] == rs;
  }

  lemma ProgressBound(s: State)
    requires Sound(s)
    ensures 0 <= Progress(s) <= 2 * (s.maxOut + |s.ops|)
  {
  }

  /** A drive that is still going has done at most twice the capacity in rounds, and one more
      for every warning it met. */
  lemma DriveBound(s: State, args: Args, rs: seq<Round>)
    requires MayDrive(s, args) && Rounds(s, args, rs).Goes?
    ensures |rs| <= 2 * (s.maxOut + |s.ops|) + Warnings(s, args, rs)
  {
    hide Rounds, Warnings, Progress;
    RoundsProgress(s, args, rs);
    ProgressBound(s);
    ProgressBound(Rounds(s, args, rs).state);
  }

  // ----- drives without end

  /** Nothing is in flight, the queue has room, and there is input unless draining. */
  ghost predicate ReadyToDrive(s: State, args: Args) {
    MayDrive(s, args) && |s.queue| < s.maxOut && (args.draining || s.inputLen > 0)
  }

  ghost predicate AllIdle(s: State) {
    forall i :: 0 <= i < |s.ops| ==> !s.ops[i].inUse
  }

  /** Only the first operation may be in flight, and the device has to be asked about it. */
  ghost predicate OnlyFirst(s: State) {
    |s.ops| > 0 && (s.ops[0].inUse ==> s.ops[0].sync) && forall i :: 0 < i < |s.ops| ==> !s.ops[i].inUse
  }

  /** The device warns about the operation in flight and delivers the next frame. */
  const WARN := Round([SyncWarning], DecodeFrame(0, true), 0)

  lemma {:induction false} WarnPass(s: State, n: nat)
    requires OnlyFirst(s) && n <= |s.ops|
    ensures var p := PassTo(s, WARN.answers, n);
            && p.verdict == (if n > 0 && s.ops[0].inUse then Warned else Whole) && !p.progressed
            && p.state == if n > 0 && s.ops[0].inUse then SyncStep(s, 0, SyncWarning) else s
  {
    if n > 0 {
      WarnPass(s, n - 1);
    }
  }

  lemma WarnRound(s: State, args: Args)
    requires ReadyToDrive(s, args) && OnlyFirst(s) && (args.blocking || |s.ops| >= 2)
    ensures RoundStep(s, args, WARN).Goes?
    ensures var t := RoundStep(s, args, WARN).state;
            ReadyToDrive(t, args) && OnlyFirst(t) && |t.ops| == |s.ops|
  {
    WarnPass(s, |s.ops|);
    PassProgress(s, WARN.answers, |s.ops|);
    var u := Pass(s, WARN.answers).state;
    assert FirstIdle(u.ops, 0) == 0;
    SubmissionGoesOn(u, args, WARN);
    var t := SubmitStep(u, Submission(args, WARN.decode, WARN.consumed));
    assert |t.ops| >= 2 ==> !t.ops[1].inUse;
  }

  lemma {:induction false} WarnForEver(s: State, args: Args, n: nat) returns (rs: seq<Round>)
    requires ReadyToDrive(s, args) && OnlyFirst(s) && (args.blocking || |s.ops| >= 2)
    ensures |rs| == n && Rounds(s, args, rs).Goes?
    ensures ReadyToDrive(Rounds(s, args, rs).state, args) && OnlyFirst(Rounds(s, args, rs).state)
    ensures |Rounds(s, args, rs).state.ops| == |s.ops|
  {
    if n == 0 {
      rs := [];
    } else {
      hide RoundStep, ReadyToDrive, OnlyFirst;
      var before := WarnForEver(s, args, n - 1);
      WarnRound(Rounds(s, args, before).state, args);
      rs := before + [WARN];
      assert rs[..|rs| - 1] == before;
    }
  }

  ghost predicate CanGoOn(s: State, args: Args, n: nat) {
    exists rs :: |rs| == n && Rounds(s, args, rs).Goes?
  }

  lemma {:induction false} IdlePass(s: State, answers: seq<SyncAnswer>, n: nat)
    requires AllIdle(s)
    ensures PassTo(s, answers, n) == PassResult(s, false, Whole)
  {
    if n > 0 {
      IdlePass(s, answers, n - 1);
    }
  }

  lemma RoundOnce(s: State, args: Args, r: Round)
    ensures Rounds(s, args, [r]) == RoundStep(s, args, r)
  {
    assert [r][..0] == [];
  }

  /** With a single operation and without blocking, the first round ends the drive. */
  lemma SingleOpEnds(s: State, args: Args, r: Round)
    requires ReadyToDrive(s, args) && AllIdle(s) && |s.ops| == 1 && !args.blocking
    ensures RoundStep(s, args, r).Ends?
  {
    IdlePass(s, r.answers, |s.ops|);
  }

  /** From an idle decoder with room, the drive loop can go on for any number of rounds exactly
      when it blocks or has a second operation; by the bound above it then meets arbitrarily
      many warnings. */
  lemma DriveUnboundedIff(s: State, args: Args)
    requires ReadyToDrive(s, args) && AllIdle(s)
    ensures (forall n: nat :: CanGoOn(s, args, n)) <==> args.blocking || |s.ops| >= 2
  {
    if args.blocking || |s.ops| >= 2 {
      forall n: nat ensures CanGoOn(s, args, n) {
        var rs := WarnForEver(s, args, n);
      }
    } else {
      if CanGoOn(s, args, 1) {
        var rs :| |rs| == 1 && Rounds(s, args, rs).Goes?;
        assert rs == [rs[0]];
        RoundOnce(s, args, rs[0]);
        SingleOpEnds(s, args, rs[0]);
      }
      assert !CanGoOn(s, args, 1);
    }
  }

  // ----- the calls

  datatype Done = Done(state: State, failed: bool)

  function Drive(s: State, args: Args, rs: seq<Round>): Done {
    match Rounds(s, args, rs)
    case Ends(t, failed) => Done(t, failed)
    case Goes(t) => Done(t, false)
  }

  /** An accepted packet on a decoder that is ready after it. */
  function Push(s: State, size: nat, pts: int, dts: int, user: int, rs: seq<Round>): Done {
    Drive(Step(Step(s, Append(size)), BecomeReady), Args(false, pts, dts, user, false), rs)
  }

  function PassDone(s: State, answers: seq<SyncAnswer>): Done {
    var p := Pass(s, answers);
    Done(p.state, p.verdict == Failed)
  }

  function DriveAndPass(s: State, args: Args, rs: seq<Round>, answers: seq<SyncAnswer>): Done {
    var d := Drive(s, args, rs);
    if d.failed then d else PassDone(d.state, answers)
  }

  /** A flush works on pending input first, then drains without time stamps. */
  function FlushArgs(s: State, last: Args): Args {
    if s.inputLen > 0 then last else Args(true, -1, -1, 0, last.blocking)
  }

  function Advance(s: State, last: Args, rs: seq<Round>): Done {
    if s.drained then Done(s, false)
    else if !s.ready then Done(s.(drained := true), false)
    else Drive(s, FlushArgs(s, last), rs)
  }

  function FlushCall(s: State, last: Args, rs: seq<Round>): Done {
    if s.drained then Done(s, false) else Advance(s.(flushing := true), last, rs)
  }

  /** The device's answers during one poll. */
  datatype PollAnswers = PollAnswers(
    first: seq<SyncAnswer>, input: seq<Round>, second: seq<SyncAnswer>, flush: seq<Round>, third: seq<SyncAnswer>)

  const NO_ANSWERS := PollAnswers([], [], [], [], [])

  function FromInput(s: State, last: Args, x: PollAnswers): Done {
    if !s.drained && s.queue == [] && s.inputLen > 0 then DriveAndPass(s, last, x.input, x.second) else Done(s, false)
  }

  function FromFlush(s: State, last: Args, x: PollAnswers): Done {
    if s.flushing && !s.drained && s.queue == []
    then DriveAndPass(s, FlushArgs(s, last), x.flush, x.third) else Done(s, false)
  }

  function FromBoth(s: State, last: Args, x: PollAnswers): Done {
    var d := FromInput(s, last, x);
    if d.failed then d else FromFlush(d.state, last, x)
  }

  /** What happens before a poll looks at the queue. */
  function Refill(s: State, last: Args, x: PollAnswers): Done {
    if !s.ready then Done(s, false)
    else
      var first := PassDone(s, x.first);
      if first.failed then first else FromBoth(first.state, last, x)
  }

  /** A poll that hands out the front of the queue. */
  function Poll(s: State, last: Args, x: PollAnswers): State {
    Step(Refill(s, last, x).state, Pop(true))
  }

  // ----- what the calls leave alone

  /** Queued surfaces keep their places, and nothing is handed out. */
  ghost predicate Keeps(s: State, t: State) {
    s.queue <= t.queue && t.handed == s.handed
  }

  lemma {:induction false} PassKeeps(s: State, answers: seq<SyncAnswer>, n: nat)
    ensures Keeps(s, PassTo(s, answers, n).state)
  {
    if n > 0 {
      PassKeeps(s, answers, n - 1);
    }
  }

  lemma RoundKeeps(s: State, args: Args, r: Round)
    ensures Keeps(s, RoundStep(s, args, r).state)
  {
    hide PassTo;
    PassKeeps(s, r.answers, |s.ops|);
  }

  lemma {:induction false} RoundsKeep(s: State, args: Args, rs: seq<Round>)
    ensures Keeps(s, Rounds(s, args, rs).state)
    decreases |rs|
  {
    if rs != [] {
      hide RoundStep;
      var n := |rs| - 1;
      RoundsKeep(s, args, rs[..n]);
      RoundKeeps(Rounds(s, args, rs[..n]).state, args, rs[n]);
    }
  }

  lemma DriveAndPassKeeps(s: State, args: Args, rs: seq<Round>, answers: seq<SyncAnswer>)
    ensures Keeps(s, DriveAndPass(s, args, rs, answers).state)
  {
    hide Rounds, PassTo;
    RoundsKeep(s, args, rs);
    var t := Drive(s, args, rs).state;
    PassKeeps(t, answers, |t.ops|);
  }

  /** A poll first adds finished surfaces behind the queued ones and hands out nothing. */
  lemma RefillKeeps(s: State, last: Args, x: PollAnswers)
    ensures Keeps(s, Refill(s, last, x).state)
  {
    hide DriveAndPass, PassTo;
    PassKeeps(s, x.first, |s.ops|);
    var t := PassDone(s, x.first).state;
    DriveAndPassKeeps(t, last, x.input, x.second);
    var u := FromInput(t, last, x).state;
    DriveAndPassKeeps(u, FlushArgs(u, last), x.flush, x.third);
  }

  /** At the end of the stream a poll changes nothing. */
  lemma FinishedRefill(s: State, last: Args, x: PollAnswers)
    requires Finished(s)
    ensures Refill(s, last, x) == Done(s, false)
  {
    assert AllIdle(s);
    IdlePass(s, x.first, |s.ops|);
  }

  // ----- a flush and its pending input

  lemma {:induction false} PassDrainsNot(s: State, answers: seq<SyncAnswer>, n: nat)
    ensures PassTo(s, answers, n).state.drained == s.drained
  {
    if n > 0 {
      PassDrainsNot(s, answers, n - 1);
    }
  }

  lemma RoundDrainsNot(s: State, args: Args, r: Round)
    requires !args.draining
    ensures RoundStep(s, args, r).state.drained == s.drained
  {
    hide PassTo;
    PassDrainsNot(s, r.answers, |s.ops|);
  }

  lemma {:induction false} RoundsDrainNot(s: State, args: Args, rs: seq<Round>)
    requires !args.draining
    ensures Rounds(s, args, rs).state.drained == s.drained
    decreases |rs|
  {
    if rs != [] {
      hide RoundStep;
      var n := |rs| - 1;
      RoundsDrainNot(s, args, rs[..n]);
      RoundDrainsNot(Rounds(s, args, rs[..n]).state, args, rs[n]);
    }
  }

  /** With input pending a flush completes the drain, whatever the device answers, exactly when
      the decoder never got ready; the input is then discarded. */
  lemma FlushDrainsIff(s: State, last: Args, rs: seq<Round>)
    requires !s.drained && s.inputLen > 0 && !last.draining
    ensures FlushCall(s, last, rs).state.drained <==> !s.ready
  {
    hide Rounds;
    RoundsDrainNot(s.(flushing := true), last, rs);
  }

  /** Without input and with nothing in flight, a flush whose draining submission runs dry ends the
      stream. */
  lemma FlushFinishes(s: State, last: Args)
    requires s.ready && !s.drained && s.inputLen == 0 && s.queue == [] && s.maxOut > 0 && |s.ops| > 0 && AllIdle(s)
    ensures var d := FlushCall(s, last, [STARVED]);
            !d.failed && Finished(d.state)
  {
    hide PassTo;
    var t, args := s.(flushing := true), FlushArgs(s, last);
    IdlePass(t, STARVED.answers, |t.ops|);
    assert FirstIdle(t.ops, 0) == 0;
    RoundOnce(t, args, STARVED);
  }

  /** The device asks for more data and takes nothing. */
  const STARVED := Round([], DecodeMoreData, 0)

  /** A ready decoder in a flush with nothing left but input the device does not take. */
  ghost predicate Stuck(s: State) {
    && s.ready && s.flushing && !s.drained && s.inputLen > 0
    && s.queue == [] && s.maxOut > 0 && |s.ops| > 0 && AllIdle(s)
  }

  lemma StarvedDrive(s: State, args: Args)
    requires !s.drained && s.queue == [] && s.maxOut > 0 && |s.ops| > 0 && AllIdle(s) && !args.draining
    ensures var d := Drive(s, args, [STARVED]);
            !d.failed && d.state == s.(ops := d.state.ops) && |d.state.ops| == |s.ops| && AllIdle(d.state)
  {
    IdlePass(s, STARVED.answers, |s.ops|);
    assert FirstIdle(s.ops, 0) == 0;
    RoundOnce(s, args, STARVED);
  }

  lemma StuckPoll(s: State, last: Args)
    requires Stuck(s) && !last.draining
    ensures Stuck(Poll(s, last, NO_ANSWERS.(input := [STARVED], flush := [STARVED])))
  {
    hide Rounds, PassTo;
    var x := NO_ANSWERS.(input := [STARVED], flush := [STARVED]);
    IdlePass(s, [], |s.ops|);
    StarvedDrive(s, last);
    var t := Drive(s, last, x.input).state;
    IdlePass(t, [], |t.ops|);
    StarvedDrive(t, last);
    var u := Drive(t, last, x.flush).state;
    IdlePass(u, [], |u.ops|);
  }

  /** One packet, a flush and n polls, and the device leaves bytes behind. */
  function StuckPolls(asyncDepth: int, maxOut: int, size: nat, n: nat): State {
    var last := Args(false, 0, 0, 0, false);
    if n == 0 then
      var pushed := Push(Init(asyncDepth, maxOut), size, 0, 0, 0, [STARVED]).state;
      FlushCall(pushed, last.(blocking := true), [STARVED]).state
    else
      Poll(StuckPolls(asyncDepth, maxOut, size, n - 1), last, NO_ANSWERS.(input := [STARVED], flush := [STARVED]))
  }

  /** Then no number of polls reaches the end of the stream, although nothing is queued or in
      flight. */
  lemma {:induction false} StuckForEver(asyncDepth: int, maxOut: int, size: nat, n: nat)
    requires size > 0
    ensures Stuck(StuckPolls(asyncDepth, maxOut, size, n)) && !Finished(StuckPolls(asyncDepth, maxOut, size, n))
  {
    if n == 0 {
      hide Rounds, PassTo;
      var s := Step(Step(Init(asyncDepth, maxOut), Append(size)), BecomeReady);
      StarvedDrive(s, Args(false, 0, 0, 0, false));
      var t := Push(Init(asyncDepth, maxOut), size, 0, 0, 0, [STARVED]).state.(flushing := true);
      StarvedDrive(t, Args(false, 0, 0, 0, true));
    } else {
      hide Poll;
      StuckForEver(asyncDepth, maxOut, size, n - 1);
      StuckPoll(StuckPolls(asyncDepth, maxOut, size, n - 1), Args(false, 0, 0, 0, false));
    }
  }

  // ----- overtaking, call by call

  /** Two packets, each one frame; the second frame is finished at the first poll, the first
      frame at the second poll. */
  function PushTwice(s: State): State {
    var t := Push(s, 10, 0, 0, 0, [Round([], DecodeFrame(7, true), 10)]).state;
    Push(t, 10, 1, 1, 0, [Round([InExecution], DecodeFrame(8, true), 10)]).state
  }

  function PollTwice(s: State): State {
    var last := Args(false, 1, 1, 0, false);
    var t := Poll(s, last, NO_ANSWERS.(first := [InExecution, SyncDone]));
    Poll(t, last, NO_ANSWERS.(first := [SyncDone]))
  }

  /** With at least two operations, two pushes and two polls hand out the second surface before
      the first. */
  lemma CallsOvertake(asyncDepth: int, maxOut: int)
    requires NormalDepth(asyncDepth) >= 2
    ensures PollTwice(PushTwice(Init(asyncDepth, maxOut))).handed == [1, 0]
  {
    hide Push, Poll;
    var s := Init(asyncDepth, maxOut);
    var t := FirstPush(s);
    var u := SecondPush(t);
    var v := FirstPoll(u);
    SecondPoll(v);
  }

  lemma FirstPush(s: State) returns (t: State)
    requires |s.ops| >= 2 && AllIdle(s) && |s.queue| < s.maxOut && !s.drained && !s.flushing && s.inputLen == 0
    ensures t == Push(s, 10, 0, 0, 0, [Round([], DecodeFrame(7, true), 10)]).state
    ensures t == s.(ops := s.ops[0 := Op(true, Some(7), true, 0, 0, 0, s.delivered)],
                    ready := true, delivered := s.delivered + 1)
  {
    var u := Step(Step(s, Append(10)), BecomeReady);
    var args, r := Args(false, 0, 0, 0, false), Round([], DecodeFrame(7, true), 10);
    IdlePass(u, r.answers, |u.ops|);
    assert FirstIdle(u.ops, 0) == 0;
    RoundOnce(u, args, r);
    t := Push(s, 10, 0, 0, 0, [r]).state;
  }

  lemma IdleIsSound(s: State)
    requires AllIdle(s) && forall i :: 0 <= i < |s.ops| ==> s.ops[i].surface.None?
    requires 1 <= |s.ops| <= s.maxOut && s.queue == [] && !s.drained
    ensures Sound(s)
  {
    SumConst(s.ops, BusyW(), 0);
  }

  /** One packet without a complete frame, as a flush finds it. */
  function FlushedPacket(s: State, size: nat): State {
    Push(s, size, 0, 0, 0, [Round([], DecodeMoreData, 0)]).state.(flushing := true)
  }

  /** A flush after one packet can be kept busy for any number of rounds: the device delivers a
      frame in each and warns about it in the next. */
  lemma FlushCanGoOn(asyncDepth: int, maxOut: int, size: nat, n: nat)
    requires size > 0
    ensures var s := FlushedPacket(Init(asyncDepth, maxOut), size);
            CanGoOn(s, FlushArgs(s, Args(false, 0, 0, 0, true)), n)
  {
    var s0 := Init(asyncDepth, maxOut);
    var u := Step(Step(s0, Append(size)), BecomeReady);
    var args, r := Args(false, 0, 0, 0, false), Round([], DecodeMoreData, 0);
    IdlePass(u, r.answers, |u.ops|);
    assert FirstIdle(u.ops, 0) == 0;
    RoundOnce(u, args, r);
    var s := FlushedPacket(s0, size);
    assert s == u.(ops := u.ops[0 := s.ops[0]], flushing := true);
    IdleIsSound(s);
    DriveUnboundedIff(s, FlushArgs(s, Args(false, 0, 0, 0, true)));
  }

  /** A pass over operations of which only the first two can be in flight. */
  lemma {:induction false} PassOverTwo(s: State, answers: seq<SyncAnswer>, n: nat)
    requires 2 <= n <= |s.ops| && forall i :: 2 <= i < |s.ops| ==> !s.ops[i].inUse
    requires PassTo(s, answers, 2).verdict == Whole
    requires |PassTo(s, answers, 2).state.ops| == |s.ops|
    requires forall i :: 2 <= i < |s.ops| ==> !PassTo(s, answers, 2).state.ops[i].inUse
    ensures PassTo(s, answers, n) == PassTo(s, answers, 2)
  {
    if n > 2 {
      PassOverTwo(s, answers, n - 1);
    }
  }

  lemma SecondPush(s: State) returns (t: State)
    requires |s.ops| >= 2 && s.ops[0].inUse && s.ops[0].sync && forall i :: 1 <= i < |s.ops| ==> !s.ops[i].inUse
    requires |s.queue| < s.maxOut && !s.drained && !s.flushing && s.inputLen == 0
    ensures t == Push(s, 10, 1, 1, 0, [Round([InExecution], DecodeFrame(8, true), 10)]).state
    ensures t == s.(ops := s.ops[1 := Op(true, Some(8), true, 1, 1, 0, s.delivered)],
                    ready := true, delivered := s.delivered + 1)
  {
    var u := Step(Step(s, Append(10)), BecomeReady);
    var args, r := Args(false, 1, 1, 0, false), Round([InExecution], DecodeFrame(8, true), 10);
    assert PassTo(u, r.answers, 1) == PassResult(u, false, Whole);
    assert PassTo(u, r.answers, 2) == PassResult(u, false, Whole);
    PassOverTwo(u, r.answers, |u.ops|);
    assert FirstIdle(u.ops, 1) == 1;
    RoundOnce(u, args, r);
    t := Push(s, 10, 1, 1, 0, [r]).state;
  }

  lemma FirstPoll(s: State) returns (t: State)
    requires |s.ops| >= 2 && s.ready && !s.drained && !s.flushing && s.queue == []
    requires forall i :: 2 <= i < |s.ops| ==> !s.ops[i].inUse
    requires s.ops[0].inUse && s.ops[0].sync && s.ops[1].inUse && s.ops[1].sync && s.ops[1].surface.Some?
    ensures t == Poll(s, Args(false, 1, 1, 0, false), NO_ANSWERS.(first := [InExecution, SyncDone]))
    ensures |t.ops| == |s.ops| && t.ops[0] == s.ops[0] && (forall i :: 1 <= i < |s.ops| ==> !t.ops[i].inUse)
    ensures t == s.(ops := t.ops, handed := s.handed + [s.ops[1].serial])
  {
    var answers := [InExecution, SyncDone];
    assert PassTo(s, answers, 1) == PassResult(s, false, Whole);
    var p := PassTo(s, answers, 2);
    assert p == PassResult(Enqueue(s, 1), true, Whole);
    PassOverTwo(s, answers, |s.ops|);
    t := Poll(s, Args(false, 1, 1, 0, false), NO_ANSWERS.(first := answers));
  }

  lemma SecondPoll(s: State)
    requires |s.ops| >= 2 && s.ready && !s.drained && !s.flushing && s.queue == []
    requires forall i :: 1 <= i < |s.ops| ==> !s.ops[i].inUse
    requires s.ops[0].inUse && s.ops[0].sync && s.ops[0].surface.Some?
    ensures Poll(s, Args(false, 1, 1, 0, false), NO_ANSWERS.(first := [SyncDone])).handed ==
            s.handed + [s.ops[0].serial]
  {
    var answers := [SyncDone];
    assert PassTo(s, answers, 0) == PassResult(s, false, Whole);
    var p := PassTo(s, answers, 1);
    assert p == PassResult(Enqueue(s, 0), true, Whole);
    assert PassTo(s, answers, 2) == p;
    PassOverTwo(s, answers, |s.ops|);
  }
}
