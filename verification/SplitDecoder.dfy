/** The split decoder as callers use it: push, poll and flush over fields updated in place.
    Every method performs steps of DecoderModel, recorded in the ghost log, and has the effect
    that DecoderCalls computes from the device's answers. */
module SplitDecoder {
  import opened Basics
  import opened DecoderModel
  import opened DecoderHistory
  import opened DecoderCalls

  datatype Status = Ok | Again | Eos | BadState | InvalidParam | NoMemory | DeviceError

  /** How preparing the device decoder ends. */
  datatype InitAnswer = Ready | NeedsHeader | InitFails

  // ----- what a call asked the device, and what it submitted

  /** The device was asked for a frame since the first `n` questions. */
  predicate AskedForFrame(asked: seq<Ask>, n: nat, draining: bool) {
    exists k: nat :: n <= k < |asked| && asked[k].DecodeAsked? && asked[k].draining == draining
  }

  /** The first question after the first `n`, if there is one, is about an operation in flight. */
  predicate LooksFirst(asked: seq<Ask>, n: nat) {
    |asked| > n ==> asked[n].SyncAsked?
  }

  predicate AskedForSome(asked: seq<Ask>, n: nat) {
    AskedForFrame(asked, n, false) || AskedForFrame(asked, n, true)
  }

  predicate IsFailure(a: Ask) {
    a == SyncAsked(SyncFails) || (a.DecodeAsked? && a.decode.DecodeFails?)
  }

  /** The device failed since the first `n` questions. */
  predicate DeviceFailed(asked: seq<Ask>, n: nat) {
    exists k: nat :: n <= k < |asked| && IsFailure(asked[k])
  }

  ghost predicate SubmitsNothing(log: seq<Event>, n: nat) {
    forall k: nat :: n <= k < |log| ==> !log[k].Submit?
  }

  predicate SubmittedAs(e: Event, draining: bool, pts: int, dts: int, user: int) {
    e.Submit? ==> e.draining == draining && (e.pts, e.dts, e.user) == (pts, dts, user)
  }

  /** All submissions after the first `n` events have these arguments. */
  ghost predicate Submits(log: seq<Event>, n: nat, draining: bool, pts: int, dts: int, user: int) {
    forall k: nat :: n <= k < |log| ==> SubmittedAs(log[k], draining, pts, dts, user)
  }

  /** As above, for submissions of input, and draining ones without time stamps. */
  ghost predicate SubmitsOrDrains(log: seq<Event>, n: nat, pts: int, dts: int, user: int) {
    forall k: nat :: n <= k < |log| ==>
                       SubmittedAs(log[k], false, pts, dts, user) || SubmittedAs(log[k], true, -1, -1, 0)
  }

  class Decoder {
    var ops: seq<Op>
    var queue: seq<Item>
    const maxOut: nat
    var inputLen: nat
    var ready: bool
    var flushing: bool
    var drained: bool
    var lastPts: int
    var lastDts: int
    var lastUser: int
    const asyncDepth: int
    const requestedMax: int
    /** History: surfaces delivered by the device so far. */
    var delivered: nat
    ghost var handed: seq<nat>
    ghost var released: seq<nat>
    ghost var log: seq<Event>
    /** What the device and the allocator were asked, with their answers. */
    ghost var asked: seq<Ask>
    ghost var inits: seq<InitAnswer>

    ghost function View(): State
      reads this
    {
      State(ops, queue, maxOut, inputLen, ready, flushing, drained, delivered, handed, released)
    }

    ghost predicate Valid()
      reads this
    {
      && View() == Run(Init(asyncDepth, requestedMax), log)
      && asked == HistoryOf(asyncDepth, requestedMax, log).asked
    }

    constructor (asyncDepth: int, requestedMax: int)
      ensures Valid() && log == [] && this.asyncDepth == asyncDepth && this.requestedMax == requestedMax
    {
      this.asyncDepth, this.requestedMax := asyncDepth, requestedMax;
      maxOut := NormalMax(asyncDepth, requestedMax);
      ops := seq(NormalDepth(asyncDepth), _ => IdleOp());
      queue, inputLen := [], 0;
      ready, flushing, drained := false, false, false;
      lastPts, lastDts, lastUser := -1, -1, 0;
      delivered, handed, released := 0, [], [];
      log, asked, inits := [], [], [];
    }

    lemma Reachable()
      requires Valid()
      ensures Sound(View())
    {
      SoundRun(asyncDepth, requestedMax, log);
    }

    lemma HoldSurfaces()
      requires Valid()
      ensures forall i :: 0 <= i < |ops| && ops[i].inUse ==> ops[i].surface.Some?
    {
      Reachable();
    }

    lemma DrainedIsFlushing()
      requires Valid()
      ensures drained ==> flushing
    {
      Reachable();
    }

    lemma HasRoom()
      requires Valid()
      ensures maxOut > 0
    {
      Reachable();
    }

    ghost method Record(e: Event, before: State)
      requires before == Run(Init(asyncDepth, requestedMax), log) && View() == Step(before, e)
      requires asked == HistoryOf(asyncDepth, requestedMax, log).asked + AskedBy(before, e)
      modifies this`log
      ensures log == old(log) + [e] && Valid()
    {
      hide Step, Run, HistoryOf, AskedBy;
      HistoryAppend(asyncDepth, requestedMax, log, e);
      RunAppend(Init(asyncDepth, requestedMax), log, e);
      log := log + [e];
    }

    // ----- the device: any answer at any time, but not busy and not warning for ever

    /** `allowance` bounds how often syncing may still answer with a warning. */
    method AskSync(blocking: bool, allowance: nat) returns (answer: SyncAnswer)
      modifies this`asked
      ensures answer == SyncWarning ==> allowance > 0
      ensures asked == old(asked) + [SyncAsked(answer)]
    {
      answer := *;
      if answer == SyncWarning && allowance == 0 { answer := SyncDone; }
      asked := asked + [SyncAsked(answer)];
    }

    method AnyAllowance() returns (allowance: nat) {
      allowance := *;
    }

    method AskInit() returns (answer: InitAnswer)
      modifies this`inits
      ensures inits == old(inits) + [answer]
    {
      answer := *;
      inits := inits + [answer];
    }

    method AskWrap() returns (wrapped: bool)
      modifies this`asked
      ensures asked == old(asked) + [WrapAsked(wrapped)]
    {
      wrapped := *;
      asked := asked + [WrapAsked(wrapped)];
    }

    /** One decode call; `patience` bounds how often it may still answer that it is busy. */
    method TryDecode(draining: bool, patience: nat) returns (busy: bool, answer: DecodeAnswer, consumed: nat)
      modifies this`asked
      ensures busy ==> patience > 0
      ensures asked == old(asked) + if busy then [] else [DecodeAsked(draining, answer, consumed)]
    {
      answer := *;
      consumed := *;
      var choice: bool := *;
      busy := choice && patience > 0;
      if !busy { asked := asked + [DecodeAsked(draining, answer, consumed)]; }
    }

    /** Retries while the device is busy. */
    method AskDecode(draining: bool) returns (answer: DecodeAnswer, consumed: nat)
      modifies this`asked
      ensures asked == old(asked) + [DecodeAsked(draining, answer, consumed)]
    {
      var patience: nat := *;
      var busy;
      busy, answer, consumed := TryDecode(draining, patience);
      while busy
        invariant busy ==> patience > 0
        invariant asked == old(asked) + if busy then [] else [DecodeAsked(draining, answer, consumed)]
        decreases patience
      {
        patience := patience - 1;
        busy, answer, consumed := TryDecode(draining, patience);
      }
    }

    method FindFree() returns (i: nat)
      ensures i == FirstIdle(ops, 0)
    {
      i := 0;
      while i < |ops| && ops[i].inUse
        invariant i <= |ops|
        invariant forall j :: 0 <= j < i ==> ops[j].inUse
      {
        i := i + 1;
      }
    }

    method HasActiveOps() returns (active: bool)
      ensures active <==> HasActive(View())
    {
      for i := 0 to |ops|
        invariant forall j :: 0 <= j < i ==> !ops[j].inUse
      {
        if ops[i].inUse { return true; }
      }
      return false;
    }

    method QueueSurface(i: nat)
      requires i < |ops|
      modifies this`ops, this`queue
      ensures View() == Enqueue(old(View()), i)
    {
      var op := ops[i];
      if op.surface.Some? {
        queue := queue + [Item(op.surface.value, op.pts, op.dts, op.user, op.serial)];
      }
      ops := ops[i := op.(inUse := false, surface := None, sync := false, pts := 0, dts := 0, user := 0)];
    }

    /** One operation of a sync pass; any answer but "done" and "in execution" releases its
        surface. */
    method SyncOne(i: nat, blocking: bool, allowance: nat) returns (answer: SyncAnswer)
      requires Valid() && i < |ops|
      modifies this`ops, this`queue, this`released, this`log, this`asked
      ensures Valid() && old(log) <= log && old(asked) <= asked && View() == SyncStep(old(View()), i, answer)
      ensures !old(ops[i].inUse) ==> answer == InExecution
      ensures old(ops[i].inUse) && !old(ops[i].sync) ==> answer == SyncDone
      ensures answer == SyncWarning ==> allowance > 0
      ensures log == old(log) + [SyncOp(i, answer)]
      ensures asked == old(asked) + if old(ops[i].inUse && ops[i].sync) then [SyncAsked(answer)] else []
      ensures DeviceFailed(asked, |old(asked)|) <==> answer == SyncFails
    {
      hide Run, HistoryOf, DeviceFailed, SyncStep;
      ghost var before := View();
      answer := InExecution;
      if ops[i].inUse {
        answer := SyncDone;
        if ops[i].sync {
          answer := AskSync(blocking, allowance);
        }
      }
      TakeAnswer(i, answer);
      Record(SyncOp(i, answer), before);
      FailedAppend(asked, asked, |asked|);
      FailedOne(old(asked), SyncAsked(answer));
    }

    /** A finished operation is queued; a warning or an error releases its surface. */
    method TakeAnswer(i: nat, answer: SyncAnswer)
      requires i < |ops| && (!ops[i].inUse ==> answer == InExecution)
      requires ops[i].inUse && !ops[i].sync ==> answer == SyncDone
      modifies this`ops, this`queue, this`released
      ensures View() == SyncStep(old(View()), i, answer)
    {
      if answer == SyncDone {
        QueueSurface(i);
      } else if answer != InExecution {
        released := released + ReleasedBy(ops[i]);
        ops := ops[i := ops[i].(inUse := false, surface := None, sync := false)];
      }
    }

    /** One pass over all operations.  It stops at the first warning or failure; a warning still
        counts as success. */
    method SyncDecoderOps(blocking: bool, allowance: nat)
      returns (status: Status, progressed: bool, warned: bool, ghost answers: seq<SyncAnswer>)
      requires Valid()
      modifies this`ops, this`queue, this`released, this`log, this`asked
      ensures Valid() && old(log) <= log && old(asked) <= asked && status in {Ok, DeviceError}
      ensures Pass(old(View()), answers) ==
              PassResult(View(), progressed, if status == DeviceError then Failed else if warned then Warned else Whole)
      ensures warned ==> status == Ok && allowance > 0
      ensures SubmitsNothing(log, |old(log)|)
      ensures DeviceFailed(asked, |old(asked)|) <==> status == DeviceError
      ensures old(queue) <= queue
      ensures HasIdle(old(View())) ==> HasIdle(View())
      ensures LooksFirst(asked, |old(asked)|)
      ensures old(HasActive(View())) ==> |asked| > |old(asked)| || |queue| > |old(queue)|
    {
      hide Valid, Run, SyncStep, HistoryOf, DeviceFailed, IsFailure, HasIdle, Sound;
      FailedAppend(asked, asked, |asked|);
      HoldSurfaces();
      ghost var start := View();
      status, progressed, warned, answers := Ok, false, false, [];
      for i := 0 to |ops|
        invariant Valid() && old(log) <= log && old(asked) <= asked && |ops| == |start.ops|
        invariant |answers| == i && PassTo(start, answers, i) == PassResult(View(), progressed, Whole)
        invariant status == Ok && !warned && SubmitsNothing(log, |old(log)|)
        invariant !DeviceFailed(asked, |old(asked)|)
        invariant HasIdle(start) ==> HasIdle(View())
        invariant LooksFirst(asked, |old(asked)|) && start.queue <= queue
        invariant forall x :: i <= x < |ops| ==> ops[x] == start.ops[x]
        invariant (forall x :: 0 <= x < i ==> !start.ops[x].inUse) || |asked| > |old(asked)| || |queue| > |start.queue|
      {
        ghost var before := View();
        ghost var was := asked;
        var answer := SyncOne(i, blocking, allowance);
        OneLeaves(before, i, answer);
        FailedAppend(was, asked, |old(asked)|);
        PassPrefix(start, answers, [answer], i);
        answers := answers + [answer];
        assert PassTo(start, answers, i + 1) == Visit(PassTo(start, answers, i), i, answers);
        progressed := progressed || answer == SyncDone;
        if answer == SyncWarning || answer == SyncFails {
          if answer == SyncFails { status := DeviceError; } else { warned := true; }
          PassEnded(start, answers, i + 1, |start.ops|);
          return;
        }
      }
    }

    /** One submission, retried while the device is busy. */
    method SubmitOne(draining: bool, pts: int, dts: int, user: int)
      returns (status: Status, needMore: bool, submitted: bool, ghost decode: DecodeAnswer, ghost consumed: nat)
      requires Valid() && MaySubmit(View(), draining)
      modifies this`ops, this`inputLen, this`drained, this`delivered, this`log, this`asked
      ensures Valid() && old(log) <= log && old(asked) <= asked
      ensures FirstIdle(old(ops), 0) == |old(ops)| ==> View() == old(View()) && status == Ok && !needMore && !submitted
      ensures FirstIdle(old(ops), 0) < |old(ops)| ==>
                && View() == SubmitStep(old(View()), Submit(draining, pts, dts, user, decode, consumed))
                && status == (if decode.DecodeFails? then DeviceError else Ok)
                && needMore == (decode.DecodeMoreData? || decode.DecodeNoSurface?)
                && submitted == decode.DecodeFrame?
      ensures Submits(log, |old(log)|, draining, pts, dts, user)
      ensures DeviceFailed(asked, |old(asked)|) <==> status == DeviceError
      ensures FirstIdle(old(ops), 0) < |old(ops)| ==> AskedForFrame(asked, |old(asked)|, draining)
    {
      hide Run, HistoryOf;
      var i := FindFree();
      decode, consumed := DecodeStall, 0;
      if i == |ops| { return Ok, false, false, decode, consumed; }
      var answer, taken := AskDecode(draining);
      decode, consumed := answer, taken;
      ghost var before := View();
      Settle(i, answer, taken, draining, pts, dts, user);
      ReachesIff(before, Submit(draining, pts, dts, user, answer, taken));
      Record(Submit(draining, pts, dts, user, answer, taken), before);
      assert asked[|old(asked)|] == DecodeAsked(draining, answer, taken);
      status := if answer.DecodeFails? then DeviceError else Ok;
      needMore := answer.DecodeMoreData? || answer.DecodeNoSurface?;
      submitted := answer.DecodeFrame?;
    }

    /** Enters the device's answer into operation `i`. */
    method Settle(i: nat, answer: DecodeAnswer, consumed: nat, draining: bool, pts: int, dts: int, user: int)
      requires MaySubmit(View(), draining) && i == FirstIdle(ops, 0) && i < |ops|
      modifies this`ops, this`inputLen, this`drained, this`delivered
      ensures View() == SubmitStep(old(View()), Submit(draining, pts, dts, user, answer, consumed))
    {
      if !draining {
        inputLen := if consumed > inputLen then 0 else inputLen - consumed;
      }
      if answer.DecodeFrame? {
        ops := ops[i := Op(true, Some(answer.surface), answer.hasSync, pts, dts, user, delivered)];
        delivered := delivered + 1;
      } else {
        ops := ops[i := ops[i].(inUse := false, surface := None, sync := false, pts := pts, dts := dts, user := user)];
      }
      if draining && (answer.DecodeMoreData? || answer.DecodeNoSurface?) { drained := true; }
    }

    /** What one turn of the drive loop found. */
    method DriveRound(draining: bool, pts: int, dts: int, user: int, blocking: bool, allowance: nat)
      returns (status: Status, goes: bool, warned: bool, ghost round: Round)
      requires Valid() && MayDrive(View(), Args(draining, pts, dts, user, blocking))
      modifies this`ops, this`queue, this`released, this`inputLen, this`drained, this`delivered, this`log, this`asked
      ensures Valid() && old(log) <= log && old(asked) <= asked && status in {Ok, DeviceError}
      ensures RoundStep(old(View()), Args(draining, pts, dts, user, blocking), round) ==
              if goes then Goes(View()) else Ends(View(), status == DeviceError)
      ensures warned == RoundWarned(old(View()), round) && (warned ==> allowance > 0) && (goes ==> status == Ok)
      ensures Submits(log, |old(log)|, draining, pts, dts, user)
      ensures DeviceFailed(asked, |old(asked)|) <==> status == DeviceError
      ensures status == Ok ==>
                || AskedForFrame(asked, |old(asked)|, draining)
                || (!goes && |queue| >= maxOut)
                || !(HasIdle(old(View())) || HasIdle(View()))
    {
      hide Valid, Run, PassTo, SubmitStep, Sound, HistoryOf, IsFailure, HasIdle;
      goes := false;
      ghost var start := View();
      ghost var answers;
      var progressed;
      status, progressed, warned, answers := SyncDecoderOps(blocking, allowance);
      round := Round(answers, DecodeStall, 0);
      PassProgress(start, answers, |start.ops|);
      if status != Ok { return; }
      if |queue| >= maxOut { return; }
      IdleIff(View());
      ghost var was := asked;
      ghost var args, middle := Args(draining, pts, dts, user, blocking), View();
      var needMore, submitted;
      ghost var decode, consumed;
      status, needMore, submitted, decode, consumed := SubmitOne(draining, pts, dts, user);
      round := Round(answers, decode, consumed);
      FailedAppend(was, asked, |old(asked)|);
      assert Submission(args, decode, consumed) == Submit(draining, pts, dts, user, decode, consumed);
      if status != Ok { return; }
      if needMore { return; }
      if !submitted {
        goes := progressed;
        return;
      }
      if !draining && inputLen == 0 { return; }
      var free := FindFree();
      goes := blocking || free < |ops|;
    }

    /** Syncs and submits until the queue is full, data runs out or nothing moves.  For any
        number of warnings the loop ends, after at most twice the capacity in rounds and one
        more for every warning it met. */
    method DriveDecoder(draining: bool, pts: int, dts: int, user: int, blocking: bool)
      returns (status: Status, ghost rounds: seq<Round>)
      requires Valid() && !drained && (draining ==> flushing && inputLen == 0)
      modifies this`ops, this`queue, this`released, this`inputLen, this`drained, this`delivered, this`log, this`asked
      ensures Valid() && old(log) <= log && old(asked) <= asked && status in {Ok, DeviceError}
      ensures Rounds(old(View()), Args(draining, pts, dts, user, blocking), rounds) ==
              Ends(View(), status == DeviceError)
      ensures rounds != [] && |rounds| <= 2 * (maxOut + |old(ops)|) + 1
                                          + Warnings(old(View()), Args(draining, pts, dts, user, blocking),
                                                     rounds[..|rounds| - 1])
      ensures Submits(log, |old(log)|, draining, pts, dts, user)
      ensures DeviceFailed(asked, |old(asked)|) <==> status == DeviceError
      ensures status == Ok ==>
                || AskedForFrame(asked, |old(asked)|, draining)
                || |queue| >= maxOut
                || !(HasIdle(old(View())) || HasIdle(View()))
    {
      hide Run, RoundStep, RoundWarned, Sound, Progress, HistoryOf, IsFailure, HasIdle;
      Reachable();
      ghost var start, args := View(), Args(draining, pts, dts, user, blocking);
      rounds := [];
      var allowance := AnyAllowance();
      while true
        invariant Valid() && old(log) <= log && old(asked) <= asked && MayDrive(View(), args) && |ops| == |start.ops|
        invariant Rounds(start, args, rounds) == Goes(View())
        invariant Submits(log, |old(log)|, draining, pts, dts, user) && !DeviceFailed(asked, |old(asked)|)
        invariant View() == start || AskedForFrame(asked, |old(asked)|, draining)
                  || !(HasIdle(start) || HasIdle(View()))
        decreases 2 * (maxOut + |ops|) - Progress(View()) + 2 * allowance
      {
        ghost var before, was := View(), asked;
        var goes, warned;
        ghost var round;
        status, goes, warned, round := DriveRound(draining, pts, dts, user, blocking, allowance);
        FailedAppend(was, asked, |old(asked)|);
        RoundsAppend(start, args, rounds, round);
        DriveBound(start, args, rounds);
        assert (rounds + [round])[..|rounds|] == rounds;
        rounds := rounds + [round];
        if !goes { return; }
        RoundProgress(before, args, round);
        ProgressBound(View());
        ProgressBound(before);
        if warned { allowance := allowance - 1; }
      }
    }

    /** Continues a flush: pending input first, then draining without input. */
    method AdvanceFlush(blocking: bool) returns (status: Status, ghost rounds: seq<Round>)
      requires Valid() && flushing
      modifies this`ops, this`queue, this`released, this`inputLen, this`drained, this`delivered, this`log, this`asked
      ensures Valid() && old(log) <= log && old(asked) <= asked && status in {Ok, DeviceError}
      ensures Advance(old(View()), Args(false, lastPts, lastDts, lastUser, blocking), rounds) ==
              Done(View(), status == DeviceError)
      ensures if old(inputLen) > 0 then Submits(log, |old(log)|, false, lastPts, lastDts, lastUser)
              else Submits(log, |old(log)|, true, -1, -1, 0)
      ensures DeviceFailed(asked, |old(asked)|) <==> status == DeviceError
      ensures status == Ok && ready && !old(drained) ==>
                || AskedForFrame(asked, |old(asked)|, old(inputLen) == 0)
                || |queue| >= maxOut
                || !(HasIdle(old(View())) || HasIdle(View()))
    {
      hide Run, Rounds, HistoryOf, IsFailure, HasIdle;
      status, rounds := Ok, [];
      if drained { return; }
      if !ready {
        ghost var before := View();
        drained := true;
        Record(StartFlush, before);
        return;
      }
      if inputLen > 0 {
        status, rounds := DriveDecoder(false, lastPts, lastDts, lastUser, blocking);
      } else {
        status, rounds := DriveDecoder(true, -1, -1, 0, blocking);
      }
    }

    // ----- the calls of the decoder interface

    method Flush() returns (status: Status, ghost rounds: seq<Round>)
      requires Valid()
      modifies this
      ensures Valid() && old(log) <= log && old(asked) <= asked && status in {Ok, DeviceError}
      ensures FlushCall(old(View()), Args(false, lastPts, lastDts, lastUser, true), rounds) ==
              Done(View(), status == DeviceError)
      ensures flushing && (lastPts, lastDts, lastUser) == old((lastPts, lastDts, lastUser))
      ensures if old(inputLen) > 0 then Submits(log, |old(log)|, false, lastPts, lastDts, lastUser)
              else Submits(log, |old(log)|, true, -1, -1, 0)
      ensures DeviceFailed(asked, |old(asked)|) <==> status == DeviceError
      ensures status == Ok && ready && !old(drained) ==>
                || AskedForFrame(asked, |old(asked)|, old(inputLen) == 0)
                || |queue| >= maxOut
                || !(HasIdle(old(View())) || HasIdle(View()))
    {
      hide Run, Rounds, Sound, HistoryOf, DeviceFailed, AskedForFrame;
      DrainedIsFlushing();
      FailedAppend(asked, asked, |asked|);
      status, rounds := Ok, [];
      if drained { return; }
      ghost var before := View();
      flushing := true;
      if !ready {
        drained := true;
        Record(StartFlush, before);
        return;
      }
      Record(StartFlush, before);
      status, rounds := AdvanceFlush(true);
    }

    /** Pushing after flush or drain is rejected without any effect; an accepted packet is
        appended, and once the decoder is ready its time stamps go with the frames submitted
        next. */
    method PushPacket(endOfStream: bool, size: nat, codecAccepted: bool, pts: int, dts: int, user: int)
      returns (status: Status, ghost rounds: seq<Round>)
      requires Valid()
      modifies this
      ensures Valid() && old(log) <= log && old(asked) <= asked
      ensures old(flushing || drained) ==> status == BadState && View() == old(View()) && log == old(log)
      ensures !old(flushing || drained) && !endOfStream && (size == 0 || !codecAccepted) ==>
                status == InvalidParam && View() == old(View()) && log == old(log)
      ensures !old(flushing || drained) && endOfStream ==>
                && FlushCall(old(View()), Args(false, lastPts, lastDts, lastUser, true), rounds) ==
                     Done(View(), status == DeviceError)
                && flushing
      ensures !old(flushing || drained) && !endOfStream && size > 0 && codecAccepted ==>
                && (lastPts, lastDts, lastUser) == (pts, dts, user)
                && (ready ==> Push(old(View()), size, pts, dts, user, rounds) == Done(View(), status == DeviceError))
                && (!ready ==> View() == Step(old(View()), Append(size)))
                && Submits(log, |old(log)|, false, pts, dts, user)
                && (ready ==> (DeviceFailed(asked, |old(asked)|) <==> status == DeviceError))
                && (ready && status == Ok ==> AskedForFrame(asked, |old(asked)|, false) || |queue| >= maxOut
                                              || !(HasIdle(old(View())) || HasIdle(View())))
                && (if old(ready) then inits == old(inits) else InitOutcome(old(inits), status))
    {
      hide *;
      rounds := [];
      if flushing { return BadState, rounds; }
      if drained { return BadState, rounds; }
      if endOfStream {
        status, rounds := Flush();
        return;
      }
      if size == 0 { return InvalidParam, rounds; }
      if !codecAccepted { return InvalidParam, rounds; }
      status, rounds := TakePacket(size, pts, dts, user);
    }

    /** The device was asked once whether it can start; a header still missing is no error. */
    ghost predicate InitOutcome(before: seq<InitAnswer>, status: Status)
      reads this
    {
      && |inits| == |before| + 1 && before <= inits && (ready <==> inits[|before|] == Ready)
      && (!ready ==> status == if inits[|before|] == NeedsHeader then Ok else DeviceError)
    }

    /** An accepted packet. */
    method TakePacket(size: nat, pts: int, dts: int, user: int) returns (status: Status, ghost rounds: seq<Round>)
      requires Valid() && !flushing && !drained
      modifies this
      ensures Valid() && old(log) <= log && old(asked) <= asked && (lastPts, lastDts, lastUser) == (pts, dts, user)
      ensures ready ==> Push(old(View()), size, pts, dts, user, rounds) == Done(View(), status == DeviceError)
      ensures !ready ==> View() == Step(old(View()), Append(size))
      ensures Submits(log, |old(log)|, false, pts, dts, user)
      ensures ready ==> (DeviceFailed(asked, |old(asked)|) <==> status == DeviceError)
      ensures ready && status == Ok ==> AskedForFrame(asked, |old(asked)|, false) || |queue| >= maxOut
                                        || !(HasIdle(old(View())) || HasIdle(View()))
      ensures if old(ready) then inits == old(inits) else InitOutcome(old(inits), status)
    {
      hide Run, Rounds, HistoryOf, DeviceFailed, AskedForFrame, SubmittedAs;
      rounds := [];
      AppendInput(size);
      lastPts, lastDts, lastUser := pts, dts, user;
      status := PrepareDecoder();
      NothingSubmitted(log, |old(log)|, Args(false, pts, dts, user, false));
      if status == Again { return Ok, rounds; }
      if status != Ok { return; }
      status, rounds := DriveDecoder(false, pts, dts, user, false);
    }

    method AppendInput(size: nat)
      requires Valid() && !flushing && !drained
      modifies this`inputLen, this`log
      ensures SubmitsNothing(log, |old(log)|)
      ensures Valid() && old(log) <= log && old(asked) <= asked && View() == Step(old(View()), Append(size))
    {
      hide Run;
      ghost var before := View();
      inputLen := inputLen + size;
      Record(Append(size), before);
    }

    /** The decoder is initialised from the input it has, when that suffices. */
    method PrepareDecoder() returns (status: Status)
      requires Valid() && !flushing && !drained
      modifies this`ready, this`log, this`inits
      ensures SubmitsNothing(log, |old(log)|)
      ensures old(ready) ==> inits == old(inits)
      ensures !old(ready) ==>
                && |inits| == |old(inits)| + 1 && old(inits) <= inits && (ready <==> inits[|old(inits)|] == Ready)
                && (status == DeviceError <==> inits[|old(inits)|] == InitFails)
      ensures Valid() && old(log) <= log && old(asked) <= asked
      ensures status in {Ok, Again, DeviceError} && (status == Ok <==> ready)
      ensures View() == if ready then Step(old(View()), BecomeReady) else old(View())
    {
      hide Run;
      if ready { return Ok; }
      var answer := AskInit();
      if answer == NeedsHeader { return Again; }
      if answer == InitFails { return DeviceError; }
      ghost var before := View();
      ready := true;
      Record(BecomeReady, before);
      return Ok;
    }

    /** A drive followed by a pass that queues what has finished meanwhile. */
    method DrivePending(flush: bool) returns (status: Status, ghost rounds: seq<Round>, ghost answers: seq<SyncAnswer>)
      requires Valid() && ready && !drained && (flush ==> flushing)
      modifies this`ops, this`queue, this`released, this`inputLen, this`drained, this`delivered, this`log, this`asked
      ensures Valid() && old(log) <= log && old(asked) <= asked && status in {Ok, DeviceError}
      ensures var last := Args(false, lastPts, lastDts, lastUser, false);
              DriveAndPass(old(View()), if flush then FlushArgs(old(View()), last) else last, rounds, answers)
              == Done(View(), status == DeviceError)
      ensures SubmitsOrDrains(log, |old(log)|, lastPts, lastDts, lastUser)
      ensures DeviceFailed(asked, |old(asked)|) <==> status == DeviceError
      ensures status == Ok && queue == [] && HasIdle(old(View())) ==>
                AskedForFrame(asked, |old(asked)|, flush && old(inputLen) == 0)
    {
      hide Run, Rounds, PassTo, HistoryOf, DeviceFailed, AskedForFrame, HasIdle;
      HasRoom();
      answers := [];
      if flush {
        status, rounds := AdvanceFlush(false);
      } else {
        status, rounds := DriveDecoder(false, lastPts, lastDts, lastUser, false);
      }
      if status != Ok { return; }
      ghost var was, middle := asked, View();
      var allowance := AnyAllowance();
      var progressed, warned;
      status, progressed, warned, answers := SyncDecoderOps(false, allowance);
      PassKeeps(middle, answers, |middle.ops|);
      FailedAppend(was, asked, |old(asked)|);
    }

    /** An empty queue is refilled from pending input, or by advancing the flush. */
    method DriveWhenEmpty(flush: bool)
      returns (status: Status, ghost rounds: seq<Round>, ghost answers: seq<SyncAnswer>)
      requires Valid() && ready
      modifies this`ops, this`queue, this`released, this`inputLen, this`drained, this`delivered, this`log, this`asked
      ensures Valid() && old(log) <= log && old(asked) <= asked && status in {Ok, DeviceError}
      ensures var last, x := Args(false, lastPts, lastDts, lastUser, false), NO_ANSWERS;
              (if flush then FromFlush(old(View()), last, x.(flush := rounds, third := answers))
               else FromInput(old(View()), last, x.(input := rounds, second := answers)))
              == Done(View(), status == DeviceError)
      ensures SubmitsOrDrains(log, |old(log)|, lastPts, lastDts, lastUser)
      ensures DeviceFailed(asked, |old(asked)|) <==> status == DeviceError
      ensures status == Ok && queue == [] && old(HasIdle(View()) && !drained)
              && (if flush then flushing else old(inputLen) > 0) ==>
                AskedForSome(asked, |old(asked)|)
      ensures old(drained || queue != []) || !(if flush then flushing else old(inputLen) > 0) ==>
                View() == old(View()) && asked == old(asked)
    {
      hide Run, DriveAndPass, PassTo, HistoryOf, HasIdle, AskedForFrame, DeviceFailed, SubmittedAs;
      FailedAppend(asked, asked, |asked|);
      status, rounds, answers := Ok, [], [];
      if !drained && queue == [] && (if flush then flushing else inputLen > 0) {
        status, rounds, answers := DrivePending(flush);
      }
    }

    /** An empty queue is refilled from pending input, and then by advancing the flush. */
    method DriveBoth() returns (status: Status, ghost x: PollAnswers)
      requires Valid() && ready
      modifies this`ops, this`queue, this`released, this`inputLen, this`drained, this`delivered, this`log, this`asked
      ensures Valid() && old(log) <= log && old(asked) <= asked && status in {Ok, DeviceError}
      ensures FromBoth(old(View()), Args(false, lastPts, lastDts, lastUser, false), x) ==
              Done(View(), status == DeviceError)
      ensures SubmitsOrDrains(log, |old(log)|, lastPts, lastDts, lastUser)
      ensures DeviceFailed(asked, |old(asked)|) <==> status == DeviceError
      ensures status == Ok && queue == [] && old(HasIdle(View()) && !drained && (inputLen > 0 || flushing)) ==>
                AskedForSome(asked, |old(asked)|)
      ensures old(queue) != [] ==> View() == old(View()) && asked == old(asked)
    {
      hide Valid, Run, HistoryOf, DriveAndPass, FromInput, FromFlush, HasIdle;
      hide AskedForSome, DeviceFailed, SubmitsOrDrains;
      ghost var last, start := Args(false, lastPts, lastDts, lastUser, false), View();
      x := NO_ANSWERS;
      ghost var answers, rounds;
      status, rounds, answers := DriveWhenEmpty(false);
      x := x.(input := rounds, second := answers);
      if status != Ok { return; }
      ghost var was, logged, input, middle := asked, log, x, View();
      status, rounds, answers := DriveWhenEmpty(true);
      x := x.(flush := rounds, third := answers);
      LaterKept(was, asked, |old(asked)|, logged, log, |old(log)|, last);
      OnlyItsAnswers(start, last, x, input);
      OnlyItsAnswers(middle, last, x, NO_ANSWERS.(flush := rounds, third := answers));
    }

    /** Before polling: finished operations are queued, and an empty queue is refilled from
        pending input or by advancing the flush. */
    method RefillQueue() returns (status: Status, ghost x: PollAnswers)
      requires Valid()
      modifies this`ops, this`queue, this`released, this`inputLen, this`drained, this`delivered, this`log, this`asked
      ensures Valid() && old(log) <= log && old(asked) <= asked && status in {Ok, DeviceError}
      ensures Refill(old(View()), Args(false, lastPts, lastDts, lastUser, false), x) ==
              Done(View(), status == DeviceError)
      ensures SubmitsOrDrains(log, |old(log)|, lastPts, lastDts, lastUser)
      ensures DeviceFailed(asked, |old(asked)|) <==> status == DeviceError
      ensures status == Ok && queue == [] && old(HasIdle(View()) && ready && !drained && (inputLen > 0 || flushing)) ==>
                AskedForSome(asked, |old(asked)|)
      ensures old(ready && HasActive(View())) ==>
                LooksFirst(asked, |old(asked)|) && (|asked| > |old(asked)| || queue != [])
    {
      hide Valid, Run, HistoryOf, Pass, FromInput, FromFlush, HasIdle, HasActive;
      hide AskedForSome, DeviceFailed, LooksFirst, Submits, SubmitsNothing, SubmitsOrDrains;
      FailedAppend(asked, asked, |asked|);
      ghost var last := Args(false, lastPts, lastDts, lastUser, false);
      NothingSubmitted(log, |log|, last);
      status, x := Ok, NO_ANSWERS;
      if !ready { return; }
      var allowance := AnyAllowance();
      var progressed, warned;
      ghost var answers;
      status, progressed, warned, answers := SyncDecoderOps(false, allowance);
      x := x.(first := answers);
      NothingSubmitted(log, |old(log)|, last);
      if status != Ok { return; }
      ghost var was, logged, middle := asked, log, View();
      status, x := DriveBoth();
      ghost var both := x;
      x := x.(first := answers);
      OnlyItsAnswers(middle, last, x, both);
      LaterKept(was, asked, |old(asked)|, logged, log, |old(log)|, last);
    }

    /** The front of the queue goes to the caller, or is released when no wrapper can be made. */
    method TakeFront() returns (status: Status, item: Option<Item>)
      requires Valid() && queue != []
      modifies this`queue, this`handed, this`released, this`log, this`asked
      ensures Valid() && old(log) <= log && old(asked) <= asked && status in {Ok, NoMemory}
      ensures View() == Step(old(View()), Pop(status == Ok))
      ensures item == if status == Ok then Some(old(queue[0])) else None
      ensures asked == old(asked) + [WrapAsked(status == Ok)] && log == old(log) + [Pop(status == Ok)]
      ensures status == Ok ==> ItemKept(HistoryOf(asyncDepth, requestedMax, log).deliveries, item.value)
    {
      DeliveryTheorem(asyncDepth, requestedMax, log);
      hide Run, HistoryOf;
      ghost var before := View();
      var front := queue[0];
      queue := queue[1..];
      var wrapped := AskWrap();
      if wrapped {
        handed := handed + [front.serial];
        status, item := Ok, Some(front);
      } else {
        released := released + [front.serial];
        status, item := NoMemory, None;
      }
      Record(Pop(wrapped), before);
      HistoryAppend(asyncDepth, requestedMax, old(log), Pop(wrapped));
      NothingReached(before, HistoryOf(asyncDepth, requestedMax, old(log)), Pop(wrapped));
    }

    /** Polling hands out the front of the queue, or reports the end of the stream exactly
        when nothing is queued or active after the drain; then a decoder that got ready has
        consumed all input. */
    method PollSurface() returns (status: Status, item: Option<Item>, ghost x: PollAnswers)
      requires Valid()
      modifies this
      ensures Valid() && old(log) <= log && old(asked) <= asked
      ensures var d := Refill(old(View()), Args(false, lastPts, lastDts, lastUser, false), x);
              if d.failed then status == DeviceError && View() == d.state
              else if d.state.queue == [] then View() == d.state && status == if Finished(d.state) then Eos else Again
              else status in {Ok, NoMemory} && View() == Step(d.state, Pop(status == Ok))
      ensures status == Eos ==> !ready || inputLen == 0
      ensures status == Ok <==> item.Some?
      ensures status == Ok ==> handed == old(handed) + [item.value.serial]
      ensures status == Ok && old(queue) != [] ==> item.value == old(queue)[0]
      ensures Finished(old(View())) ==> status == Eos && View() == old(View())
      ensures status == Ok ==> ItemKept(HistoryOf(asyncDepth, requestedMax, log).deliveries, item.value)
      ensures SubmitsOrDrains(log, |old(log)|, lastPts, lastDts, lastUser)
      ensures DeviceFailed(asked, |old(asked)|) <==> status == DeviceError
      ensures status == Again && old(HasIdle(View()) && ready && !drained && (inputLen > 0 || flushing)) ==>
                AskedForSome(asked, |old(asked)|)
      ensures old(ready && HasActive(View())) ==> |asked| > |old(asked)| && !asked[|old(asked)|].DecodeAsked?
    {
      hide Run, Refill, HistoryOf, AskedForFrame;
      ghost var start, last := View(), Args(false, lastPts, lastDts, lastUser, false);
      item := None;
      status, x := RefillQueue();
      RefillKeeps(start, last, x);
      if Finished(start) { FinishedRefill(start, last, x); }
      if status != Ok { return; }
      if queue == [] {
        Reachable();
        var active := HasActiveOps();
        status := if drained && !active then Eos else Again;
        return;
      }
      ghost var was := asked;
      status, item := TakeFront();
      FailedAppend(was, asked, |old(asked)|);
    }
  }

  lemma OneLeaves(s: State, i: nat, answer: SyncAnswer)
    ensures var t := SyncStep(s, i, answer);
            && |t.ops| == |s.ops| && (forall x :: i < x < |s.ops| ==> t.ops[x] == s.ops[x])
            && (HasIdle(s) ==> HasIdle(t))
            && s.queue <= t.queue
            && (i < |s.ops| && s.ops[i].inUse && !s.ops[i].sync && s.ops[i].surface.Some? ==> |t.queue| > |s.queue|)
  {
    var t := SyncStep(s, i, answer);
    if HasIdle(s) {
      var x :| 0 <= x < |s.ops| && !s.ops[x].inUse;
      assert !t.ops[x].inUse;
    }
  }

  /** Failures are those among the first questions and those among the later ones. */
  lemma FailedAppend(before: seq<Ask>, asked: seq<Ask>, n: nat)
    requires n <= |before| && before <= asked
    ensures DeviceFailed(asked, n) <==> DeviceFailed(before, n) || DeviceFailed(asked, |before|)
    ensures forall draining :: AskedForFrame(before, n, draining) || AskedForFrame(asked, |before|, draining) ==>
                                 AskedForFrame(asked, n, draining)
    ensures AskedForSome(before, n) || AskedForSome(asked, |before|) ==> AskedForSome(asked, n)
    ensures |before| > n ==> (LooksFirst(asked, n) <==> LooksFirst(before, n))
    ensures !DeviceFailed(asked, |asked|)
  {
    assert forall k: nat :: k < |before| ==> before[k] == asked[k];
    if DeviceFailed(before, n) {
      var k: nat :| n <= k < |before| && IsFailure(before[k]);
      assert IsFailure(asked[k]);
    }
    forall draining | AskedForFrame(before, n, draining)
      ensures AskedForFrame(asked, n, draining)
    {
      var k: nat :| n <= k < |before| && before[k].DecodeAsked? && before[k].draining == draining;
      assert asked[k].DecodeAsked?;
    }
  }

  lemma FailedOne(before: seq<Ask>, a: Ask)
    ensures DeviceFailed(before + [a], |before|) <==> IsFailure(a)
  {
    assert (before + [a])[|before|] == a;
  }

  lemma NothingSubmitted(log: seq<Event>, n: nat, args: Args)
    requires SubmitsNothing(log, n)
    ensures Submits(log, n, args.draining, args.pts, args.dts, args.user)
    ensures SubmitsOrDrains(log, n, args.pts, args.dts, args.user)
  {
  }

  lemma SubmitsAppend(before: seq<Event>, log: seq<Event>, n: nat, args: Args)
    requires before <= log && SubmitsOrDrains(before, n, args.pts, args.dts, args.user)
    requires SubmitsOrDrains(log, |before|, args.pts, args.dts, args.user)
    ensures SubmitsOrDrains(log, n, args.pts, args.dts, args.user)
  {
    hide SubmittedAs;
    forall k: nat | n <= k < |log|
      ensures SubmittedAs(log[k], false, args.pts, args.dts, args.user) || SubmittedAs(log[k], true, -1, -1, 0)
    {
      if k < |before| { assert before[k] == log[k]; }
    }
  }

  lemma OnlyItsAnswers(s: State, last: Args, x: PollAnswers, y: PollAnswers)
    ensures (x.input, x.second) == (y.input, y.second) ==> FromInput(s, last, x) == FromInput(s, last, y)
    ensures (x.flush, x.third) == (y.flush, y.third) ==> FromFlush(s, last, x) == FromFlush(s, last, y)
    ensures x == y.(first := x.first) ==> FromBoth(s, last, x) == FromBoth(s, last, y)
  {
    hide DriveAndPass;
  }

  /** What a later part of a call adds to what it asked and submitted. */
  lemma LaterKept(was: seq<Ask>, asked: seq<Ask>, n: nat, logged: seq<Event>, log: seq<Event>, m: nat, args: Args)
    requires n <= |was| && was <= asked && logged <= log
    requires SubmitsOrDrains(logged, m, args.pts, args.dts, args.user)
    requires SubmitsOrDrains(log, |logged|, args.pts, args.dts, args.user)
    ensures SubmitsOrDrains(log, m, args.pts, args.dts, args.user)
    ensures DeviceFailed(asked, n) <==> DeviceFailed(was, n) || DeviceFailed(asked, |was|)
    ensures AskedForSome(was, n) || AskedForSome(asked, |was|) ==> AskedForSome(asked, n)
    ensures |was| > n ==> (LooksFirst(asked, n) <==> LooksFirst(was, n))
  {
    FailedAppend(was, asked, n);
    SubmitsAppend(logged, log, m, args);
  }
}
