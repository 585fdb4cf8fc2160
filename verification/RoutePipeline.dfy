/** The route pipeline as the program runs it: slots, counters and control pool updated in
    place.  Every method performs steps of RouteModel, recorded in the ghost log, so that the
    theorems about runs hold of every reachable route. */
module RoutePipeline {
  import opened Basics
  import opened Sums
  import opened RouteModel
  import opened RouteLedger
  import opened RouteOrder
  import opened RouteResources
  import opened RouteCalls

  /** The answers of the encoder while it is drained. */
  datatype DrainAnswer = DrainBusy | DrainPacket(sync: Option<SyncAnswer>, bits: Bits) | DrainEnd | DrainError

  /** Draining is over: at the end, at an error, or when waiting for a packet fails. */
  predicate Finishes(a: DrainAnswer) {
    a.DrainEnd? || a.DrainError? || (a.DrainPacket? && a.sync == Some(SyncError))
  }

  class Route {
    var ops: seq<Op>
    var ctrl: seq<bool>
    var decodeSubmit: nat
    var decodeOut: nat
    var decodedReady: nat
    var encodeSubmit: nat
    var encodeOut: nat
    var outputPackets: nat
    var inputLen: nat
    var encoderDrained: bool
    const asyncDepth: nat
    ghost var trace: Trace
    ghost var log: seq<Event>
    /** History: what the device was asked, with its answers. */
    ghost var asked: seq<Ask>

    ghost function View(): State
      reads this
    {
      State(ops, ctrl, decodeSubmit, decodeOut, decodedReady, encodeSubmit, encodeOut, outputPackets, inputLen, trace)
    }

    /** The route is where the recorded steps lead from initialisation, and their answers are
        those the device gave. */
    ghost predicate Valid()
      reads this
    {
      View() == Run(Init(asyncDepth), log) && asked == AskedIn(asyncDepth, log)
    }

    constructor (asyncDepth: nat)
      ensures Valid() && log == [] && this.asyncDepth == asyncDepth
    {
      this.asyncDepth := asyncDepth;
      ops := seq(if asyncDepth > 1 then asyncDepth else 1, _ => FreshOp());
      ctrl := seq(asyncDepth + 4, _ => false);
      decodeSubmit, decodeOut, decodedReady, encodeSubmit, encodeOut, outputPackets, inputLen := 0, 0, 0, 0, 0, 0, 0;
      encoderDrained := false;
      trace := Init(asyncDepth).trace;
      log, asked := [], [];
    }

    // ----- the device: any answer at any time

    method AskDecode(draining: bool) returns (answer: DecodeAnswer, consumed: nat)
      modifies this`asked
      ensures asked == old(asked) + [DecodeAsked(draining, answer, consumed)]
    {
      answer := *;
      consumed := *;
      asked := asked + [DecodeAsked(draining, answer, consumed)];
    }

    method AskSync(blocking: bool) returns (answer: SyncAnswer)
      modifies this`asked
      ensures asked == old(asked) + [SyncAsked(answer)]
    {
      answer := *;
      asked := asked + [SyncAsked(answer)];
    }

    method AskEncode(withControl: bool) returns (answer: EncodeAnswer)
      modifies this`asked
      ensures asked == old(asked) + [EncodeAsked(answer)]
    {
      answer := *;
      asked := asked + [EncodeAsked(answer)];
    }

    /** What a finished encode left in the output bitstream. */
    method ReadBits() returns (bits: Bits)
      modifies this`asked
      ensures asked == old(asked) + [BitsRead(bits)]
    {
      bits := *;
      asked := asked + [BitsRead(bits)];
    }

    /** The decision callback together with the geometry check and the surface mapping. */
    method DecideControl() returns (control: Control)
      modifies this`asked
      ensures asked == old(asked) + [ControlAsked(control)]
    {
      control := *;
      asked := asked + [ControlAsked(control)];
    }

    /** Whether unmapping a surface throws after it was read or written. */
    method UnmapThrows() returns (fails: bool)
      modifies this`asked
      ensures asked == old(asked) + [UnmapAsked(fails)]
    {
      fails := *;
      asked := asked + [UnmapAsked(fails)];
    }

    lemma Reachable()
      requires Valid()
      ensures Ledger(View())
    {
      hide Ledger;
      LedgerInit(asyncDepth);
      LedgerRun(Init(asyncDepth), log);
    }

    /** After a warning no further slot is in turn. */
    lemma WarningIsLast(s: State)
      requires s == Run(Init(asyncDepth), log)
      ensures NoneMatches(SyncEncodeStep(s, SyncWarning, Bits([], None)).state, true)
      ensures NoneMatches(SyncDecodeStep(s, SyncWarning, false).state, false)
    {
      hide Ledger;
      LedgerInit(asyncDepth);
      LedgerRun(Init(asyncDepth), log);
      WarningEndsTurn(s, Bits([], None), false);
    }

    ghost method Record(e: Event, before: State)
      requires before == Run(Init(asyncDepth), log) && View() == Step(before, e)
      requires asked == AskedIn(asyncDepth, log) + AskedBy(before, e)
      modifies this`log
      ensures log == old(log) + [e] && Valid()
    {
      hide Step, AskedBy;
      RunAppend(Init(asyncDepth), log, e);
      AskedAppend(asyncDepth, log, e);
      log := log + [e];
    }

    method AppendInput(bytes: nat)
      requires Valid()
      modifies this
      ensures Valid() && log == old(log) + [Append(bytes)]
    {
      ghost var before := View();
      inputLen := inputLen + bytes;
      Record(Append(bytes), before);
    }

    method ResetOp(i: nat)
      requires i < |ops|
      modifies this`ops, this`ctrl, this`trace
      ensures View() == Reset(old(View()), i)
    {
      var op := ops[i];
      trace := trace.(released := trace.released + SurfaceList(op), resets := trace.resets + 1);
      if op.ctrl.Some? && op.ctrl.value < |ctrl| {
        ctrl := ctrl[op.ctrl.value := false];
      }
      ops := ops[i := FreshOp()];
    }

    method HasActive() returns (active: bool)
      ensures active <==> exists i :: 0 <= i < |ops| && ops[i].phase != Free
    {
      for i := 0 to |ops|
        invariant forall j :: 0 <= j < i ==> ops[j].phase == Free
      {
        if ops[i].phase != Free { return true; }
      }
      return false;
    }

    method FindFree() returns (i: nat)
      ensures i == First(ops, WantFree, 0)
    {
      i := 0;
      while i < |ops| && ops[i].phase != Free
        invariant i <= |ops|
        invariant forall j :: 0 <= j < i ==> !Matches(ops[j], WantFree)
      {
        i := i + 1;
      }
    }

    // ----- encode and decode synchronisation

    /** Emits the bitstream as the route's next packet, unless it is empty. */
    method PushEncoded(bits: Bits, pts: int, user: int, ghost origin: Option<nat>)
      modifies this`outputPackets, this`trace
      ensures View() == Emit(old(View()), bits, pts, user, origin)
    {
      if bits.data == [] { return; }
      var outPts := pts;
      if bits.stamp.Some? { outPts := bits.stamp.value; }
      trace := trace.(outputs := trace.outputs + [Output(bits.data, outPts, user, outputPackets, origin)]);
      outputPackets := outputPackets + 1;
    }

    method FinishEncode(i: nat, bits: Bits)
      requires i < |ops|
      modifies this`ops, this`ctrl, this`encodeOut, this`outputPackets, this`trace
      ensures View() == CompleteEncode(old(View()), i, bits)
    {
      var op := ops[i];
      PushEncoded(bits, op.pts, op.user, Some(encodeOut));
      trace := trace.(bits := trace.bits + [bits]);
      if op.ctrl.Some? && op.ctrl.value < |ctrl| {
        ctrl := ctrl[op.ctrl.value := false];
      }
      ops := ops[i := op.(encodeSync := false, ctrl := None, phase := Free)];
      encodeOut := encodeOut + 1;
    }

    /** One slot whose turn it is: finished, still running, or reset after a failure. */
    method SettleEncode(i: nat, blocking: bool) returns (status: SyncAnswer, bits: Bits)
      requires i < |ops|
      modifies this
      ensures log == old(log) && encoderDrained == old(encoderDrained)
      ensures asked == old(asked) + SyncAsks(old(ops[i].encodeSync), status, [BitsRead(bits)])
      ensures SyncEncodeAt(old(View()), i, status, bits) ==
              Outcome(View(), status == SyncDone, status == SyncError, false)
    {
      status, bits := SyncDone, Bits([], None);
      if ops[i].encodeSync {
        status := AskSync(blocking);
      }
      if status == SyncDone {
        bits := ReadBits();
        FinishEncode(i, bits);
      } else if status != InExecution {
        ResetOp(i);
        trace := trace.(encodeLost := true);
      }
    }

    method TrySyncOneEncode(blocking: bool) returns (progressed: bool, threw: bool)
      requires Valid()
      modifies this
      ensures Valid() && |log| == |old(log)| + 1 && log[..|old(log)|] == old(log) && log[|old(log)|].SyncEncode?
      ensures Perform(old(View()), log[|old(log)|]) == Outcome(View(), progressed, threw, false)
    {
      hide Run, Ledger;
      ghost var before := View();
      ghost var warned, none := false, Bits([], None);
      for i := 0 to |ops|
        invariant log == old(log) && |ops| == |before.ops|
        invariant if warned then SyncEncodeStep(before, SyncWarning, none) == Outcome(View(), false, false, false)
                  else View() == before
        invariant asked == old(asked) + if warned then AskedBy(before, SyncEncode(SyncWarning, none)) else []
        invariant forall j :: 0 <= j < i ==> !Matches(ops[j], WantEncoding(encodeOut))
        invariant warned ==> forall j :: 0 <= j < |ops| ==> !Matches(ops[j], WantEncoding(encodeOut))
      {
        if ops[i].phase == Encoding && ops[i].encodeOrder == encodeOut {
          FirstIs(ops, WantEncoding(encodeOut), i);
          var status, bits := SettleEncode(i, blocking);
          if status != SyncWarning {
            Record(SyncEncode(status, bits), before);
            return status == SyncDone, status == SyncError;
          }
          WarningIsLast(before);
          warned := true;
        }
      }
      Record(SyncEncode(if warned then SyncWarning else SyncDone, none), before);
      return false, false;
    }

    /** The ready order is taken before the scene analysis, which may throw. */
    method MarkDecodedReady(i: nat) returns (threw: bool, ghost sceneFails: bool)
      requires i < |ops|
      modifies this`ops, this`decodedReady, this`decodeOut, this`trace, this`asked
      ensures asked == old(asked) + if old(ops[i].surface.Some?) then [UnmapAsked(sceneFails)] else []
      ensures MarkReady(old(View()), i, sceneFails) == Outcome(View(), !threw, threw, false)
    {
      ops := ops[i := ops[i].(decodeSync := false)];
      threw, sceneFails := false, false;
      if ops[i].surface.None? {
        ops := ops[i := ops[i].(phase := Free)];
      } else {
        ops := ops[i := ops[i].(decodedOrder := decodedReady)];
        decodedReady := decodedReady + 1;
        var fails := UnmapThrows();
        sceneFails := fails;
        if fails {
          trace := trace.(sceneFails := trace.sceneFails + 1);
          return true, sceneFails;
        }
        ops := ops[i := ops[i].(phase := Decoded)];
        trace := trace.(readyFails := trace.readyFails + [trace.sceneFails]);
      }
      decodeOut := decodeOut + 1;
    }

    /** One slot whose turn it is: ready, still running, or reset after a failure. */
    method SettleDecode(i: nat, blocking: bool) returns (status: SyncAnswer, threw: bool, ghost sceneFails: bool)
      requires i < |ops|
      modifies this
      ensures log == old(log) && encoderDrained == old(encoderDrained)
      ensures asked == old(asked) + SyncAsks(old(ops[i].decodeSync), status,
                                             if old(ops[i].surface.Some?) then [UnmapAsked(sceneFails)] else [])
      ensures SyncDecodeAt(old(View()), i, status, sceneFails) ==
              Outcome(View(), status == SyncDone && !threw, threw, false)
      ensures status == SyncWarning ==> !threw && !sceneFails
    {
      status, threw, sceneFails := SyncDone, false, false;
      if ops[i].decodeSync {
        status := AskSync(blocking);
      }
      if status == SyncDone {
        threw, sceneFails := MarkDecodedReady(i);
      } else if status != InExecution {
        ResetOp(i);
        trace := trace.(decodeLost := true);
        threw := status == SyncError;
      }
    }

    method TrySyncOneDecode(blocking: bool) returns (progressed: bool, threw: bool)
      requires Valid()
      modifies this
      ensures Valid() && |log| == |old(log)| + 1 && log[..|old(log)|] == old(log) && log[|old(log)|].SyncDecode?
      ensures Perform(old(View()), log[|old(log)|]) == Outcome(View(), progressed, threw, false)
    {
      hide Run, Ledger;
      ghost var before := View();
      ghost var warned := false;
      for i := 0 to |ops|
        invariant log == old(log) && |ops| == |before.ops|
        invariant if warned then SyncDecodeStep(before, SyncWarning, false) == Outcome(View(), false, false, false)
                  else View() == before
        invariant asked == old(asked) + if warned then AskedBy(before, SyncDecode(SyncWarning, false)) else []
        invariant forall j :: 0 <= j < i ==> !Matches(ops[j], WantDecoding(decodeOut))
        invariant warned ==> forall j :: 0 <= j < |ops| ==> !Matches(ops[j], WantDecoding(decodeOut))
      {
        if ops[i].phase == Decoding && ops[i].decodeOrder == decodeOut {
          FirstIs(ops, WantDecoding(decodeOut), i);
          var status, failed;
          ghost var fails;
          status, failed, fails := SettleDecode(i, blocking);
          if status != SyncWarning {
            Record(SyncDecode(status, fails), before);
            return status == SyncDone && !failed, failed;
          }
          WarningIsLast(before);
          warned := true;
        }
      }
      Record(SyncDecode(if warned then SyncWarning else SyncDone, false), before);
      return false, false;
    }

    // ----- decode submission

    method AcceptFrame(i: nat, surface: Surface, hasSync: bool)
      requires i < |ops|
      modifies this`ops, this`decodeSubmit, this`trace
      ensures View() == TakeFrame(old(View()), i, surface, hasSync)
    {
      var op := ops[i];
      trace := trace.(given := trace.given + [Frame(surface, op.pts, op.user)], slotOf := trace.slotOf + [i],
                      stale := trace.stale + [op.preprocessed]);
      ops := ops[i := op.(surface := Some(surface), decodeSync := hasSync, decodeOrder := decodeSubmit,
                          phase := Decoding)];
      decodeSubmit := decodeSubmit + 1;
    }

    /** One decode call on the first free slot. */
    method SubmitInto(i: nat, draining: bool, pts: int, user: int) returns (status: DecodeAnswer, ghost consumed: nat)
      requires i == First(ops, WantFree, 0) && i < |ops|
      modifies this`ops, this`inputLen, this`decodeSubmit, this`trace, this`asked
      ensures asked == old(asked) + [DecodeAsked(draining, status, consumed)]
      ensures SubmitDecodeStep(old(View()), draining, pts, user, status, consumed) ==
              Outcome(View(), status.DecodeFrame?, status.DecodeError?, status.DecodeMoreData?)
      ensures trace.given == old(trace.given)
                             + if status.DecodeFrame? then [Frame(status.surface, pts, user)] else []
    {
      ops := ops[i := ops[i].(surface := None, decodeSync := false, encodeSync := false, ctrl := None,
                              pts := pts, user := user)];
      var taken;
      status, taken := AskDecode(draining);
      consumed := taken;
      if !draining {
        inputLen := if taken > inputLen then 0 else inputLen - taken;
      }
      if status.DecodeFrame? {
        AcceptFrame(i, status.surface, status.hasSync);
      }
    }

    /** One decode call, when a slot is free.  A frame that the decoder gives is recorded with
        the time stamp and user pointer of this call. */
    method TrySubmitOneDecode(draining: bool, pts: int, user: int)
      returns (progressed: bool, threw: bool, needMore: bool)
      requires Valid()
      modifies this
      ensures Valid() && |log| == |old(log)| + 1 && log[..|old(log)|] == old(log)
      ensures Carries(log, |old(log)|, draining, pts, user) && log[|old(log)|].SubmitDecode?
      ensures needMore ==> Starved(log[|old(log)|], draining)
      ensures Perform(old(View()), log[|old(log)|]) == Outcome(View(), progressed, threw, needMore)
      ensures progressed ==>
                && |trace.given| == |old(trace.given)| + 1 && trace.given[..|old(trace.given)|] == old(trace.given)
                && trace.given[|old(trace.given)|].pts == pts && trace.given[|old(trace.given)|].user == user
      ensures !progressed ==> trace.given == old(trace.given)
      ensures !HasFree(old(View())) ==> !progressed && !threw && !needMore && asked == old(asked)
      ensures HasFree(old(View())) ==>
                && |asked| == |old(asked)| + 1 && asked[|old(asked)|].DecodeAsked?
                && var answer := asked[|old(asked)|].decode;
                (progressed <==> answer.DecodeFrame?) && (threw <==> answer.DecodeError?)
                && (needMore <==> answer.DecodeMoreData?)
    {
      hide Run;
      ghost var before := View();
      var i := FindFree();
      if i == |ops| {
        assert forall j :: 0 <= j < |ops| ==> !Matches(ops[j], WantFree);
        Record(SubmitDecode(draining, pts, user, DecodeBusy, 0), before);
        return false, false, false;
      }
      assert Matches(ops[i], WantFree);
      ghost var consumed;
      var status;
      status, consumed := SubmitInto(i, draining, pts, user);
      Record(SubmitDecode(draining, pts, user, status, consumed), before);
      return status.DecodeFrame?, status.DecodeError?, status.DecodeMoreData?;
    }

    // ----- encode submission

    method AcquireEncodeControlSlot() returns (slot: nat)
      modifies this`ctrl
      ensures ctrl == Acquire(old(ctrl)) && slot == AcquiredIndex(old(ctrl))
    {
      if |ctrl| == 0 {
        ctrl := seq(8, _ => false);
      }
      slot := 0;
      while slot < |ctrl|
        invariant slot <= |ctrl| && ctrl == Pool(old(ctrl))
        invariant forall j :: 0 <= j < slot ==> ctrl[j]
      {
        if !ctrl[slot] {
          ctrl := ctrl[slot := true];
          return;
        }
        slot := slot + 1;
      }
      ctrl := ctrl + [true];
    }

    /** Prepares the control of slot `i`; a control whose Unmap throws is lost. */
    method PrepareEncodeControl(i: nat) returns (control: Control)
      requires i < |ops| && ops[i].ctrl.None?
      modifies this`ops, this`ctrl, this`trace, this`asked
      ensures View() == TakeControl(old(View()), i, control) && asked == old(asked) + [ControlAsked(control)]
    {
      control := DecideControl();
      var held := None;
      if control != NoControl {
        var slot := AcquireEncodeControlSlot();
        if control == UnmapFails {
          trace := trace.(leaked := trace.leaked + 1);
          return;
        }
        if control == ControlDropped {
          if slot < |ctrl| { ctrl := ctrl[slot := false]; }
        } else {
          held := Some(slot);
        }
      }
      ops := ops[i := ops[i].(ctrl := held)];
    }

    /** Attempts to preprocess the frame of slot `i` unless its flag is set. */
    method ApplyPreprocess(i: nat) returns (threw: bool, ghost fails: bool)
      requires i < |ops|
      modifies this`ops, this`trace, this`asked
      ensures View() == Filter(old(View()), i, fails) && (threw <==> !old(ops[i].preprocessed) && fails)
      ensures asked == old(asked) + if old(ops[i].preprocessed) then [] else [UnmapAsked(fails)]
    {
      fails := false;
      if ops[i].preprocessed { return false, fails; }
      ghost var k := [ops[i].decodeOrder];
      trace := trace.(preprocessed := trace.preprocessed + k);
      threw := UnmapThrows();
      fails := threw;
      if threw {
        trace := if ops[i].ctrl.None? then trace.(refiltered := trace.refiltered + k)
                 else trace.(unmarked := trace.unmarked + k);
        return;
      }
      ops := ops[i := ops[i].(preprocessed := true)];
    }

    /** Everything that is done once per frame before it is handed to the encoder. */
    method PrepareSelected(i: nat) returns (threw: bool, ghost prepare: Prepare)
      requires i < |ops| && ops[i].ctrl.None?
      modifies this`ops, this`ctrl, this`trace, this`asked
      ensures PrepareFrame(old(View()), i, prepare) == Outcome(View(), false, threw, false) && |ops| == |old(ops)|
      ensures asked == old(asked) + PrepareAsks(old(ops[i].preprocessed), prepare)
      ensures threw == PreparationThrows(old(ops[i]), prepare)
    {
      hide Acquire, FirstUnused, ReleaseCtrl;
      var control := PrepareEncodeControl(i);
      prepare := Prepare(control, false, false);
      if control == UnmapFails { return true, prepare; }
      ghost var filterFails;
      threw, filterFails := ApplyPreprocess(i);
      prepare := Prepare(control, filterFails, false);
      if threw { return; }
      if ops[i].ctrl != None {
        threw := UnmapThrows();
        prepare := Prepare(control, filterFails, threw);
      }
    }

    method SelectDecoded() returns (selected: Option<nat>)
      ensures selected == Oldest(ops, |ops|)
    {
      selected := None;
      for i := 0 to |ops|
        invariant selected == Oldest(ops, i)
      {
        if ops[i].phase == Decoded && (selected == None || ops[i].decodedOrder < ops[selected.value].decodedOrder) {
          selected := Some(i);
        }
      }
    }

    method SubmitSelected(i: nat) returns (progressed: bool, threw: bool, ghost answer: EncodeAnswer)
      requires i < |ops|
      modifies this`ops, this`ctrl, this`encodeSubmit, this`trace, this`asked
      ensures Encode(old(View()), i, answer) == Outcome(View(), progressed, threw, false)
      ensures asked == old(asked) + [EncodeAsked(answer)]
    {
      ghost var handed := trace.handed + [FrameOf(ops[i])];
      var status := AskEncode(ops[i].ctrl != None);
      answer := status;
      match status {
        case EncodeBusy =>
          ops := ops[i := ops[i].(encodeSync := false)];
          progressed, threw := false, false;
        case EncodeMoreData =>
          ResetOp(i);
          trace := trace.(handed := handed, absorbed := trace.absorbed + 1);
          progressed, threw := true, false;
        case EncodeError =>
          ResetOp(i);
          trace := trace.(handed := handed, rejected := trace.rejected + 1);
          progressed, threw := false, true;
        case EncodeAccepted(hasSync) =>
          trace := trace.(handed := handed, accepted := trace.accepted + [ops[i].decodeOrder],
                          released := trace.released + SurfaceList(ops[i]));
          ops := ops[i := ops[i].(surface := None, decodeSync := false, encodeSync := hasSync,
                                  encodeOrder := encodeSubmit, phase := Encoding)];
          encodeSubmit := encodeSubmit + 1;
          progressed, threw := true, false;
      }
    }

    method TrySubmitOneEncode() returns (progressed: bool, threw: bool)
      requires Valid()
      modifies this
      ensures Valid() && |log| == |old(log)| + 1 && log[..|old(log)|] == old(log) && log[|old(log)|].SubmitEncode?
      ensures Perform(old(View()), log[|old(log)|]) == Outcome(View(), progressed, threw, false)
    {
      hide Run, PrepareFrame, Encode;
      ghost var before := View();
      var selected := SelectDecoded();
      if selected == None {
        Record(SubmitEncode(Prepare(NoControl, false, false), EncodeBusy), before);
        return false, false;
      }
      var i := selected.value;
      ghost var op, prepare := ops[i], Prepare(NoControl, false, false);
      if ops[i].ctrl == None {
        threw, prepare := PrepareSelected(i);
        if threw {
          Record(SubmitEncode(prepare, EncodeBusy), before);
          return false, true;
        }
      }
      ghost var answer;
      progressed, threw, answer := SubmitSelected(i);
      assert asked == old(asked) + EncodeAsks(op, prepare, answer);
      Record(SubmitEncode(prepare, answer), before);
    }

    // ----- driving the pipeline

    /** One step that does not take a frame from the decoder: the encode sync, the decode sync
        or the encode submission whose turn it is. */
    method TryStep(rank: int, blocking: bool) returns (progressed: bool, threw: bool)
      requires Valid() && 0 <= rank < 3
      modifies this
      ensures Valid() && Extends(old(log), log, rank) && |log| == |old(log)| + 1
      ensures 0 <= Weight(View()) <= Weight(old(View())) - B2N(progressed)
      ensures !threw ==> Work(View()) == Work(old(View())) + B2N(progressed)
      ensures progressed <==> StepProgressed(asyncDepth, log, |log| - 1)
      ensures threw <==> ThrewSince(asyncDepth, log, |old(log)|)
    {
      hide AskedIn, Run, Perform, Step, Sum, ThrewSince;
      ghost var before := View();
      if rank == 0 {
        progressed, threw := TrySyncOneEncode(blocking);
      } else if rank == 1 {
        progressed, threw := TrySyncOneDecode(blocking);
      } else {
        progressed, threw := TrySubmitOneEncode();
      }
      assert log[..|log| - 1] == old(log);
      ThrewOnce(asyncDepth, old(log), log);
      StepCounts(before, log[|log| - 1], View(), progressed, threw);
    }

    /** Repeats one kind of step until it makes no progress.  The loop ends because progress
        lowers the weight. */
    method RepeatStep(rank: int) returns (progressed: bool, threw: bool)
      requires Valid() && 0 <= rank < 3
      modifies this
      ensures Valid() && Extends(old(log), log, rank)
      ensures !threw ==> Exhausted(old(log), old(View()), log, View(), progressed)
      ensures !threw ==> !StepProgressed(asyncDepth, log, |log| - 1)
      ensures threw <==> ThrewSince(asyncDepth, log, |old(log)|)
    {
      hide AskedIn, Run, Sum, StepProgressed, ThrewSince;
      progressed, threw := false, false;
      ThrewAppend(asyncDepth, log, log, |log|);
      while true
        invariant Valid() && (log == old(log) || Extends(old(log), log, rank))
        invariant Work(View()) == Work(old(View())) + |log| - |old(log)| && (progressed <==> |log| > |old(log)|)
        invariant !ThrewSince(asyncDepth, log, |old(log)|)
        decreases Weight(View())
      {
        ghost var before := log;
        var p;
        p, threw := TryStep(rank, false);
        ThrewAppend(asyncDepth, before, log, |old(log)|);
        if threw || !p { return; }
        progressed := true;
      }
    }

    /** One decode submission into a free slot; progress uses the slot up. */
    method TakeStep(draining: bool, pts: int, user: int) returns (progressed: bool, threw: bool, needMore: bool)
      requires Valid()
      modifies this
      ensures Valid() && Extends(old(log), log, 3) && |log| == |old(log)| + 1
      ensures 0 <= FreeSlots(View()) == FreeSlots(old(View())) - B2N(progressed)
      ensures !threw ==> Work(View()) == Work(old(View())) + B2N(progressed)
      ensures needMore ==> !progressed && Starved(log[|log| - 1], draining)
      ensures progressed <==> StepProgressed(asyncDepth, log, |log| - 1)
      ensures Carries(log, |old(log)|, draining, pts, user)
      ensures threw <==> ThrewSince(asyncDepth, log, |old(log)|)
    {
      hide AskedIn, Run, Perform, Step, Sum, ThrewSince;
      ghost var before := View();
      progressed, threw, needMore := TrySubmitOneDecode(draining, pts, user);
      assert log[..|log| - 1] == old(log);
      ThrewOnce(asyncDepth, old(log), log);
      TakeCounts(before, log[|log| - 1], View(), progressed, threw, needMore);
    }

    /** Submits decodes until no slot is free or a submission makes no progress. */
    method SubmitDecodes(draining: bool, pts: int, user: int) returns (progressed: bool, needMore: bool, threw: bool)
      requires Valid()
      modifies this
      ensures Valid() && (log == old(log) || Extends(old(log), log, 3))
      ensures Carries(log, |old(log)|, draining, pts, user)
      ensures needMore ==> |log| > |old(log)| && Starved(log[|log| - 1], draining)
      ensures !threw ==> Submitted(asyncDepth, old(log), old(View()), log, View(), progressed)
      ensures threw <==> ThrewSince(asyncDepth, log, |old(log)|)
    {
      hide AskedIn, Run, Sum, StepProgressed, First, ThrewSince;
      progressed, needMore, threw := false, false, false;
      ThrewAppend(asyncDepth, log, log, |log|);
      while true
        invariant Valid() && (log == old(log) || Extends(old(log), log, 3)) && !needMore && !threw
        invariant Carries(log, |old(log)|, draining, pts, user)
        invariant Work(View()) == Work(old(View())) + |log| - |old(log)| && (progressed <==> log != old(log))
        invariant !ThrewSince(asyncDepth, log, |old(log)|)
        decreases FreeSlots(View())
      {
        ghost var before := log;
        var free := FindFree();
        if free == |ops| {
          assert forall i :: 0 <= i < |ops| ==> !Matches(ops[i], WantFree);
          return;
        }
        var p;
        p, threw, needMore := TakeStep(draining, pts, user);
        ThrewAppend(asyncDepth, before, log, |old(log)|);
        if threw || !p { return; }
        progressed := true;
      }
    }

    /** One round: all encodes and decodes that are done, all frames the encoder takes, all
        frames the decoder gives. */
    method ProcessRound(draining: bool, pts: int, user: int)
      returns (progressed: bool, needMore: bool, threw: bool, ghost b: nat, ghost c: nat, ghost d: nat)
      requires Valid()
      modifies this
      ensures Valid() && old(log) <= log && Carries(log, |old(log)|, draining, pts, user)
      ensures needMore && !threw ==> |log| > |old(log)| && Starved(log[|log| - 1], draining)
      ensures !threw ==> Work(View()) >= Work(old(View())) && (progressed <==> Work(View()) > Work(old(View())))
      ensures !threw ==> IsRound(log, |old(log)|, b, c, d) && (d == |log| ==> NoneFree(View()))
      ensures !threw && !progressed ==> QuietRound(asyncDepth, log, |old(log)|, View())
      ensures !threw ==> |log| >= |old(log)| + 3
      ensures threw <==> ThrewSince(asyncDepth, log, |old(log)|)
    {
      hide AskedIn, Run, StepProgressed, Work, ThrewSince;
      needMore := false;
      ghost var log0, w0 := log, Work(View());
      progressed, threw := RepeatStep(0);
      ghost var log1 := log;
      b, c, d := |log|, |log|, |log|;
      if threw { return; }
      var p;
      p, threw := RepeatStep(1);
      progressed := progressed || p;
      ghost var log2 := log;
      ThrewAppend(asyncDepth, log1, log, |old(log)|);
      c, d := |log|, |log|;
      if threw { return; }
      p, threw := RepeatStep(2);
      progressed := progressed || p;
      ghost var log3 := log;
      ThrewAppend(asyncDepth, log2, log, |old(log)|);
      d := |log|;
      if threw { return; }
      p, needMore, threw := SubmitDecodes(draining, pts, user);
      progressed := progressed || p;
      ThrewAppend(asyncDepth, log3, log, |old(log)|);
      RoundOfParts(log0, log1, log2, log3, log);
      if !threw && !progressed {
        QuietParts(asyncDepth, log0, log1, log2, log3, log, View());
      }
    }

    /** Repeats rounds of the non-blocking steps.  It stops when the decoder needs data, after a
        quiet round in which the last step of each kind made no progress, or after 256 rounds
        of progress.  Progress is reported exactly when some step was done. */
    method ProcessRoutePipeline(draining: bool, pts: int, user: int)
      returns (anyProgress: bool, needMore: bool, threw: bool)
      requires Valid()
      modifies this
      ensures Valid() && old(log) <= log && Carries(log, |old(log)|, draining, pts, user)
      ensures needMore ==> |log| > |old(log)| && Starved(log[|log| - 1], draining)
      ensures !threw ==> (anyProgress <==> Work(View()) > Work(old(View())))
      ensures !threw ==>
              exists a, b, c, d :: |old(log)| <= a && IsRound(log, a, b, c, d) && (d == |log| ==> NoneFree(View()))
      ensures !threw ==>
                || needMore
                || (exists a :: |old(log)| <= a && QuietRound(asyncDepth, log, a, View()))
                || Work(View()) >= Work(old(View())) + 256
      ensures !threw ==> |log| >= |old(log)| + 3
      ensures threw <==> ThrewSince(asyncDepth, log, |old(log)|)
    {
      hide AskedIn, Run, Work, NoneFree, QuietRound, IsRound, ThrewSince;
      ThrewAppend(asyncDepth, log, log, |log|);
      anyProgress, needMore, threw := false, false, false;
      ghost var a, b, c, d := 0, 0, 0, 0;
      for guard := 0 to 256
        invariant Valid() && old(log) <= log && !needMore && !threw
        invariant Carries(log, |old(log)|, draining, pts, user)
        invariant Work(View()) >= Work(old(View())) + guard && (anyProgress <==> Work(View()) > Work(old(View())))
        invariant guard > 0 ==> |old(log)| <= a && IsRound(log, a, b, c, d) && (d == |log| ==> NoneFree(View()))
        invariant !ThrewSince(asyncDepth, log, |old(log)|) && (guard > 0 ==> |log| >= |old(log)| + 3)
      {
        ghost var start, before := |log|, log;
        var progressed;
        progressed, needMore, threw, b, c, d := ProcessRound(draining, pts, user);
        ThrewAppend(asyncDepth, before, log, |old(log)|);
        a := start;
        if threw { needMore := false; return; }
        if needMore {
          anyProgress := anyProgress || progressed;
          return;
        }
        if !progressed { return; }
        anyProgress := true;
      }
    }

    /** Blocks on one encode, else on one decode, else hands one frame to the encoder. */
    method WaitForOnePipelineOp() returns (threw: bool)
      requires Valid()
      modifies this
      ensures Valid() && old(log) < log && |log| <= |old(log)| + 3
      ensures forall k :: |old(log)| <= k < |log| ==> Rank(log[k]) == k - |old(log)|
      ensures !threw && |log| < |old(log)| + 3 ==> Work(View()) == Work(old(View())) + 1
      ensures threw <==> ThrewSince(asyncDepth, log, |old(log)|)
    {
      hide AskedIn, Run, StepProgressed, Work, ThrewSince;
      var p;
      p, threw := TryStep(0, true);
      if p || threw { return; }
      ghost var first := log;
      p, threw := TryStep(1, true);
      ThrewAppend(asyncDepth, first, log, |old(log)|);
      if p || threw { return; }
      ghost var second := log;
      p, threw := TryStep(2, true);
      ThrewAppend(asyncDepth, second, log, |old(log)|);
    }

    /** One turn of the drain: a pass of the pipeline, and the end of input or of the decoder.
        The decoder is drained only once its input is done. */
    method DrainTurn(inputDone: bool, decoderDone: bool, pts: int, user: int)
      returns (inputDone': bool, decoderDone': bool, progressed: bool, threw: bool)
      requires Valid()
      modifies this
      ensures Valid() && old(log) <= log && Carries(log, |old(log)|, inputDone && !decoderDone, pts, user)
      ensures decoderDone ==> decoderDone'
      ensures !decoderDone && decoderDone' && !threw ==> |log| > |old(log)| && Starved(log[|log| - 1], true)
      ensures inputDone ==> inputDone'
      ensures !inputDone && inputDone' ==>
                inputLen == 0 || (|log| > |old(log)| && Starved(log[|log| - 1], false))
      ensures !inputDone && !threw && inputLen == 0 ==> inputDone'
      ensures !inputDone ==> decoderDone' == decoderDone
      ensures !threw ==> |log| >= |old(log)| + 3
      ensures threw <==> ThrewSince(asyncDepth, log, |old(log)|)
    {
      hide AskedIn, Run, ThrewSince;
      inputDone', decoderDone' := inputDone, decoderDone;
      var needMore;
      progressed, needMore, threw := ProcessRoutePipeline(inputDone && !decoderDone, pts, user);
      if threw { return; }
      if !inputDone {
        if needMore || inputLen == 0 { inputDone' := true; }
      } else if needMore {
        decoderDone' := true;
      }
    }

    /** Drains decoder and pipeline.  Pending input is decoded first: draining calls come only when
        the input is used up or the decoder has asked for more.  The drain returns without an
        exception only after the decoder reported its end and with every slot free; then every
        frame ever taken is accounted for, and in a run without losses all were encoded or
        absorbed, in order.  With frames behind a lost one it cannot return normally. */
    method DrainPipeline(pts: int, user: int) returns (threw: bool)
      requires Valid()
      modifies this
      ensures Valid() && old(log) <= log
      ensures InputFirst(asyncDepth, log, |old(log)|) && WithMeta(log, |old(log)|, pts, user)
      ensures !threw ==> forall i :: 0 <= i < |ops| ==> ops[i].phase == Free
      ensures !threw ==> exists k :: |old(log)| <= k < |log| && Starved(log[k], true)
      ensures !threw ==> |trace.given| == |trace.bits| + trace.absorbed + trace.rejected
                                          + B2N(trace.decodeLost) + B2N(trace.encodeLost)
      ensures !threw && !trace.decodeLost ==> trace.handed == trace.given
      ensures Blocked(old(View())) ==> threw
      ensures threw <== ThrewSince(asyncDepth, log, |old(log)|)
      ensures threw && !ThrewSince(asyncDepth, log, |old(log)|) ==> |log| >= |old(log)| + 3 * 100000
    {
      hide AskedIn, Run, Blocked, Carries, InputFirst, InputDone, WithMeta, ThrewSince;
      ThrewAppend(asyncDepth, log, log, |log|);
      var inputDone := inputLen == 0;
      var decoderDone := false;
      ghost var from, end := |log|, 0;
      OrderStarts(asyncDepth, log, pts, user);
      for guard := 0 to 100000
        invariant Valid() && old(log) <= log
        invariant InputFirst(asyncDepth, log, from) && WithMeta(log, from, pts, user)
        invariant inputDone ==> InputDone(asyncDepth, log, from, |log|)
        invariant decoderDone ==> |old(log)| <= end < |log| && Starved(log[end], true)
        invariant !ThrewSince(asyncDepth, log, from) && |log| >= from + 3 * guard
      {
        var wasDone, inputWasDone := decoderDone, inputDone;
        ghost var start := log;
        var progressed, failed;
        inputDone, decoderDone, progressed, failed := DrainTurn(inputDone, decoderDone, pts, user);
        ThrewAppend(asyncDepth, start, log, from);
        TurnKeepsOrder(asyncDepth, start, log, from, inputWasDone, inputWasDone && !wasDone, pts, user);
        if inputDone && !inputWasDone { TurnEndsInput(asyncDepth, log, from); }
        if failed { return true; }
        if decoderDone && !wasDone { end := |log| - 1; }
        if decoderDone {
          var active := HasActive();
          if !active {
            DrainedTheorem(asyncDepth, log);
            NotBlocked(asyncDepth, old(log), log);
            return false;
          }
        }
        if !progressed {
          start := log;
          failed := WaitForOnePipelineOp();
          ThrewAppend(asyncDepth, start, log, from);
          WaitKeepsOrder(asyncDepth, start, log, from, inputDone, pts, user);
          if failed { return true; }
        }
      }
      return true;
    }

    /** Drains the encoder, given its answers in order: each packet up to the one that ends the
        drain is emitted, and nothing else happens to the route. */
    method DrainEncoder(answers: seq<DrainAnswer>) returns (threw: bool)
      requires Valid() && exists j :: 0 <= j < |answers| && Finishes(answers[j])
      modifies this
      ensures Valid() && old(log) <= log
      ensures old(encoderDrained) ==> !threw && View() == old(View()) && log == old(log) && encoderDrained
      ensures !old(encoderDrained) ==>
                exists n :: 0 <= n < |answers| && Finishes(answers[n])
                            && (forall j :: 0 <= j < n ==> !Finishes(answers[j]))
                            && log[|old(log)|..] == PacketsBefore(answers, n)
                            && threw == !answers[n].DrainEnd? && encoderDrained == answers[n].DrainEnd?
    {
      hide Run, AskedIn, AskedBy, Emit, Step;
      if encoderDrained { return false; }
      var n := 0;
      while !Finishes(answers[n])
        invariant n < |answers| && Valid() && old(log) <= log && !encoderDrained
        invariant log[|old(log)|..] == PacketsBefore(answers, n)
        invariant forall j :: 0 <= j < n ==> !Finishes(answers[j])
        decreases |answers| - n
      {
        if answers[n].DrainPacket? {
          ghost var before := View();
          PushEncoded(answers[n].bits, 0, 0, None);
          DrainStep(before, answers[n].bits);
          Record(DrainOutput(answers[n].bits), before);
        }
        n := n + 1;
      }
      threw := !answers[n].DrainEnd?;
      encoderDrained := !threw;
    }

    /** Closing gives back every surface and control slot the route still holds. */
    method CloseRoute()
      requires Valid()
      modifies this
      ensures View() == ResetFirst(old(View()), |old(ops)|)
      ensures forall i :: 0 <= i < |ops| ==> ops[i] == FreshOp()
      ensures forall h: Surface :: Sum(trace.released, HandleW(h)) == Sum(trace.given, FrameW(h))
    {
      ghost var before := View();
      for i := 0 to |ops|
        invariant |ops| == |before.ops| && View() == ResetFirst(before, i) && log == old(log)
      {
        ResetOp(i);
      }
      ResetFirstClears(before, |before.ops|);
      forall h: Surface
        ensures Sum(trace.released, HandleW(h)) == Sum(trace.given, FrameW(h))
      {
        CloseReleasesEverySurface(asyncDepth, log, h);
      }
    }
  }

  /** A lost sync leaves no slot in turn. */
  ghost predicate NoneMatches(s: State, encode: bool) {
    if encode then s.trace.encodeLost ==> forall j :: 0 <= j < |s.ops| ==> !Matches(s.ops[j], WantEncoding(s.encodeOut))
    else s.trace.decodeLost ==> forall j :: 0 <= j < |s.ops| ==> !Matches(s.ops[j], WantDecoding(s.decodeOut))
  }

  lemma StepCounts(s: State, e: Event, t: State, progressed: bool, threw: bool)
    requires Perform(s, e) == Outcome(t, progressed, threw, false) && !e.SubmitDecode?
    ensures 0 <= Weight(t) <= Weight(s) - B2N(progressed)
    ensures !threw ==> Work(t) == Work(s) + B2N(progressed)
  {
    hide Perform, Sum;
    ProgressLowersWeight(s, e);
    ProgressIsWork(s, e);
    SumNonNegative(t.ops, LoadW());
  }

  lemma TakeCounts(s: State, e: Event, t: State, progressed: bool, threw: bool, needMore: bool)
    requires Perform(s, e) == Outcome(t, progressed, threw, needMore) && e.SubmitDecode?
    ensures 0 <= FreeSlots(t) == FreeSlots(s) - B2N(progressed)
    ensures !threw ==> Work(t) == Work(s) + B2N(progressed)
    ensures needMore ==> !progressed
  {
    hide Perform, Sum;
    ProgressLowersWeight(s, e);
    ProgressIsWork(s, e);
    SumNonNegative(t.ops, PhaseW(Free));
  }

  /** The four kinds of step in the order a round tries them. */
  function Rank(e: Event): int {
    match e
    case SyncEncode(_, _) => 0
    case SyncDecode(_, _) => 1
    case SubmitEncode(_, _) => 2
    case SubmitDecode(_, _, _, _, _) => 3
    case Append(_) => 4
    case DrainOutput(_) => 5
  }

  /** Entry `k` of the log made progress. */
  ghost predicate StepThrew(asyncDepth: nat, log: seq<Event>, k: int) {
    0 <= k < |log| && Perform(Run(Init(asyncDepth), log[..k]), log[k]).threw
  }

  /** A step after the first `n` threw. */
  ghost predicate ThrewSince(asyncDepth: nat, log: seq<Event>, n: nat) {
    exists k :: n <= k < |log| && StepThrew(asyncDepth, log, k)
  }

  lemma ThrewOnce(asyncDepth: nat, before: seq<Event>, log: seq<Event>)
    requires |log| == |before| + 1 && log[..|before|] == before
    ensures ThrewSince(asyncDepth, log, |before|) <==>
            Perform(Run(Init(asyncDepth), before), log[|before|]).threw
  {
    hide Perform, Run;
    assert StepThrew(asyncDepth, log, |before|) <==> Perform(Run(Init(asyncDepth), before), log[|before|]).threw;
  }

  lemma ThrewAppend(asyncDepth: nat, before: seq<Event>, log: seq<Event>, n: nat)
    requires n <= |before| && before <= log
    ensures ThrewSince(asyncDepth, log, n) <==>
            ThrewSince(asyncDepth, before, n) || ThrewSince(asyncDepth, log, |before|)
    ensures !ThrewSince(asyncDepth, log, |log|)
  {
    hide Perform, Run;
    forall k | 0 <= k < |before| ensures StepThrew(asyncDepth, log, k) <==> StepThrew(asyncDepth, before, k) {
      assert log[..k] == before[..k];
    }
    if ThrewSince(asyncDepth, log, n) {
      var k :| n <= k < |log| && StepThrew(asyncDepth, log, k);
      assert k < |before| ==> StepThrew(asyncDepth, before, k);
    }
  }

  ghost predicate StepProgressed(asyncDepth: nat, log: seq<Event>, k: int)
    requires 0 <= k < |log|
  {
    Perform(Run(Init(asyncDepth), log[..k]), log[k]).progressed
  }

  lemma ProgressedStays(asyncDepth: nat, log: seq<Event>, log': seq<Event>, k: nat)
    requires k < |log| && log <= log'
    ensures StepProgressed(asyncDepth, log', k) <==> StepProgressed(asyncDepth, log, k)
  {
    hide Perform, Run;
    assert log'[..k] == log[..k];
  }

  /** Steps of one kind were added, at least one. */
  ghost predicate Extends(log: seq<Event>, log': seq<Event>, rank: int) {
    log < log' && forall k :: |log| <= k < |log'| ==> Rank(log'[k]) == rank
  }

  /** All added steps but one made progress: the kind was tried until it made none. */
  ghost predicate Exhausted(log: seq<Event>, s: State, log': seq<Event>, s': State, progressed: bool) {
    Work(s') == Work(s) + |log'| - |log| - 1 && (progressed <==> Work(s') > Work(s))
  }

  ghost predicate NoneFree(s: State) {
    forall i :: 0 <= i < |s.ops| ==> s.ops[i].phase != Free
  }

  /** Decodes were submitted until no slot was free, or until one made no progress. */
  ghost predicate Submitted(asyncDepth: nat, log: seq<Event>, s: State, log': seq<Event>, s': State, progressed: bool) {
    && log <= log' && (progressed <==> Work(s') > Work(s))
    && if log' != log && Work(s') == Work(s) + |log'| - |log| - 1 then !StepProgressed(asyncDepth, log', |log'| - 1)
       else NoneFree(s') && Work(s') == Work(s) + |log'| - |log|
  }

  /** From `a` on the log tries encode syncs, decode syncs, encode and decode submissions. */
  ghost predicate IsRound(log: seq<Event>, a: nat, b: nat, c: nat, d: nat) {
    && a < b < c < d <= |log|
    && forall k :: a <= k < |log| ==> Rank(log[k]) == if k < b then 0 else if k < c then 1 else if k < d then 2 else 3
  }

  /** From `a` on the log tries each kind of step once, without progress; a decode submission
      is missing only when no slot is free. */
  ghost predicate QuietRound(asyncDepth: nat, log: seq<Event>, a: nat, s: State) {
    && (|log| == a + 4 || (|log| == a + 3 && NoneFree(s)))
    && forall k :: a <= k < |log| ==> Rank(log[k]) == k - a && !StepProgressed(asyncDepth, log, k)
  }

  lemma RoundOfParts(log0: seq<Event>, log1: seq<Event>, log2: seq<Event>, log3: seq<Event>, log4: seq<Event>)
    requires Extends(log0, log1, 0) && Extends(log1, log2, 1) && Extends(log2, log3, 2)
    requires log4 == log3 || Extends(log3, log4, 3)
    ensures log0 <= log4 && IsRound(log4, |log0|, |log1|, |log2|, |log3|)
  {
  }

  /** A round of single tries without progress is quiet. */
  lemma QuietParts(asyncDepth: nat, log0: seq<Event>, log1: seq<Event>, log2: seq<Event>, log3: seq<Event>,
      log4: seq<Event>, s: State)
    requires Extends(log0, log1, 0) && Extends(log1, log2, 1) && Extends(log2, log3, 2)
    requires |log1| == |log0| + 1 && |log2| == |log1| + 1 && |log3| == |log2| + 1
    requires !StepProgressed(asyncDepth, log1, |log0|) && !StepProgressed(asyncDepth, log2, |log1|)
    requires !StepProgressed(asyncDepth, log3, |log2|)
    requires if log4 == log3 then NoneFree(s)
             else Extends(log3, log4, 3) && |log4| == |log3| + 1 && !StepProgressed(asyncDepth, log4, |log3|)
    ensures QuietRound(asyncDepth, log4, |log0|, s)
  {
    hide StepProgressed, NoneFree;
    ProgressedStays(asyncDepth, log1, log4, |log0|);
    ProgressedStays(asyncDepth, log2, log4, |log1|);
    ProgressedStays(asyncDepth, log3, log4, |log2|);
  }

  /** A route with every slot free was never blocked before. */
  lemma NotBlocked(asyncDepth: nat, before: seq<Event>, log: seq<Event>)
    requires before <= log
    requires forall i :: 0 <= i < |Run(Init(asyncDepth), log).ops| ==> Run(Init(asyncDepth), log).ops[i].phase == Free
    ensures !Blocked(Run(Init(asyncDepth), before))
  {
    hide Run;
    assert before + log[|before|..] == log;
    if Blocked(Run(Init(asyncDepth), before)) {
      BlockedForEver(asyncDepth, before, log[|before|..]);
    }
  }

  /** The drained packets among the first `n` answers, as events. */
  function PacketsBefore(answers: seq<DrainAnswer>, n: nat): seq<Event>
    requires n <= |answers|
  {
    if n == 0 then []
    else
      PacketsBefore(answers, n - 1) +
      if answers[n - 1].DrainPacket? then [DrainOutput(answers[n - 1].bits)] else []
  }

  lemma DrainStep(s: State, bits: Bits)
    ensures Step(s, DrainOutput(bits)) == Emit(s, bits, 0, 0, None) && AskedBy(s, DrainOutput(bits)) == []
  {
  }

  /** From `from` on the log has pipeline steps only, and its decode calls are those of a caller
      with the given arguments. */
  ghost predicate Carries(log: seq<Event>, from: nat, draining: bool, pts: int, user: int) {
    forall k :: from <= k < |log| ==>
      && 0 <= Rank(log[k]) <= 3
      && (log[k].SubmitDecode? ==> log[k].draining == draining && log[k].pts == pts && log[k].user == user)
  }

  ghost predicate WithMeta(log: seq<Event>, from: nat, pts: int, user: int) {
    forall k :: from <= k < |log| && log[k].SubmitDecode? ==> log[k].pts == pts && log[k].user == user
  }

  /** Before step `k` the input is used up, or the decoder asked for more input. */
  ghost predicate InputDone(asyncDepth: nat, log: seq<Event>, from: nat, k: nat)
    requires k <= |log|
  {
    Run(Init(asyncDepth), log[..k]).inputLen == 0 || exists j :: from <= j < k && Starved(log[j], false)
  }

  /** From `from` on draining decode calls come only once the input is done. */
  ghost predicate InputFirst(asyncDepth: nat, log: seq<Event>, from: nat) {
    forall k :: from <= k < |log| && log[k].SubmitDecode? && log[k].draining ==> InputDone(asyncDepth, log, from, k)
  }

  lemma InputDoneStays(asyncDepth: nat, log: seq<Event>, log': seq<Event>, from: nat, k: nat, m: nat)
    requires log <= log' && k <= |log| && k <= m <= |log'| && InputDone(asyncDepth, log, from, k)
    requires forall j :: k <= j < m ==> !log'[j].Append?
    ensures InputDone(asyncDepth, log', from, m)
  {
    hide Run;
    assert log'[..k] == log[..k];
    if Run(Init(asyncDepth), log[..k]).inputLen == 0 {
      NoneLeft(asyncDepth, log', k, m);
    } else {
      var j :| from <= j < k && Starved(log[j], false);
      assert Starved(log'[j], false);
    }
  }

  /** A turn whose decode calls drain only after the end of the input keeps the order. */
  lemma TurnKeepsOrder(asyncDepth: nat, log: seq<Event>, log': seq<Event>, from: nat, done: bool, draining: bool,
      pts: int, user: int)
    requires log <= log' && from <= |log| && InputFirst(asyncDepth, log, from) && WithMeta(log, from, pts, user)
    requires Carries(log', |log|, draining, pts, user)
    requires draining ==> done
    requires done ==> InputDone(asyncDepth, log, from, |log|)
    ensures InputFirst(asyncDepth, log', from) && WithMeta(log', from, pts, user)
    ensures done ==> InputDone(asyncDepth, log', from, |log'|)
  {
    hide InputDone, Starved;
    forall k | from <= k < |log'| && log'[k].SubmitDecode? && log'[k].draining
      ensures InputDone(asyncDepth, log', from, k)
    {
      if k < |log| {
        assert log[k] == log'[k];
        InputDoneStays(asyncDepth, log, log', from, k, k);
      } else {
        InputDoneStays(asyncDepth, log, log', from, |log|, k);
      }
    }
    if done { InputDoneStays(asyncDepth, log, log', from, |log|, |log'|); }
  }

  lemma OrderStarts(asyncDepth: nat, log: seq<Event>, pts: int, user: int)
    ensures InputFirst(asyncDepth, log, |log|) && WithMeta(log, |log|, pts, user)
    ensures Run(Init(asyncDepth), log).inputLen == 0 ==> InputDone(asyncDepth, log, |log|, |log|)
  {
    assert log[..|log|] == log;
  }

  lemma TurnEndsInput(asyncDepth: nat, log: seq<Event>, from: nat)
    requires Run(Init(asyncDepth), log).inputLen == 0 || (|log| > from && Starved(log[|log| - 1], false))
    ensures InputDone(asyncDepth, log, from, |log|)
  {
    assert log[..|log|] == log;
  }

  lemma WaitKeepsOrder(asyncDepth: nat, log: seq<Event>, log': seq<Event>, from: nat, done: bool, pts: int, user: int)
    requires log <= log' && from <= |log| && InputFirst(asyncDepth, log, from) && WithMeta(log, from, pts, user)
    requires forall k :: |log| <= k < |log'| ==> 0 <= Rank(log'[k]) <= 2
    requires done ==> InputDone(asyncDepth, log, from, |log|)
    ensures InputFirst(asyncDepth, log', from) && WithMeta(log', from, pts, user)
    ensures done ==> InputDone(asyncDepth, log', from, |log'|)
  {
    hide InputDone, InputFirst;
    TurnKeepsOrder(asyncDepth, log, log', from, done, done, pts, user);
  }

  lemma FirstIs(ops: seq<Op>, want: Want, i: nat)
    requires i < |ops| && Matches(ops[i], want) && forall j :: 0 <= j < i ==> !Matches(ops[j], want)
    ensures First(ops, want, 0) == i
  {
  }

  /** The decoder answered that it has nothing more to give. */
  predicate Starved(e: Event, draining: bool) {
    e.SubmitDecode? && e.draining == draining && e.decode.DecodeMoreData?
  }
}
