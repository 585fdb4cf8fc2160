/** All routes of a context with their shared output queue: what a caller who polls gets to
    see of every stream. */
module Transcoder {
  import opened RouteModel
  import opened RouteLedger
  import opened RouteOutputs
  import opened OutputDelivery

  datatype System = System(routes: seq<State>, queue: seq<Packet>, received: seq<Packet>)

  datatype Act = OnRoute(stream: nat, e: Event) | Poll(hasBuffer: bool, capacity: nat)

  function PacketOf(stream: nat, o: Output): Packet {
    Packet(stream, o.data, o.pts, o.dts, o.user)
  }

  function PacketsOf(stream: nat, os: seq<Output>): (r: seq<Packet>)
    ensures |r| == |os| && forall n :: 0 <= n < |os| ==> r[n] == PacketOf(stream, os[n])
  {
    if os == [] then [] else PacketsOf(stream, os[..|os| - 1]) + [PacketOf(stream, os[|os| - 1])]
  }

  /** What a step of a route adds to its packets. */
  function Fresh(s: State, t: State): seq<Output> {
    if |s.trace.outputs| <= |t.trace.outputs| then t.trace.outputs[|s.trace.outputs|..] else []
  }

  /** A step of a route pushes its new packets on the shared queue; a poll takes the front when
      it fits. */
  function Next(s: System, a: Act): System {
    match a
    case OnRoute(r, e) =>
      if r >= |s.routes| then s
      else
        var t := Step(s.routes[r], e);
        s.(routes := s.routes[r := t], queue := s.queue + PacketsOf(r, Fresh(s.routes[r], t)))
    case Poll(hasBuffer, capacity) =>
      if s.queue == [] || !hasBuffer || capacity < |s.queue[0].data| then s
      else s.(queue := s.queue[1..], received := s.received + [s.queue[0]])
  }

  function Start(depths: seq<nat>): System {
    System(seq(|depths|, r requires 0 <= r < |depths| => Init(depths[r])), [], [])
  }

  function After(depths: seq<nat>, acts: seq<Act>): System {
    if acts == [] then Start(depths) else Next(After(depths, acts[..|acts| - 1]), acts[|acts| - 1])
  }

  /** The steps of one route, in order. */
  function StepsOf(acts: seq<Act>, r: nat): seq<Event> {
    if acts == [] then []
    else
      var a := acts[|acts| - 1];
      StepsOf(acts[..|acts| - 1], r) + (if a.OnRoute? && a.stream == r then [a.e] else [])
  }

  lemma NextRoute(s: System, a: Act, r: nat)
    requires r < |s.routes|
    ensures |Next(s, a).routes| == |s.routes|
    ensures Next(s, a).routes[r] == if a.OnRoute? && a.stream == r then Step(s.routes[r], a.e) else s.routes[r]
  {
    hide Step;
  }

  /** Every route runs as if it were alone. */
  lemma {:induction false} RoutesRunAlone(depths: seq<nat>, acts: seq<Act>, r: nat)
    requires r < |depths|
    ensures |After(depths, acts).routes| == |depths|
    ensures After(depths, acts).routes[r] == Run(Init(depths[r]), StepsOf(acts, r))
    decreases |acts|
  {
    if acts != [] {
      hide Step, Init, Next, Run;
      var n := |acts| - 1;
      var a := acts[n];
      RoutesRunAlone(depths, acts[..n], r);
      NextRoute(After(depths, acts[..n]), a, r);
      if a.OnRoute? && a.stream == r {
        RunAppend(Init(depths[r]), StepsOf(acts[..n], r), a.e);
      } else {
        assert StepsOf(acts, r) == StepsOf(acts[..n], r);
      }
    }
  }

  lemma SyncEncodeGrows(s: State, a: SyncAnswer, bits: Bits)
    ensures s.trace.outputs <= SyncEncodeStep(s, a, bits).state.trace.outputs
  {
    hide First;
  }

  lemma OutputsGrow(s: State, e: Event)
    ensures s.trace.outputs <= Step(s, e).trace.outputs
  {
    match e
    case SyncEncode(a, bits) => SyncEncodeGrows(s, a, bits);
    case DrainOutput(_) =>
    case _ => SilentStep(s, e);
  }

  lemma {:induction false} OfOneStream(stream: nat, os: seq<Output>, r: nat)
    ensures OfStream(PacketsOf(stream, os), r) == if r == stream then PacketsOf(stream, os) else []
    decreases |os|
  {
    if os != [] {
      var ps, n := PacketsOf(stream, os), |os| - 1;
      OfOneStream(stream, os[..n], r);
      OfStreamAppend(PacketsOf(stream, os[..n]), PacketOf(stream, os[n]), r);
    }
  }

  lemma {:induction false} PacketsConcat(stream: nat, os: seq<Output>, more: seq<Output>)
    ensures PacketsOf(stream, os + more) == PacketsOf(stream, os) + PacketsOf(stream, more)
  {
  }

  /** Of stream `r`, what was received and what is queued are all packets of its route. */
  ghost predicate StreamKept(s: System, r: nat)
    requires r < |s.routes|
  {
    OfStream(s.received + s.queue, r) == PacketsOf(r, s.routes[r].trace.outputs)
  }

  lemma PollKeeps(s: System, hasBuffer: bool, capacity: nat, r: nat)
    requires r < |s.routes| && StreamKept(s, r)
    ensures StreamKept(Next(s, Poll(hasBuffer, capacity)), r)
  {
    var t := Next(s, Poll(hasBuffer, capacity));
    if t != s { assert t.received + t.queue == s.received + s.queue; }
  }

  lemma RouteKeeps(s: System, x: nat, e: Event, r: nat)
    requires r < |s.routes| && x < |s.routes| && StreamKept(s, r)
    ensures |Next(s, OnRoute(x, e)).routes| == |s.routes| && StreamKept(Next(s, OnRoute(x, e)), r)
  {
    hide Step, OfStream, PacketsOf;
    var t := Next(s, OnRoute(x, e));
    var more := Fresh(s.routes[x], t.routes[x]);
    OutputsGrow(s.routes[x], e);
    assert t.received + t.queue == (s.received + s.queue) + PacketsOf(x, more);
    OfStreamConcat(s.received + s.queue, PacketsOf(x, more), r);
    OfOneStream(x, more, r);
    if x == r {
      assert t.routes[r].trace.outputs == s.routes[r].trace.outputs + more;
      PacketsConcat(r, s.routes[r].trace.outputs, more);
    } else {
      assert OfStream(s.received + s.queue, r) + [] == OfStream(s.received + s.queue, r);
    }
  }

  lemma {:induction false} StreamsKept(depths: seq<nat>, acts: seq<Act>, r: nat)
    requires r < |depths|
    ensures |After(depths, acts).routes| == |depths| && StreamKept(After(depths, acts), r)
    decreases |acts|
  {
    if acts == [] {
      EmptyStart(depths, r);
    } else {
      hide Step, Next, StreamKept;
      var n := |acts| - 1;
      var s := After(depths, acts[..n]);
      StreamsKept(depths, acts[..n], r);
      NextRoute(s, acts[n], r);
      match acts[n]
      case Poll(hasBuffer, capacity) => PollKeeps(s, hasBuffer, capacity, r);
      case OnRoute(x, e) => if x < |s.routes| { RouteKeeps(s, x, e, r); } else { NoRoute(s, x, e); }
    }
  }

  lemma NoRoute(s: System, x: nat, e: Event)
    requires x >= |s.routes|
    ensures Next(s, OnRoute(x, e)) == s
  {
  }

  lemma EmptyStart(depths: seq<nat>, r: nat)
    requires r < |depths|
    ensures Start(depths).routes[r].trace.outputs == [] && Start(depths).received + Start(depths).queue == []
  {
  }

  /** A poll hands out the front packet exactly when there is one and it fits the buffer. */
  lemma PollHandsOut(s: System, hasBuffer: bool, capacity: nat)
    ensures var t := Next(s, Poll(hasBuffer, capacity));
            var fits := s.queue != [] && hasBuffer && |s.queue[0].data| <= capacity;
            && t.routes == s.routes
            && t.received == s.received + (if fits then [s.queue[0]] else [])
            && t.queue == if fits then s.queue[1..] else s.queue
  {
  }

  /** For every interleaving of routes and polls: the n-th packet a caller received for a stream
      is the n-th packet of its route's run.  So it carries number n, and unless draining the
      encoder produced it, it is the non-empty bitstream of a completed encode with the user
      pointer of its frame, these encodes being in the order of the frames. */
  lemma EndToEnd(depths: seq<nat>, acts: seq<Act>, r: nat)
    requires r < |depths|
    ensures var route := Run(Init(depths[r]), StepsOf(acts, r));
            var mine := OfStream(After(depths, acts).received, r);
            && Bounds(route) && |mine| <= |route.trace.outputs| && InTurn(route.trace.outputs)
            && forall n :: 0 <= n < |mine| ==>
                 mine[n] == PacketOf(r, route.trace.outputs[n]) && mine[n].dts == n && Tells(route, n)
  {
    hide Run, Init;
    RoutesRunAlone(depths, acts, r);
    StreamsKept(depths, acts, r);
    PacketTheorem(depths[r], StepsOf(acts, r));
    var s := After(depths, acts);
    OfStreamConcat(s.received, s.queue, r);
    var mine, all := OfStream(s.received, r), OfStream(s.received + s.queue, r);
    assert |all| == |mine| + |OfStream(s.queue, r)|;
    var route := s.routes[r];
    forall n | 0 <= n < |mine|
      ensures mine[n] == PacketOf(r, route.trace.outputs[n]) && mine[n].dts == n && Tells(route, n)
    {
      assert mine[n] == all[n] && Tells(route, n);
    }
  }
}
