/** Asynchronous input of many routes: producers append to bounded queues while a fixed set
    of workers, each owning the routes of one residue class, takes packets out.  Every step
    below is one critical section; producers and workers interleave freely. */
module AsyncIngress {
  import opened Basics
  import opened Arith

  datatype Policy = Reject | DropOldest

  /** Limits as configured; values that are not positive select defaults.  `hardware` is the
      number of hardware threads, or 0 when unknown. */
  datatype Config = Config(maxInput: int, maxQueue: int, workers: int, hardware: nat, policy: Policy)

  function QueueLimit(c: Config): (r: nat)
    ensures r > 0
  {
    if c.maxInput > 0 then c.maxInput else if c.maxQueue > 0 then c.maxQueue else 128
  }

  /** At least one worker and never more than routes. */
  function WorkerCount(c: Config, routes: nat): (r: nat)
    ensures r >= 1 && (routes > 0 ==> r <= routes)
  {
    var wanted := if c.workers > 0 then c.workers else if c.hardware > 0 then Min(c.hardware, 8) else 4;
    Max(1, Min(wanted, Max(1, routes)))
  }

  /** Queue of one route and its history.  Packets are named by their acceptance number;
      `payloads` holds what was accepted. */
  datatype Route = Route(
    queue: seq<nat>,
    processing: bool,
    payloads: seq<int>,
    dropped: set<nat>,
    processed: seq<nat>,
    refused: nat)

  /** Where a worker stands in its step on the route under its cursor. */
  datatype Phase = Arrived | Holding(packet: nat) | FoundEmpty | WillPoll | Polling | Finishing

  datatype Worker = Worker(cursor: nat, phase: Phase)

  datatype State = State(routes: seq<Route>, workers: seq<Worker>, limit: nat, policy: Policy)

  /** `hasWork` is what the pipeline answers when asked whether it has work left. */
  datatype Event =
    | Push(route: nat, payload: int)
    | Work(worker: nat, hasWork: bool)

  function EmptyRoute(): Route {
    Route([], false, [], {}, [], 0)
  }

  function Init(routeCount: nat, c: Config): State {
    var workers := WorkerCount(c, routeCount);
    State(seq(routeCount, _ => EmptyRoute()), seq(workers, w requires 0 <= w < workers => Worker(w, Arrived)),
          QueueLimit(c), c.policy)
  }

  /** Enqueueing under the input lock. */
  function Enqueue(r: Route, payload: int, limit: nat, policy: Policy): Route {
    if |r.queue| < limit then
      r.(queue := r.queue + [|r.payloads|], payloads := r.payloads + [payload])
    else if policy == DropOldest && r.queue != [] then
      r.(queue := r.queue[1..] + [|r.payloads|], payloads := r.payloads + [payload],
         dropped := r.dropped + {r.queue[0]})
    else r.(refused := r.refused + 1)
  }

  /** The owner takes the oldest packet out. */
  function Taken(r: Route): Route
    requires r.queue != []
  {
    r.(queue := r.queue[1..], processing := true)
  }

  function Processed(r: Route, packet: nat): Route {
    r.(processed := r.processed + [packet])
  }

  /** The scan of a worker goes up in strides of the worker count and starts over. */
  function NextCursor(w: nat, cursor: nat, workerCount: nat, routeCount: nat): nat {
    if cursor + workerCount < routeCount then cursor + workerCount else w
  }

  function WorkStep(s: State, w: nat, hasWork: bool): State
    requires w < |s.workers| && s.workers[w].cursor < |s.routes|
  {
    var me := s.workers[w];
    var r := s.routes[me.cursor];
    var moved := Worker(NextCursor(w, me.cursor, |s.workers|, |s.routes|), Arrived);
    match me.phase
    case Arrived =>
      if r.queue != [] then
        s.(routes := s.routes[me.cursor := Taken(r)],
           workers := s.workers[w := me.(phase := Holding(r.queue[0]))])
      else s.(workers := s.workers[w := me.(phase := FoundEmpty)])
    case FoundEmpty => s.(workers := s.workers[w := if hasWork then me.(phase := WillPoll) else moved])
    case WillPoll =>
      s.(routes := s.routes[me.cursor := r.(processing := true)], workers := s.workers[w := me.(phase := Polling)])
    case Holding(k) =>
      s.(routes := s.routes[me.cursor := Processed(r, k)],
         workers := s.workers[w := me.(phase := Finishing)])
    case Polling => s.(workers := s.workers[w := me.(phase := Finishing)])
    case Finishing =>
      s.(routes := s.routes[me.cursor := r.(processing := false)], workers := s.workers[w := moved])
  }

  function Step(s: State, e: Event): State {
    match e
    case Push(i, payload) =>
      if i < |s.routes| then s.(routes := s.routes[i := Enqueue(s.routes[i], payload, s.limit, s.policy)]) else s
    case Work(w, hasWork) =>
      if w < |s.workers| && s.workers[w].cursor < |s.routes| then WorkStep(s, w, hasWork) else s
  }

  function Run(s: State, es: seq<Event>): State {
    if es == [] then s else Step(Run(s, es[..|es| - 1]), es[|es| - 1])
  }

  // ----- limits

  /** The input limit has precedence over the general queue limit; without either it is 128. */
  lemma LimitPrecedence(c: Config)
    ensures c.maxInput > 0 ==> QueueLimit(c) == c.maxInput
    ensures c.maxInput <= 0 < c.maxQueue ==> QueueLimit(c) == c.maxQueue
    ensures c.maxInput <= 0 && c.maxQueue <= 0 ==> QueueLimit(c) == 128
  {
  }

  /** As many workers as configured, else as hardware threads up to 8, else 4 ... */
  predicate Wanted(c: Config, n: nat) {
    && (c.workers > 0 ==> n == c.workers)
    && (c.workers <= 0 && c.hardware in {1, 2, 3, 4, 5, 6, 7} ==> n == c.hardware)
    && (c.workers <= 0 && c.hardware >= 8 ==> n == 8)
    && (c.workers <= 0 && c.hardware == 0 ==> n == 4)
  }

  /** ... unless there are fewer routes. */
  lemma WorkersWanted(c: Config, routes: nat, n: nat)
    requires routes > 0 && Wanted(c, n)
    ensures n <= routes ==> WorkerCount(c, routes) == n
    ensures n > routes ==> WorkerCount(c, routes) == routes
  {
  }

  // ----- what becomes of every push

  /** The payloads pushed to a route, in order. */
  function PushedTo(es: seq<Event>, r: nat): seq<int> {
    if es == [] then []
    else
      var e := es[|es| - 1];
      PushedTo(es[..|es| - 1], r) + if e.Push? && e.route == r then [e.payload] else []
  }

  /** Every push is accepted, or refused because the queue is full. */
  function AcceptedBy(s: State, es: seq<Event>, r: nat): seq<int> {
    if es == [] then []
    else
      var e, before := es[|es| - 1], Run(s, es[..|es| - 1]);
      AcceptedBy(s, es[..|es| - 1], r) +
      if e.Push? && e.route == r < |before.routes|
         && (|before.routes[r].queue| < before.limit || (before.policy == DropOldest && before.routes[r].queue != []))
      then [e.payload] else []
  }

  lemma WorkAcceptsNothing(s: State, w: nat, hasWork: bool, r: nat)
    requires w < |s.workers| && s.workers[w].cursor < |s.routes| && r < |s.routes|
    ensures var t := WorkStep(s, w, hasWork);
            && |t.routes| == |s.routes| && t.limit == s.limit && t.policy == s.policy
            && t.routes[r].payloads == s.routes[r].payloads && t.routes[r].refused == s.routes[r].refused
            && t.routes[r].dropped == s.routes[r].dropped
  {
  }

  lemma PushAccepts(s: State, i: nat, payload: int, r: nat)
    requires r < |s.routes|
    ensures var t := Step(s, Push(i, payload));
            var room := |s.routes[r].queue| < s.limit || (s.policy == DropOldest && s.routes[r].queue != []);
            && |t.routes| == |s.routes| && t.limit == s.limit && t.policy == s.policy
            && t.routes[r].payloads == s.routes[r].payloads + (if i == r && room then [payload] else [])
            && t.routes[r].refused == s.routes[r].refused + B2N(i == r && !room)
  {
  }

  /** In every run the accepted payloads of a route are those of the pushes that found room, or
      found the queue full under the drop-oldest policy, in order; all others were refused. */
  lemma {:induction false} AcceptanceTheorem(s: State, es: seq<Event>, r: nat)
    requires r < |s.routes| && s.routes[r].payloads == [] && s.routes[r].refused == 0
    ensures var t := Run(s, es);
            && |t.routes| == |s.routes| && t.limit == s.limit && t.policy == s.policy
            && t.routes[r].payloads == AcceptedBy(s, es, r)
            && t.routes[r].refused == |PushedTo(es, r)| - |AcceptedBy(s, es, r)|
    decreases |es|
  {
    if es != [] {
      hide Step;
      var n := |es| - 1;
      var u := Run(s, es[..n]);
      AcceptanceTheorem(s, es[..n], r);
      match es[n]
      case Push(i, payload) => PushAccepts(u, i, payload, r);
      case Work(w, hasWork) => WorkAccepts(u, w, hasWork, r);
    }
  }

  lemma WorkAccepts(s: State, w: nat, hasWork: bool, r: nat)
    requires r < |s.routes|
    ensures var t := Step(s, Work(w, hasWork));
            && |t.routes| == |s.routes| && t.limit == s.limit && t.policy == s.policy
            && t.routes[r].payloads == s.routes[r].payloads && t.routes[r].refused == s.routes[r].refused
  {
    hide WorkStep;
    if w < |s.workers| && s.workers[w].cursor < |s.routes| { WorkAcceptsNothing(s, w, hasWork, r); }
  }

  /** With the drop-oldest policy every push is accepted. */
  lemma {:induction false} NothingRefused(routeCount: nat, c: Config, es: seq<Event>, r: nat)
    requires r < routeCount && c.policy == DropOldest
    ensures AcceptedBy(Init(routeCount, c), es, r) == PushedTo(es, r)
    decreases |es|
  {
    if es != [] {
      hide Step, Init, QueueLimit;
      var n := |es| - 1;
      NothingRefused(routeCount, c, es[..n], r);
      InitIs(routeCount, c, r);
      AcceptanceTheorem(Init(routeCount, c), es[..n], r);
    }
  }

  lemma InitIs(routeCount: nat, c: Config, r: nat)
    requires r < routeCount
    ensures var s := Init(routeCount, c);
            |s.routes| == routeCount && s.routes[r] == EmptyRoute() && s.limit == QueueLimit(c) && s.policy == c.policy
  {
  }

  /** A packet is dropped only by a push that finds the queue full, and it is the oldest one. */
  lemma DropsWhenFull(s: State, e: Event, r: nat)
    requires r < |s.routes|
    ensures var t := Step(s, e);
            && |t.routes| == |s.routes|
            && (t.routes[r].dropped != s.routes[r].dropped ==>
                  && e.Push? && e.route == r && s.policy == DropOldest
                  && |s.routes[r].queue| >= s.limit && s.routes[r].queue != []
                  && t.routes[r].dropped == s.routes[r].dropped + {s.routes[r].queue[0]})
  {
  }

  // ----- what a worker does on its round

  /** Three steps of a worker that finds a packet: the oldest packet of the route under its cursor
      is processed, whatever the pipeline answers, and the worker goes on to its next route. */
  lemma VisitProcesses(s: State, w: nat, a: bool, b: bool, c: bool)
    requires w < |s.workers| && s.workers[w].cursor < |s.routes| && s.workers[w].phase == Arrived
    requires s.routes[s.workers[w].cursor].queue != []
    ensures var r := s.workers[w].cursor;
            var t := Step(Step(Step(s, Work(w, a)), Work(w, b)), Work(w, c));
            && |t.routes| == |s.routes| && |t.workers| == |s.workers|
            && t.routes[r].processed == s.routes[r].processed + [s.routes[r].queue[0]]
            && t.routes[r].queue == s.routes[r].queue[1..] && !t.routes[r].processing
            && t.workers[w] == Worker(NextCursor(w, r, |s.workers|, |s.routes|), Arrived)
  {
    var r := s.workers[w].cursor;
    var s1 := Step(s, Work(w, a));
    var s2 := Step(s1, Work(w, b));
    assert s1.workers[w] == Worker(r, Holding(s.routes[r].queue[0]));
    assert s2.workers[w] == Worker(r, Finishing);
  }

  /** Without a packet and without work in the pipeline the worker goes on. */
  lemma EmptyVisit(s: State, w: nat, a: bool)
    requires w < |s.workers| && s.workers[w].cursor < |s.routes| && s.workers[w].phase == Arrived
    requires s.routes[s.workers[w].cursor].queue == []
    ensures var t := Step(Step(s, Work(w, a)), Work(w, false));
            && |t.workers| == |s.workers| && t.routes == s.routes
            && t.workers[w] == Worker(NextCursor(w, s.workers[w].cursor, |s.workers|, |s.routes|), Arrived)
  {
    var s1 := Step(s, Work(w, a));
    assert s1.workers[w] == Worker(s.workers[w].cursor, FoundEmpty) && s1.routes == s.routes;
  }

  /** When the pipeline has work left, the worker marks the route and polls it, then goes on. */
  lemma PollingVisit(s: State, w: nat, a: bool, b: bool, c: bool)
    requires w < |s.workers| && s.workers[w].cursor < |s.routes| && s.workers[w].phase == FoundEmpty
    ensures var r := s.workers[w].cursor;
            var t := Step(Step(s, Work(w, true)), Work(w, a));
            var u := Step(Step(t, Work(w, b)), Work(w, c));
            && |t.workers| == |u.workers| == |s.workers| && |t.routes| == |u.routes| == |s.routes|
            && t.routes[r].processing && t.workers[w] == Worker(r, Polling)
            && u.routes == s.routes[r := s.routes[r].(processing := false)]
            && u.workers[w] == Worker(NextCursor(w, r, |s.workers|, |s.routes|), Arrived)
  {
    var r := s.workers[w].cursor;
    var s1 := Step(s, Work(w, true));
    assert s1.workers[w] == Worker(r, WillPoll) && s1.routes == s.routes;
    var t := Step(s1, Work(w, a));
    assert t.workers[w] == Worker(r, Polling);
    PollEnds(t, w, b, c);
  }

  lemma PollEnds(s: State, w: nat, b: bool, c: bool)
    requires w < |s.workers| && s.workers[w].cursor < |s.routes| && s.workers[w].phase == Polling
    ensures var r := s.workers[w].cursor;
            var u := Step(Step(s, Work(w, b)), Work(w, c));
            && |u.workers| == |s.workers|
            && u.routes == s.routes[r := s.routes[r].(processing := false)]
            && u.workers[w] == Worker(NextCursor(w, r, |s.workers|, |s.routes|), Arrived)
  {
    var s1 := Step(s, Work(w, b));
    assert s1.workers[w] == Worker(s.workers[w].cursor, Finishing) && s1.routes == s.routes;
  }

  /** The cursor of a worker after k visits, starting on its first route. */
  function CursorAfter(w: nat, workers: nat, routes: nat, k: nat): nat {
    if k == 0 then w else NextCursor(w, CursorAfter(w, workers, routes, k - 1), workers, routes)
  }

  /** The visits of a worker go up in strides of the worker count ... */
  lemma {:induction false} Strides(w: nat, workers: nat, routes: nat, k: nat)
    requires w < workers && w + k * workers < routes
    ensures CursorAfter(w, workers, routes, k) == w + k * workers
  {
    if k > 0 {
      assert k * workers == (k - 1) * workers + workers;
      Strides(w, workers, routes, k - 1);
    }
  }

  /** ... and start over behind the last one: every route of the worker is visited once a round. */
  lemma RoundTrip(w: nat, workers: nat, routes: nat, k: nat)
    requires w < workers && w + k * workers < routes <= w + (k + 1) * workers
    ensures CursorAfter(w, workers, routes, k + 1) == w
  {
    assert (k + 1) * workers == k * workers + workers;
    Strides(w, workers, routes, k);
  }

  // ----- stride sharding

  /** A worker visits exactly the routes of its residue class, so each route has one owner. */
  method VisitedRoutes(w: nat, workerCount: nat, routeCount: nat) returns (visited: seq<nat>)
    requires w < workerCount
    ensures forall r: nat :: r in visited <==> r < routeCount && r % workerCount == w
  {
    visited := [];
    var i := w;
    DivModUnique(w, workerCount, 0, w);
    forall r: nat | r < w ensures r % workerCount != w {
      DivModUnique(r, workerCount, 0, r);
    }
    while i < routeCount
      invariant i % workerCount == w
      invariant forall r: nat :: r in visited <==> r < i && r < routeCount && r % workerCount == w
      decreases routeCount - i
    {
      visited := visited + [i];
      AddKeepsRemainder(i, workerCount);
      forall r: nat | i < r < i + workerCount ensures r % workerCount != w {
        NoneBetween(i, r, workerCount);
      }
      i := i + workerCount;
    }
  }

  lemma NoneBetween(i: nat, r: nat, c: nat)
    requires c > 0 && i < r < i + c
    ensures r % c != i % c
  {
    var q := i / c;
    assert i == q * c + i % c && (q + 1) * c == q * c + c;
    if r < (q + 1) * c {
      DivModUnique(r, c, q, r - q * c);
    } else {
      DivModUnique(r, c, q + 1, r - (q + 1) * c);
    }
  }

  // ----- what every interleaving keeps

  /** The accepted packets that were not dropped, in acceptance order. */
  function Survivors(n: nat, dropped: set<nat>): seq<nat> {
    if n == 0 then []
    else Survivors(n - 1, dropped) + (if n - 1 in dropped then [] else [n - 1])
  }

  lemma {:induction false} SurvivorsBelow(n: nat, dropped: set<nat>)
    ensures forall i :: 0 <= i < |Survivors(n, dropped)| ==>
            Survivors(n, dropped)[i] < n && Survivors(n, dropped)[i] !in dropped
    ensures forall i, j :: 0 <= i < j < |Survivors(n, dropped)| ==> Survivors(n, dropped)[i] < Survivors(n, dropped)[j]
  {
    if n > 0 {
      SurvivorsBelow(n - 1, dropped);
    }
  }

  /** Dropping one more survivor takes exactly that one out. */
  lemma {:induction false} SurvivorsDrop(n: nat, dropped: set<nat>, i: nat)
    requires i < |Survivors(n, dropped)|
    ensures var s := Survivors(n, dropped);
            Survivors(n, dropped + {s[i]}) == s[..i] + s[i + 1..]
  {
    var s := Survivors(n, dropped);
    var m := Survivors(n - 1, dropped);
    SurvivorsBelow(n, dropped);
    SurvivorsBelow(n - 1, dropped);
    if i < |m| {
      SurvivorsDrop(n - 1, dropped, i);
      assert m[i] == s[i];
    } else {
      SurvivorsUnaffected(n - 1, dropped, n - 1);
    }
  }

  lemma {:induction false} SurvivorsUnaffected(n: nat, dropped: set<nat>, x: nat)
    requires x >= n
    ensures Survivors(n, dropped + {x}) == Survivors(n, dropped)
  {
    if n > 0 {
      SurvivorsUnaffected(n - 1, dropped, x);
    }
  }

  function Owner(s: State, r: nat): nat
    requires |s.workers| > 0
    ensures Owner(s, r) < |s.workers|
  {
    r % |s.workers|
  }

  /** The owner of a route is inside its processing section on that route. */
  predicate Attended(s: State, r: nat)
    requires |s.workers| > 0
  {
    var me := s.workers[Owner(s, r)];
    me.cursor == r && (me.phase.Polling? || me.phase.Finishing? || me.phase.Holding?)
  }

  /** The packet the owner has taken out and not yet processed. */
  function Held(s: State, r: nat): seq<nat>
    requires |s.workers| > 0
  {
    var me := s.workers[Owner(s, r)];
    if me.cursor == r && me.phase.Holding? then [me.phase.packet] else []
  }

  ghost predicate RouteKept(s: State, r: nat)
    requires |s.workers| > 0 && r < |s.routes|
  {
    var route := s.routes[r];
    && (route.processing <==> Attended(s, r))
    && route.processed + Held(s, r) + route.queue == Survivors(|route.payloads|, route.dropped)
    && (forall k :: k in route.dropped ==> k < |route.payloads|)
    && (|route.queue| <= s.limit || route.queue == [])
  }

  ghost predicate Kept(s: State) {
    && 0 < |s.workers| <= |s.routes| && s.limit > 0
    && (forall w :: 0 <= w < |s.workers| ==> s.workers[w].cursor < |s.routes| && s.workers[w].cursor % |s.workers| == w)
    && (forall r :: 0 <= r < |s.routes| ==> RouteKept(s, r))
  }

  lemma KeptInit(routeCount: nat, c: Config)
    requires routeCount > 0
    ensures Kept(Init(routeCount, c))
  {
    var n := WorkerCount(c, routeCount);
    forall w | 0 <= w < n ensures w % n == w {
      DivModUnique(w, n, 0, w);
    }
  }

  lemma EnqueueKeeps(route: Route, payload: int, limit: nat, policy: Policy, before: seq<nat>)
    requires before + route.queue == Survivors(|route.payloads|, route.dropped)
    requires forall k :: k in route.dropped ==> k < |route.payloads|
    ensures var t := Enqueue(route, payload, limit, policy);
            && before + t.queue == Survivors(|t.payloads|, t.dropped)
            && (forall k :: k in t.dropped ==> k < |t.payloads|)
            && t.processing == route.processing && t.processed == route.processed
  {
    var n := |route.payloads|;
    SurvivorsBelow(n, route.dropped);
    if |route.queue| >= limit && policy == DropOldest && route.queue != [] {
      DropFrontKeeps(route, before);
      assert before + (route.queue[1..] + [n]) == (before + route.queue[1..]) + [n];
    } else if |route.queue| < limit {
      assert before + (route.queue + [n]) == (before + route.queue) + [n];
    }
  }

  lemma DropFrontKeeps(route: Route, before: seq<nat>)
    requires before + route.queue == Survivors(|route.payloads|, route.dropped) && route.queue != []
    ensures before + route.queue[1..] == Survivors(|route.payloads|, route.dropped + {route.queue[0]})
    ensures route.queue[0] < |route.payloads|
  {
    var all := Survivors(|route.payloads|, route.dropped);
    SurvivorsBelow(|route.payloads|, route.dropped);
    assert all[|before|] == route.queue[0];
    SurvivorsDrop(|route.payloads|, route.dropped, |before|);
    assert before == all[..|before|] && route.queue[1..] == all[|before| + 1..];
  }

  lemma PushKeeps(s: State, i: nat, payload: int)
    requires Kept(s) && i < |s.routes|
    ensures Kept(Step(s, Push(i, payload)))
  {
    var t := Step(s, Push(i, payload));
    forall r | 0 <= r < |t.routes| ensures RouteKept(t, r) {
      assert RouteKept(s, r);
      if r == i {
        EnqueueKeeps(s.routes[i], payload, s.limit, s.policy, s.routes[i].processed + Held(s, i));
      }
    }
  }

  lemma WorkKeepsHere(s: State, w: nat, hasWork: bool)
    requires Kept(s) && w < |s.workers|
    ensures RouteKept(WorkStep(s, w, hasWork), s.workers[w].cursor)
  {
    var r := s.workers[w].cursor;
    assert RouteKept(s, r);
    var q := s.routes[r].queue;
    if q != [] { assert s.routes[r].processed + q == s.routes[r].processed + [q[0]] + q[1..]; }
  }

  lemma WorkKeepsElsewhere(s: State, w: nat, hasWork: bool, r: nat)
    requires Kept(s) && w < |s.workers| && r < |s.routes| && r != s.workers[w].cursor
    ensures RouteKept(WorkStep(s, w, hasWork), r)
  {
    assert RouteKept(s, r);
  }

  lemma WorkKeeps(s: State, w: nat, hasWork: bool)
    requires Kept(s) && w < |s.workers|
    ensures Kept(WorkStep(s, w, hasWork))
  {
    var t := WorkStep(s, w, hasWork);
    AddKeepsRemainder(s.workers[w].cursor, |s.workers|);
    DivModUnique(w, |s.workers|, 0, w);
    forall r | 0 <= r < |t.routes| ensures RouteKept(t, r) {
      if r == s.workers[w].cursor { WorkKeepsHere(s, w, hasWork); } else { WorkKeepsElsewhere(s, w, hasWork, r); }
    }
  }

  lemma {:induction false} KeptRun(s: State, es: seq<Event>)
    requires Kept(s)
    ensures Kept(Run(s, es)) && |Run(s, es).routes| == |s.routes| && Run(s, es).limit == s.limit
    decreases |es|
  {
    if es != [] {
      KeptRun(s, es[..|es| - 1]);
      var u := Run(s, es[..|es| - 1]);
      match es[|es| - 1]
      case Push(i, payload) => if i < |u.routes| { PushKeeps(u, i, payload); }
      case Work(w, hasWork) => if w < |u.workers| { WorkKeeps(u, w, hasWork); }
    }
  }

  /** For every interleaving of producers and workers: what a route processed is a prefix of
      the accepted packets that were not dropped, in acceptance order; the rest is in the
      owner's hands or queued; and the queue never exceeds its limit. */
  lemma IngressTheorem(routeCount: nat, c: Config, es: seq<Event>, r: nat)
    requires r < routeCount
    ensures var s := Run(Init(routeCount, c), es);
            && r < |s.routes| && |s.workers| > 0
            && s.routes[r].processed + Held(s, r) + s.routes[r].queue ==
               Survivors(|s.routes[r].payloads|, s.routes[r].dropped)
            && |s.routes[r].queue| <= QueueLimit(c)
  {
    KeptInit(routeCount, c);
    KeptRun(Init(routeCount, c), es);
    assert RouteKept(Run(Init(routeCount, c), es), r);
  }

  lemma {:induction false} SurvivorCount(n: nat, dropped: set<nat>)
    requires forall k :: k in dropped ==> k < n
    ensures |Survivors(n, dropped)| + |dropped| == n
  {
    if n == 0 {
      assert dropped == {};
    } else if n - 1 in dropped {
      var fewer := dropped - {n - 1};
      SurvivorCount(n - 1, fewer);
      SurvivorsUnaffected(n - 1, fewer, n - 1);
      assert dropped == fewer + {n - 1};
    } else {
      SurvivorCount(n - 1, dropped);
    }
  }

  /** Every accepted packet was processed, dropped, is being processed, or is queued. */
  lemma PacketsConserved(routeCount: nat, c: Config, es: seq<Event>, r: nat)
    requires r < routeCount
    ensures var s := Run(Init(routeCount, c), es);
            && r < |s.routes| && |s.workers| > 0
            && var route := s.routes[r];
            |route.payloads| == |route.processed| + |Held(s, r)| + |route.queue| + |route.dropped|
  {
    KeptInit(routeCount, c);
    KeptRun(Init(routeCount, c), es);
    var s := Run(Init(routeCount, c), es);
    assert RouteKept(s, r);
    SurvivorCount(|s.routes[r].payloads|, s.routes[r].dropped);
    assert |s.routes[r].processed + Held(s, r) + s.routes[r].queue|
        == |s.routes[r].processed| + |Held(s, r)| + |s.routes[r].queue|;
  }

  /** The condition a flush waits for. */
  predicate Idle(route: Route) {
    route.queue == [] && !route.processing
  }

  /** An idle route has processed every accepted packet that was not dropped. */
  lemma IdleMeansProcessed(routeCount: nat, c: Config, es: seq<Event>, r: nat)
    requires r < routeCount
    requires var s := Run(Init(routeCount, c), es);
             r < |s.routes| && Idle(s.routes[r])
    ensures var route := Run(Init(routeCount, c), es).routes[r];
            route.processed == Survivors(|route.payloads|, route.dropped)
  {
    KeptInit(routeCount, c);
    KeptRun(Init(routeCount, c), es);
    var s := Run(Init(routeCount, c), es);
    assert RouteKept(s, r);
    assert Held(s, r) == [];
  }

  /** Without the drop-oldest policy nothing accepted is ever lost. */
  lemma {:induction false} RejectingNeverDrops(routeCount: nat, c: Config, es: seq<Event>, r: nat)
    requires c.policy == Reject && r < |Run(Init(routeCount, c), es).routes|
    ensures var s := Run(Init(routeCount, c), es);
            s.policy == Reject && s.routes[r].dropped == {}
    decreases |es|
  {
    if es != [] {
      RejectingNeverDrops(routeCount, c, es[..|es| - 1], r);
    }
  }

  // ----- the critical sections as they run

  class AsyncRoute {
    var inputQueue: seq<int>
    var asyncProcessing: bool
    const limit: nat
    const policy: Policy
    /** History; `numbers` names the packets of the queue. */
    ghost var numbers: seq<nat>
    ghost var payloads: seq<int>
    ghost var dropped: set<nat>
    ghost var processed: seq<nat>
    ghost var refused: nat

    ghost function View(): Route
      reads this
    {
      Route(numbers, asyncProcessing, payloads, dropped, processed, refused)
    }

    /** The queue holds the payloads of the packets it names. */
    ghost predicate Valid()
      reads this
    {
      && |numbers| == |inputQueue|
      && forall i :: 0 <= i < |numbers| ==> numbers[i] < |payloads| && inputQueue[i] == payloads[numbers[i]]
    }

    constructor (c: Config)
      ensures Valid() && View() == EmptyRoute() && limit == QueueLimit(c) && policy == c.policy
    {
      limit, policy := QueueLimit(c), c.policy;
      inputQueue, asyncProcessing := [], false;
      numbers, payloads, dropped, processed, refused := [], [], {}, [], 0;
    }

    method EnqueueAsyncPacket(payload: int) returns (accepted: bool)
      requires Valid()
      modifies this
      ensures Valid() && View() == Enqueue(old(View()), payload, limit, policy)
      ensures accepted <==> |old(inputQueue)| < limit || (policy == DropOldest && old(inputQueue) != [])
      ensures accepted ==> payloads == old(payloads) + [payload]
      ensures !accepted ==> inputQueue == old(inputQueue)
      ensures accepted && |old(inputQueue)| < limit ==> inputQueue == old(inputQueue) + [payload]
      ensures accepted && |old(inputQueue)| >= limit ==> inputQueue == old(inputQueue)[1..] + [payload]
    {
      if |inputQueue| >= limit {
        if policy == DropOldest && inputQueue != [] {
          dropped := dropped + {numbers[0]};
          inputQueue, numbers := inputQueue[1..], numbers[1..];
        } else {
          refused := refused + 1;
          return false;
        }
      }
      numbers, payloads := numbers + [|payloads|], payloads + [payload];
      inputQueue := inputQueue + [payload];
      return true;
    }

    /** First section of a worker's step: the oldest packet, if there is one. */
    method TakePacket() returns (havePacket: bool, packet: int, ghost number: nat)
      requires Valid()
      modifies this
      ensures Valid() && (havePacket <==> old(numbers) != [])
      ensures havePacket ==>
                && View() == Taken(old(View())) && number == old(numbers)[0]
                && number < |payloads| && packet == payloads[number] == old(inputQueue)[0]
                && inputQueue == old(inputQueue)[1..] && asyncProcessing
      ensures !havePacket ==> View() == old(View())
    {
      havePacket, packet, number := inputQueue != [], 0, 0;
      if havePacket {
        packet, number := inputQueue[0], numbers[0];
        inputQueue, numbers := inputQueue[1..], numbers[1..];
        asyncProcessing := true;
      }
    }

    method IsIdle() returns (idle: bool)
      requires Valid()
      ensures idle == Idle(View()) && (idle <==> inputQueue == [] && !asyncProcessing)
    {
      idle := inputQueue == [] && !asyncProcessing;
    }
  }
}
