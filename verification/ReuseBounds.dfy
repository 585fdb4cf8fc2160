/** How old the picture of a replaced frame can be: a bound in the refreshes that a failing
    Unmap makes the route miss, when the bound of eleven frames holds, and when no reset lies
    between a frame and its picture. */
module ReuseBounds {
  import opened Basics
  import opened Arith
  import opened StaticReuse

  // ----- where a reference comes from, at any interval

  /** Preparation `from` gave its picture, and every reuse step since has only shown it. */
  ghost predicate Survives(interval: nat, xs: seq<Call>, from: nat, n: nat)
    requires from < n <= |xs|
  {
    && xs[from].fate.Applied? && DecisionAt(interval, xs, from).count > 0 && xs[from].usable
    && forall k :: from < k < n && xs[k].fate.Applied? ==> ReplacedBy(interval, xs, k, from)
  }

  ghost predicate TakenFrom(r: Reference, x: Call) {
    r.width == x.width && r.height == x.height && r.picture == x.picture
  }

  ghost predicate FromEarlier(interval: nat, xs: seq<Call>, n: nat)
    requires n <= |xs|
  {
    var s := After(interval, xs[..n]);
    && s.calls == n
    && (s.reference.Some? ==>
          var r := s.reference.value;
          r.from < n && TakenFrom(r, xs[r.from]) && Survives(interval, xs, r.from, n))
  }

  /** After a preparation the reference is the old one, the frame itself, or gone. */
  lemma ReferenceNext(interval: nat, xs: seq<Call>, n: nat)
    requires n < |xs|
    ensures var s, t, x := After(interval, xs[..n]), After(interval, xs[..n + 1]), xs[n];
            && t.calls == s.calls + 1
            && (t.reference.Some? ==>
                  || (t.reference == s.reference && (x.fate.Applied? ==> Overwrites(s, interval, x)))
                  || (&& t.reference.value == Reference(x.width, x.height, x.picture, s.calls)
                      && x.fate.Applied? && DecisionAt(interval, xs, n).count > 0 && x.usable))
  {
    AfterNext(interval, xs, n + 1);
  }

  lemma {:induction false} FromEarlierHolds(interval: nat, xs: seq<Call>, n: nat)
    requires n <= |xs|
    ensures FromEarlier(interval, xs, n)
  {
    if n > 0 {
      hide After, Overwrites, DecisionAt;
      FromEarlierHolds(interval, xs, n - 1);
      ReferenceNext(interval, xs, n - 1);
    }
  }

  /** At any interval a replaced frame shows the picture of an earlier frame of the same shape,
      and every reuse step between the two showed that picture as well, so that no step saw a
      reset count, an unusable surface or another shape. */
  lemma OriginTheorem(interval: nat, xs: seq<Call>, i: nat, from: nat)
    requires i < |xs| && ReplacedBy(interval, xs, i, from)
    ensures from < i && xs[from].width == xs[i].width && xs[from].height == xs[i].height
    ensures Shown(After(interval, xs[..i]), interval, xs[i]) == xs[from].picture
    ensures Survives(interval, xs, from, i + 1)
  {
    hide After, DecisionFor;
    FromEarlierHolds(interval, xs, i);
  }

  // ----- age in missed refreshes, with one decision per preparation

  /** A decision that would have replaced or dropped the reference, without its reuse step. */
  predicate Missed(interval: nat, xs: seq<Call>, k: nat)
    requires k < |xs|
  {
    (xs[k].fate.Lost? || xs[k].fate.Skipped?) && !DecisionAt(interval, xs, k).candidate
  }

  function MissedIn(interval: nat, xs: seq<Call>, from: nat, n: nat): nat
    requires n <= |xs|
  {
    if n <= from then 0 else MissedIn(interval, xs, from, n - 1) + B2N(Missed(interval, xs, n - 1))
  }

  function UndecidedIn(xs: seq<Call>, from: nat, n: nat): nat
    requires n <= |xs|
  {
    if n <= from then 0 else UndecidedIn(xs, from, n - 1) + B2N(xs[n - 1].fate.Undecided?)
  }

  /** With fresh decisions the count after a decision is the count of the decision. */
  lemma CountAfter(interval: nat, xs: seq<Call>, n: nat)
    requires interval <= 1 && n < |xs|
    ensures var s, t := After(interval, xs[..n]), After(interval, xs[..n + 1]);
            && t.count == (if xs[n].fate.Undecided? then s.count else DecisionAt(interval, xs, n).count)
            && DecisionAt(interval, xs, n) == GateDecision(GateCount(s.count, xs[n].isStatic))
  {
    AfterNext(interval, xs, n + 1);
  }

  /** The reference after `n` preparations is no older than missed refreshes, preparations
      without a decision and the count allow. */
  ghost predicate AgeBound(interval: nat, xs: seq<Call>, n: nat)
    requires n <= |xs|
  {
    var s := After(interval, xs[..n]);
    s.reference.Some? ==>
      var from := s.reference.value.from;
      from < n && n - 1 - from <= 12 * MissedIn(interval, xs, from, n) + UndecidedIn(xs, from, n) + s.count % 12
  }

  lemma {:induction false} AgeBoundHolds(interval: nat, xs: seq<Call>, n: nat)
    requires interval <= 1 && n <= |xs|
    ensures AgeBound(interval, xs, n)
  {
    if n > 0 {
      hide After, MissedIn, UndecidedIn, DecisionAt;
      AgeBoundHolds(interval, xs, n - 1);
      FromEarlierHolds(interval, xs, n - 1);
      ReferenceNext(interval, xs, n - 1);
      CountAfter(interval, xs, n - 1);
      var s, t := After(interval, xs[..n - 1]), After(interval, xs[..n]);
      if t.reference.Some? && t.reference == s.reference {
        AgeGrows(interval, xs, n, s, t);
      }
    }
  }

  /** One more preparation that leaves the reference alone. */
  lemma AgeGrows(interval: nat, xs: seq<Call>, n: nat, s: State, t: State)
    requires interval <= 1 && 0 < n <= |xs| && AgeBound(interval, xs, n - 1)
    requires s == After(interval, xs[..n - 1]) && t == After(interval, xs[..n])
    requires t.reference.Some? && t.reference == s.reference
    requires xs[n - 1].fate.Applied? ==> DecisionAt(interval, xs, n - 1).candidate
    requires t.count == if xs[n - 1].fate.Undecided? then s.count else DecisionAt(interval, xs, n - 1).count
    requires DecisionAt(interval, xs, n - 1) == GateDecision(GateCount(s.count, xs[n - 1].isStatic))
    ensures AgeBound(interval, xs, n)
  {
    hide After, DecisionAt;
    var from, d := s.reference.value.from, DecisionAt(interval, xs, n - 1);
    assert MissedIn(interval, xs, from, n) ==
           MissedIn(interval, xs, from, n - 1) + B2N(Missed(interval, xs, n - 1));
    assert UndecidedIn(xs, from, n) == UndecidedIn(xs, from, n - 1) + B2N(xs[n - 1].fate.Undecided?);
    if d.candidate && !xs[n - 1].fate.Undecided? {
      assert t.count % 12 == s.count % 12 + 1;
    }
  }

  /** With a fresh decision per preparation, a replaced frame is at most 11 preparations younger
      than its picture, plus 12 for every missed refresh and 1 for every preparation without a
      decision in between; without missed refreshes all frames in between are static. */
  lemma AgeTheorem(interval: nat, xs: seq<Call>, i: nat, from: nat)
    requires interval <= 1 && i < |xs| && ReplacedBy(interval, xs, i, from)
    ensures from < i && i - from <= 11 + 12 * MissedIn(interval, xs, from, i) + UndecidedIn(xs, from, i)
    ensures MissedIn(interval, xs, from, i) == 0 ==>
              forall k :: from <= k <= i && !xs[k].fate.Undecided? ==> xs[k].isStatic
  {
    hide MissedIn, UndecidedIn;
    OriginTheorem(interval, xs, i, from);
    AgeBoundHolds(interval, xs, i);
    CountAfter(interval, xs, i);
    var s := After(interval, xs[..i]);
    assert (s.count + 1) % 12 != 0;
    assert s.count % 12 <= 10;
    if MissedIn(interval, xs, from, i) == 0 {
      forall k | from <= k <= i && !xs[k].fate.Undecided? ensures xs[k].isStatic {
        CountAfter(interval, xs, k);
        if from < k < i { NoneMissed(interval, xs, from, i, k); }
      }
    }
  }

  lemma {:induction false} NoneMissed(interval: nat, xs: seq<Call>, from: nat, n: nat, k: nat)
    requires from <= k < n <= |xs| && MissedIn(interval, xs, from, n) == 0
    ensures !Missed(interval, xs, k)
    decreases n
  {
    hide Missed;
    if k < n - 1 { NoneMissed(interval, xs, from, n - 1, k); }
  }

  /** Length of the static run of decisions that ends before preparation n. */
  function StaticRun(xs: seq<Call>, n: nat): nat
    requires n <= |xs|
  {
    if n == 0 then 0
    else if xs[n - 1].fate.Undecided? then StaticRun(xs, n - 1)
    else if xs[n - 1].isStatic then StaticRun(xs, n - 1) + 1 else 0
  }

  lemma {:induction false} CountIsRun(interval: nat, xs: seq<Call>, n: nat)
    requires interval <= 1 && n <= |xs|
    ensures After(interval, xs[..n]).count == StaticRun(xs, n)
  {
    if n > 0 {
      CountIsRun(interval, xs, n - 1);
      CountAfter(interval, xs, n - 1);
    }
  }

  /** With a fresh decision per preparation, a reuse step replaces a frame exactly when it is at
      least the third of its static run, not the twelfth, twenty-fourth and so on, and its
      surface can be copied and has the shape of the reference. */
  lemma ReplacedIff(interval: nat, xs: seq<Call>, i: nat)
    requires interval <= 1 && i < |xs| && xs[i].fate.Applied?
    ensures Overwrites(After(interval, xs[..i]), interval, xs[i]) <==>
            && StaticRun(xs, i + 1) >= 3 && StaticRun(xs, i + 1) % 12 != 0
            && xs[i].usable && SameShape(After(interval, xs[..i]).reference, xs[i])
  {
    CountIsRun(interval, xs, i);
  }

  // ----- fresh and cached decisions

  /** How many of the first n preparations decided. */
  function Decided(xs: seq<Call>, n: nat): nat
    requires n <= |xs|
  {
    if n == 0 then 0 else Decided(xs, n - 1) + if xs[n - 1].fate.Undecided? then 0 else 1
  }

  /** Without an interval every decision is fresh; with one the first, and every one that many
      decisions later, and those before a fresh one came with a map. */
  predicate IsFresh(interval: nat, xs: seq<Call>, k: nat)
    requires k < |xs|
    decreases k, 1
  {
    && !xs[k].fate.Undecided?
    && (interval <= 1 || Decided(xs, k) % interval == 0 || LastMapped(interval, xs, k).None?)
  }

  /** The last fresh decision with a map before preparation n. */
  function LastMapped(interval: nat, xs: seq<Call>, n: nat): (r: Option<nat>)
    requires n <= |xs|
    ensures r.Some? ==> r.value < n
    decreases n, 0
  {
    if n == 0 then None
    else if xs[n - 1].hasMap && IsFresh(interval, xs, n - 1) then Some(n - 1)
    else LastMapped(interval, xs, n - 1)
  }

  /** Length of the static run among the fresh decisions before preparation n. */
  function FreshRun(interval: nat, xs: seq<Call>, n: nat): nat
    requires n <= |xs|
  {
    if n == 0 then 0
    else if !IsFresh(interval, xs, n - 1) then FreshRun(interval, xs, n - 1)
    else if xs[n - 1].isStatic then FreshRun(interval, xs, n - 1) + 1 else 0
  }

  ghost predicate Accounts(interval: nat, xs: seq<Call>, n: nat)
    requires n <= |xs|
  {
    var s, last := After(interval, xs[..n]), LastMapped(interval, xs, n);
    && s.decisions == Decided(xs, n) && s.count == FreshRun(interval, xs, n)
    && s.cached == if last.None? then None else Some(DecisionAt(interval, xs, last.value))
  }

  lemma {:induction false} AccountsHold(interval: nat, xs: seq<Call>, n: nat)
    requires n <= |xs|
    ensures Accounts(interval, xs, n)
  {
    if n > 0 {
      AccountsHold(interval, xs, n - 1);
      AfterNext(interval, xs, n);
    }
  }

  /** At any interval a fresh decision is the gate's for the static run of fresh decisions, and
      any other repeats the last fresh decision that came with a map. */
  lemma CacheTheorem(interval: nat, xs: seq<Call>, k: nat)
    requires k < |xs| && !xs[k].fate.Undecided?
    ensures var d, run := DecisionAt(interval, xs, k), FreshRun(interval, xs, k + 1);
            if IsFresh(interval, xs, k) then d.count == run && (d.candidate <==> run >= 3 && run % 12 != 0)
            else
              && LastMapped(interval, xs, k).Some?
              && d == DecisionAt(interval, xs, LastMapped(interval, xs, k).value)
  {
    AccountsHold(interval, xs, k);
  }

  // ----- which counts may be missed

  function CountAt(interval: nat, xs: seq<Call>, k: nat): nat
    requires k < |xs|
  {
    DecisionAt(interval, xs, k).count
  }

  /** Every preparation decides, and only decisions with a count in `may` miss their step. */
  ghost predicate MissesWithin(interval: nat, xs: seq<Call>, may: iset<nat>) {
    forall k :: 0 <= k < |xs| ==>
                  !xs[k].fate.Undecided? && (xs[k].fate.Applied? || CountAt(interval, xs, k) in may)
  }

  lemma CountStep(interval: nat, xs: seq<Call>, k: nat)
    requires interval <= 1 && 0 < k < |xs| && !xs[k - 1].fate.Undecided?
    ensures CountAt(interval, xs, k) == if xs[k].isStatic then CountAt(interval, xs, k - 1) + 1 else 0
  {
    hide After, DecisionAt;
    CountAfter(interval, xs, k - 1);
    CountAfter(interval, xs, k);
  }

  /** Before a count of three or more, and not before a given reset, the counts 0, 1 and 2 occur
      in a row. */
  lemma {:induction false} LastReset(interval: nat, xs: seq<Call>, k: nat, i: nat) returns (j: nat)
    requires interval <= 1 && k < i < |xs| && forall m :: 0 <= m < |xs| ==> !xs[m].fate.Undecided?
    requires CountAt(interval, xs, k) == 0 && CountAt(interval, xs, i) >= 3
    ensures k <= j && j + 2 < i && CountAt(interval, xs, j) == 0
    ensures CountAt(interval, xs, j + 1) == 1 && CountAt(interval, xs, j + 2) == 2
  {
    hide CountAt;
    CountStep(interval, xs, i);
    if CountAt(interval, xs, i) == 3 {
      CountStep(interval, xs, i - 1);
      CountStep(interval, xs, i - 2);
      j := i - 3;
    } else {
      j := LastReset(interval, xs, k, i - 1);
    }
  }

  lemma {:induction false} StaticCounts(interval: nat, xs: seq<Call>, from: nat, i: nat)
    requires interval <= 1 && from <= i < |xs| && forall m :: 0 <= m < |xs| ==> !xs[m].fate.Undecided?
    requires forall m :: from < m <= i ==> xs[m].isStatic
    ensures CountAt(interval, xs, i) == CountAt(interval, xs, from) + (i - from)
    decreases i
  {
    hide CountAt;
    if from < i {
      StaticCounts(interval, xs, from, i - 1);
      CountStep(interval, xs, i);
    }
  }

  /** Between a replaced frame and its picture, what is no candidate missed its step. */
  lemma BetweenIsMissed(interval: nat, xs: seq<Call>, may: iset<nat>, i: nat, from: nat, k: nat)
    requires i < |xs| && MissesWithin(interval, xs, may) && ReplacedBy(interval, xs, i, from) && from < k < i
    ensures DecisionAt(interval, xs, k).candidate || CountAt(interval, xs, k) in may
  {
    OriginTheorem(interval, xs, i, from);
  }

  ghost predicate MayMissReset(may: iset<nat>) {
    0 in may && 1 in may && 2 in may
  }

  ghost predicate MayMissRefresh(may: iset<nat>) {
    exists c :: c in may && c > 0 && c % 12 == 0
  }

  /** With fresh decisions, a run that cannot miss a reset keeps a frame and its picture in one
      static run. */
  lemma SameRun(interval: nat, xs: seq<Call>, may: iset<nat>, i: nat, from: nat)
    requires interval <= 1 && i < |xs| && MissesWithin(interval, xs, may) && ReplacedBy(interval, xs, i, from)
    requires !MayMissReset(may)
    ensures from < i && forall k :: from <= k <= i ==> xs[k].isStatic && CountAt(interval, xs, k) > 0
  {
    hide After;
    OriginTheorem(interval, xs, i, from);
    CountAfter(interval, xs, i);
    forall k | from <= k <= i ensures xs[k].isStatic && CountAt(interval, xs, k) > 0 {
      CountAfter(interval, xs, k);
      if !xs[k].isStatic {
        var j := LastReset(interval, xs, k, i);
        CountAfter(interval, xs, j);
        CountAfter(interval, xs, j + 1);
        CountAfter(interval, xs, j + 2);
        BetweenIsMissed(interval, xs, may, i, from, j);
        BetweenIsMissed(interval, xs, may, i, from, j + 1);
        BetweenIsMissed(interval, xs, may, i, from, j + 2);
      }
    }
  }

  /** The picture is at most 11 preparations old and from the same static run. */
  ghost predicate Recent(xs: seq<Call>, i: nat, from: nat)
    requires i < |xs|
  {
    i - from <= 11 && forall k :: from <= k <= i ==> xs[k].isStatic
  }

  lemma NextMultiple(c: nat)
    ensures (c + 12 - c % 12) % 12 == 0
  {
  }

  lemma LastIsCandidate(interval: nat, xs: seq<Call>, i: nat, from: nat)
    requires i < |xs| && ReplacedBy(interval, xs, i, from)
    ensures DecisionAt(interval, xs, i).candidate
  {
  }

  lemma RecentHolds(interval: nat, xs: seq<Call>, may: iset<nat>, i: nat, from: nat)
    requires interval <= 1 && i < |xs| && MissesWithin(interval, xs, may) && ReplacedBy(interval, xs, i, from)
    requires !MayMissReset(may) && !MayMissRefresh(may)
    ensures Recent(xs, i, from)
  {
    hide After, Overwrites, DecisionFor;
    SameRun(interval, xs, may, i, from);
    if i - from >= 12 {
      NextMultiple(CountAt(interval, xs, from));
      var k := from + 12 - CountAt(interval, xs, from) % 12;
      StaticCounts(interval, xs, from, k);
      CountAfter(interval, xs, k);
      if k < i { BetweenIsMissed(interval, xs, may, i, from, k); } else { LastIsCandidate(interval, xs, i, from); }
    }
  }

  // ----- runs of a still scene

  function Still(fate: Fate): Call {
    Call(fate, true, true, true, 16, 16, Picture([], []))
  }

  function StillReference(from: nat): Reference {
    Reference(16, 16, Picture([], []), from)
  }

  /** A still scene whose decisions with the given counts skip their step. */
  function StillCalls(missing: nat -> bool, n: nat): (xs: seq<Call>)
    ensures |xs| == n
  {
    seq(n, (k: int) requires 0 <= k < n => Still(if missing(k + 1) then Skipped else Applied))
  }

  lemma StillPrefix(missing: nat -> bool, m: nat, n: nat)
    requires m <= n
    ensures StillCalls(missing, n)[..m] == StillCalls(missing, m)
  {
  }

  lemma StillAt(missing: nat -> bool, n: nat, k: nat)
    requires k < n
    ensures StillCalls(missing, n)[k] == Still(if missing(k + 1) then Skipped else Applied)
  {
  }

  lemma StillNoneLost(missing: nat -> bool, n: nat)
    ensures NoneLost(StillCalls(missing, n))
  {
    hide StillCalls;
    forall k | 0 <= k < n ensures StillCalls(missing, n)[k].fate in {Applied, Skipped} { StillAt(missing, n, k); }
  }

  /** The count whose frame is the reference after count `c`, or 0. */
  function Taken(missing: nat -> bool, c: nat): nat {
    if c == 0 then 0
    else if missing(c) || (c >= 3 && c % 12 != 0 && Taken(missing, c - 1) > 0) then Taken(missing, c - 1)
    else c
  }

  lemma {:induction false} TakenStays(missing: nat -> bool, p: nat, q: nat)
    requires 0 < p <= q && Taken(missing, p) == p
    requires forall c :: p < c <= q ==> missing(c) || (c >= 3 && c % 12 != 0)
    ensures Taken(missing, q) == p
    decreases q
  {
    if p < q { TakenStays(missing, p, q - 1); }
  }

  lemma NoneStill(interval: nat, missing: nat -> bool)
    ensures After(interval, StillCalls(missing, 0)) == Start()
  {
    assert StillCalls(missing, 0) == [];
  }

  lemma {:induction false} StillRun(interval: nat, missing: nat -> bool, n: nat)
    requires interval <= 1
    ensures var s := After(interval, StillCalls(missing, n));
            && s.calls == s.count == n
            && s.reference == if Taken(missing, n) == 0 then None else Some(StillReference(Taken(missing, n) - 1))
  {
    hide After, StillCalls, Next;
    if n == 0 {
      NoneStill(interval, missing);
    } else {
      StillRun(interval, missing, n - 1);
      StillNext(interval, missing, n);
      StillStep(After(interval, StillCalls(missing, n - 1)), interval, missing(n), Taken(missing, n - 1));
    }
  }

  /** One more still frame, when the reference is that of count `p`, or there is none. */
  lemma StillStep(s: State, interval: nat, skip: bool, p: nat)
    requires interval <= 1 && s.calls == s.count
    requires s.reference == if p == 0 then None else Some(StillReference(p - 1))
    ensures var t, c := Next(s, interval, Still(if skip then Skipped else Applied)), s.count + 1;
            && t.calls == t.count == c
            && t.reference ==
               if skip || (c >= 3 && c % 12 != 0 && p > 0) then s.reference else Some(StillReference(c - 1))
  {
  }

  lemma StillNext(interval: nat, missing: nat -> bool, n: nat)
    requires n > 0
    ensures After(interval, StillCalls(missing, n)) ==
            Next(After(interval, StillCalls(missing, n - 1)), interval, Still(if missing(n) then Skipped else Applied))
  {
    hide Next;
    StillPrefix(missing, n - 1, n);
  }

  /** The decision that follows n still frames. */
  lemma StillDecision(interval: nat, missing: nat -> bool, n: nat, k: nat)
    requires interval <= 1 && k < n
    ensures DecisionAt(interval, StillCalls(missing, n), k) == GateDecision(k + 1)
  {
    hide After, StillCalls;
    StillPrefix(missing, k, n);
    StillAt(missing, n, k);
    StillRun(interval, missing, k);
  }

  lemma StillMisses(interval: nat, missing: nat -> bool, n: nat, may: iset<nat>)
    requires interval <= 1 && forall c: nat :: missing(c) ==> c in may
    ensures MissesWithin(interval, StillCalls(missing, n), may)
  {
    forall k | 0 <= k < n && missing(k + 1) ensures CountAt(interval, StillCalls(missing, n), k) in may {
      StillDecision(interval, missing, n, k);
    }
  }

  /** When the frame of count `p` is still the reference after count `q`, it replaces the next. */
  lemma StillReplaced(interval: nat, missing: nat -> bool, p: nat, q: nat)
    requires interval <= 1 && 0 < p <= q && Taken(missing, q) == p
    requires !missing(q + 1) && q >= 2 && (q + 1) % 12 != 0
    ensures ReplacedBy(interval, StillCalls(missing, q + 1), q, p - 1)
  {
    StillPrefix(missing, q, q + 1);
    StillRun(interval, missing, q);
    StillDecision(interval, missing, q + 1, q);
  }

  /** Missing the refresh with count `c` makes a picture at least 21 frames old. */
  lemma RefreshMissed(interval: nat, may: iset<nat>, c: nat) returns (xs: seq<Call>, i: nat, from: nat)
    requires interval <= 1 && c in may && c > 0 && c % 12 == 0
    ensures i < |xs| && MissesWithin(interval, xs, may) && ReplacedBy(interval, xs, i, from) && i - from >= 21
    ensures NoneLost(xs)
  {
    hide After, StillCalls, MissesWithin, ReplacedBy;
    var missing := (x: nat) => x == c;
    var p, q := if c == 12 then 2 else c - 12, c + 10;
    xs, i, from := StillCalls(missing, q + 1), q, p - 1;
    assert Taken(missing, p) == p;
    TakenStays(missing, p, q);
    StillReplaced(interval, missing, p, q);
    StillMisses(interval, missing, q + 1, may);
    StillNoneLost(missing, q + 1);
  }

  // ----- the bound of AgeTheorem is attained

  predicate Late(c: nat) {
    c > 12 && c % 12 == 0
  }

  lemma {:induction false} LateMisses(n: nat, t: nat)
    requires 11 + t <= n
    ensures MissedIn(1, StillCalls(Late, n), 11, 11 + t) == if t == 0 then 0 else (t - 1) / 12
  {
    if t > 0 {
      hide DecisionAt, StillCalls;
      LateMisses(n, t - 1);
      StillDecision(1, Late, n, 10 + t);
      StillAt(Late, n, 10 + t);
      assert 11 + t - 1 == 10 + t;
    }
  }

  /** For any number of missed refreshes some frame is as old as the bound allows. */
  lemma AgeBoundIsTight(missed: nat) returns (xs: seq<Call>, i: nat, from: nat)
    ensures i < |xs| && ReplacedBy(1, xs, i, from) && MissedIn(1, xs, from, i) == missed
    ensures i - from == 11 + 12 * missed
  {
    hide After, StillCalls, ReplacedBy, MissedIn;
    var q := 12 * missed + 22;
    xs, i, from := StillCalls(Late, q + 1), q, 11;
    assert Taken(Late, 12) == 12;
    TakenStays(Late, 12, q);
    StillReplaced(1, Late, 12, q);
    LateMisses(q + 1, q - 11);
  }

  // ----- a reset that is missed

  function Moving(): Call {
    Call(Skipped, false, false, true, 16, 16, Picture([], []))
  }

  /** A still frame, then a reset and the two decisions after it without their steps. */
  function ResetCalls(): seq<Call> {
    [Still(Applied), Moving(), Still(Skipped), Still(Skipped), Still(Applied)]
  }

  lemma ResetMissed(interval: nat, may: iset<nat>)
    requires interval <= 1 && MayMissReset(may)
    ensures MissesWithin(interval, ResetCalls(), may) && ReplacedBy(interval, ResetCalls(), 4, 0)
    ensures !ResetCalls()[1].isStatic && CountAt(interval, ResetCalls(), 1) == 0
  {
    var xs := ResetCalls();
    assert xs[..0] == [];
    AfterNext(interval, xs, 1);
    AfterNext(interval, xs, 2);
    AfterNext(interval, xs, 3);
    AfterNext(interval, xs, 4);
  }

  // ----- cached decisions

  /** A still frame between two fresh decisions. */
  lemma ReusedStep(s: State, interval: nat, from: nat)
    requires interval > 1 && s.decisions % interval != 0 && 1 <= s.count <= 11
    requires s.cached == Some(GateDecision(s.count)) && s.reference == Some(StillReference(from))
    ensures Next(s, interval, Still(Applied)) ==
            State(s.calls + 1, s.decisions + 1, s.count, s.cached,
                  Some(StillReference(if s.count < 3 then s.calls else from)))
  {
  }

  /** A still frame with a fresh decision. */
  lemma FreshStep(s: State, interval: nat, from: nat)
    requires interval > 1 && (s.cached.None? || s.decisions % interval == 0) && s.count <= 10
    requires s.reference == Some(StillReference(from)) || s.count < 2
    ensures Next(s, interval, Still(Applied)) ==
            State(s.calls + 1, s.decisions + 1, s.count + 1, Some(GateDecision(s.count + 1)),
                  Some(StillReference(if s.count < 2 then s.calls else from)))
  {
  }

  predicate Never(c: nat) {
    false
  }

  /** The frame that is the reference after n frames of a still scene, in interval q. */
  function StillFrom(interval: nat, q: nat, n: nat): nat
    requires n > 0
  {
    if q < 2 then n - 1 else if interval > 0 then 2 * interval - 1 else 0
  }

  /** Frame n of a still scene is number r of interval q, up to the eleventh decision. */
  lemma {:induction false} StillScene(interval: nat, q: nat, r: nat, n: nat)
    requires interval > 1 && 1 <= r <= interval && q <= 10 && n == q * interval + r
    ensures n > 0
    ensures After(interval, StillCalls(Never, n)) ==
            State(n, n, q + 1, Some(GateDecision(q + 1)), Some(StillReference(StillFrom(interval, q, n))))
    decreases n
  {
    hide Next;
    hide After, StillCalls;
    assert q * interval >= 0;
    StillNext(interval, Never, n);
    var s := After(interval, StillCalls(Never, n - 1));
    if r > 1 {
      StillScene(interval, q, r - 1, n - 1);
      DivModUnique(q * interval + r - 1, interval, q, r - 1);
      ReusedStep(s, interval, StillFrom(interval, q, n - 1));
    } else if q > 0 {
      assert n - 1 == (q - 1) * interval + interval;
      StillScene(interval, q - 1, interval, n - 1);
      DivModUnique(q * interval, interval, q, 0);
      FreshStep(s, interval, StillFrom(interval, q - 1, n - 1));
    } else {
      NoneStill(interval, Never);
      FreshStep(Start(), interval, 0);
    }
  }

  /** With cached decisions a picture gets older than 11 frames although no step is missed. */
  lemma CachedIsOld(interval: nat, may: iset<nat>) returns (xs: seq<Call>, i: nat, from: nat)
    requires interval > 1
    ensures i < |xs| && MissesWithin(interval, xs, may) && ReplacedBy(interval, xs, i, from) && i - from > 11
    ensures NoneLost(xs)
  {
    i, from := 10 * interval + 1, 2 * interval - 1;
    xs := StillCalls(Never, i + 1);
    StillScene(interval, 10, 1, i);
    StillPrefix(Never, i, i + 1);
    StillAt(Never, i + 1, i);
    DivModUnique(10 * interval + 1, interval, 10, 1);
    forall k | 0 <= k < |xs| ensures xs[k].fate.Applied? {
      StillAt(Never, i + 1, k);
    }
  }

  /** With cached decisions one missed reset without a block map is enough: the next decision is
      the cached one. */
  lemma CachedReset(interval: nat, may: iset<nat>) returns (xs: seq<Call>, i: nat, from: nat, reset: nat)
    requires interval > 1 && 0 in may
    ensures i < |xs| && MissesWithin(interval, xs, may) && ReplacedBy(interval, xs, i, from)
    ensures from < reset < i && CountAt(interval, xs, reset) == 0
  {
    hide After, StillCalls, DecisionFor, Overwrites, Next;
    var n := 3 * interval;
    i, from, reset := n + 1, 2 * interval - 1, n;
    xs := StillCalls(Never, n) + [Moving(), Still(Applied)];
    assert xs[..n] == StillCalls(Never, n);
    StillScene(interval, 2, interval, n);
    DivModUnique(n, interval, 3, 0);
    DivModUnique(n + 1, interval, 3, 1);
    AfterNext(interval, xs, n + 1);
    ResetIgnored(After(interval, xs[..n]), interval, from);
    forall k | 0 <= k < |xs| ensures xs[k].fate.Applied? || k == n {
      if k < n { StillAt(Never, n, k); }
    }
    OnlyResetMissed(interval, xs, may, n);
  }

  lemma OnlyResetMissed(interval: nat, xs: seq<Call>, may: iset<nat>, n: nat)
    requires n < |xs| && xs[n].fate.Skipped? && CountAt(interval, xs, n) == 0 && 0 in may
    requires forall k :: 0 <= k < |xs| ==> xs[k].fate.Applied? || k == n
    ensures MissesWithin(interval, xs, may)
  {
    hide After, DecisionAt;
  }

  /** A missed reset without a block map, and the decision after it. */
  lemma ResetIgnored(s: State, interval: nat, from: nat)
    requires interval > 1 && s.decisions % interval == 0 && (s.decisions + 1) % interval != 0
    requires s.cached == Some(GateDecision(3)) && s.reference == Some(StillReference(from))
    ensures DecisionFor(s, interval, Moving()).count == 0
    ensures var t := Next(s, interval, Moving());
            && t.reference == s.reference && Overwrites(t, interval, Still(Applied))
  {
  }

  // ----- the two conditions

  ghost predicate NoneLost(xs: seq<Call>) {
    forall k :: 0 <= k < |xs| ==> xs[k].fate.Applied? || xs[k].fate.Skipped?
  }

  /** A run that breaks the bound, without lost decisions. */
  lemma BoundBreaks(interval: nat, may: iset<nat>) returns (xs: seq<Call>, i: nat, from: nat)
    requires interval > 1 || MayMissRefresh(may) || MayMissReset(may)
    ensures i < |xs| && MissesWithin(interval, xs, may) && ReplacedBy(interval, xs, i, from)
    ensures from < i && !Recent(xs, i, from) && NoneLost(xs)
  {
    hide MissesWithin, ReplacedBy;
    if interval > 1 {
      xs, i, from := CachedIsOld(interval, may);
    } else if MayMissRefresh(may) {
      var c :| c in may && c > 0 && c % 12 == 0;
      xs, i, from := RefreshMissed(interval, may, c);
    } else {
      ResetMissed(interval, may);
      xs, i, from := ResetCalls(), 4, 0;
    }
  }

  /** When only decisions with a count in `may` may miss their step, every replaced frame shows a
      picture at most 11 frames old from its own static run, in every run, exactly when
      decisions are not cached, no refresh may be missed, and not all of the counts 0, 1, 2. */
  lemma BoundHoldsIff(interval: nat, may: iset<nat>)
    ensures (forall xs: seq<Call>, i: nat, from: nat ::
               i < |xs| && MissesWithin(interval, xs, may) && ReplacedBy(interval, xs, i, from) ==> Recent(xs, i, from))
            <==> interval <= 1 && !MayMissRefresh(may) && !MayMissReset(may)
  {
    if interval <= 1 && !MayMissRefresh(may) && !MayMissReset(may) {
      forall xs: seq<Call>, i: nat, from: nat
        | i < |xs| && MissesWithin(interval, xs, may) && ReplacedBy(interval, xs, i, from)
        ensures Recent(xs, i, from)
      {
        RecentHolds(interval, xs, may, i, from);
      }
    } else {
      var xs, i, from := BoundBreaks(interval, may);
    }
  }

  /** No decision from the frame to its replacement has a reset count. */
  ghost predicate NoReset(interval: nat, xs: seq<Call>, i: nat, from: nat)
    requires i < |xs|
  {
    forall k :: from <= k <= i ==> CountAt(interval, xs, k) > 0
  }

  /** No reset lies between a replaced frame and its picture, in every run, exactly when with
      fresh decisions not all of the counts 0, 1, 2 may miss their step, and with cached ones
      no reset may. */
  lemma NoResetIff(interval: nat, may: iset<nat>)
    ensures (forall xs: seq<Call>, i: nat, from: nat ::
               i < |xs| && MissesWithin(interval, xs, may) && ReplacedBy(interval, xs, i, from)
               ==> NoReset(interval, xs, i, from))
            <==> if interval <= 1 then !MayMissReset(may) else 0 !in may
  {
    if interval <= 1 && MayMissReset(may) {
      ResetMissed(interval, may);
      assert !NoReset(interval, ResetCalls(), 4, 0);
    } else if interval > 1 && 0 in may {
      var xs, i, from, reset := CachedReset(interval, may);
      assert !NoReset(interval, xs, i, from);
    } else {
      forall xs: seq<Call>, i: nat, from: nat
        | i < |xs| && MissesWithin(interval, xs, may) && ReplacedBy(interval, xs, i, from)
        ensures NoReset(interval, xs, i, from)
      {
        if interval <= 1 { SameRun(interval, xs, may, i, from); } else { ResetIsSeen(interval, xs, may, i, from); }
      }
    }
  }

  /** A reset that is not missed is seen, so it does not lie between. */
  lemma ResetIsSeen(interval: nat, xs: seq<Call>, may: iset<nat>, i: nat, from: nat)
    requires i < |xs| && MissesWithin(interval, xs, may) && ReplacedBy(interval, xs, i, from) && 0 !in may
    ensures NoReset(interval, xs, i, from)
  {
    OriginTheorem(interval, xs, i, from);
    forall k | from <= k <= i ensures CountAt(interval, xs, k) > 0 {
      if from < k { assert xs[k].fate.Applied? ==> ReplacedBy(interval, xs, k, from); }
    }
  }
}
