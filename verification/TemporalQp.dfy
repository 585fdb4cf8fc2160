/** Frame-level quantisers: forced IDR frames with a cooldown, and the conservative window
    that follows each of them. */
module TemporalQp {
  import opened Arith
  import opened Basics

  const COOLDOWN: nat := 30
  const WINDOW: nat := 5

  datatype Profile = Safe | Balanced | Target90 | MaxCompression

  datatype Tuning = Tuning(
    baseQpOffset: int, target90Level: int, hardSceneRelief: int, disableProxyGuard: bool,
    iDelta: int, pDelta: int, bDelta: int)

  datatype Config = Config(profile: Profile, gop: nat, bFrames: nat, tuning: Tuning)

  datatype Features = Features(sceneCut: real, motion: real, edge: real, noise: real, hard: real, night: bool)

  datatype Quality = Quality(active: bool, proxy: bool, temporalDelta: int)

  /** What one frame brings. */
  datatype Input = Input(features: Features, quality: Quality, frameId: nat)

  datatype State = State(conservative: nat, cooldown: nat)

  datatype Decision = Decision(
    qpi: int, qpp: int, qpb: int, baseQp: int, anchorQp: int, forceIdr: bool, recommendedGop: int)

  function ClampQp(qp: int): (r: int)
    ensures 1 <= r <= 51
  {
    if qp > 51 then 51 else if qp < 1 then 1 else qp
  }

  function BaseSceneQp(f: Features): int {
    if f.sceneCut > 0.70 then 28
    else if f.night && f.noise > 0.55 then 30
    else if f.night then 32
    else if f.motion > 0.65 then 30
    else if f.edge < 0.20 && f.motion < 0.12 then 34
    else 32
  }

  predicate IsHardScene(f: Features) {
    f.hard >= 0.25 || f.noise >= 0.35 || f.motion >= 0.30 || f.edge >= 0.30 || f.sceneCut >= 0.45
  }

  function BaseQp(c: Config, x: Input): int {
    var base := ClampQp(BaseSceneQp(x.features) + c.tuning.baseQpOffset);
    if c.tuning.target90Level > 0 && c.tuning.hardSceneRelief > 0 && IsHardScene(x.features)
    then ClampQp(base - c.tuning.hardSceneRelief) else base
  }

  predicate QualityActive(c: Config, x: Input) {
    x.quality.active && !(x.quality.proxy && c.tuning.disableProxyGuard)
  }

  function QualityDelta(c: Config, x: Input): int {
    if QualityActive(c, x) then x.quality.temporalDelta else 0
  }

  predicate SceneCut(x: Input) {
    x.features.sceneCut >= 0.70
  }

  function Cooled(s: State): nat {
    if s.cooldown > 0 then s.cooldown - 1 else 0
  }

  predicate Forces(s: State, x: Input) {
    SceneCut(x) && Cooled(s) == 0
  }

  /** Frames left in the conservative window as the frame is decided. */
  function WindowAt(s: State, x: Input): nat {
    if Forces(s, x) then WINDOW else s.conservative
  }

  predicate QualityMode(c: Config, s: State, x: Input) {
    QualityActive(c, x) || WindowAt(s, x) > 0 || c.profile == Safe
  }

  function Qps(c: Config, s: State, x: Input): (int, int, int) {
    var base := BaseQp(c, x);
    if QualityMode(c, s, x) then
      var d := QualityDelta(c, x);
      (ClampQp(base - 4 + d), ClampQp(base - 1 + d), ClampQp(base + 1 + d))
    else if c.profile in {Target90, MaxCompression} then
      (ClampQp(base + c.tuning.iDelta), ClampQp(base + c.tuning.pDelta), ClampQp(base + c.tuning.bDelta))
    else (ClampQp(base - 3), ClampQp(base), ClampQp(base + 3))
  }

  function Decide(c: Config, s: State, x: Input): Decision {
    var base := BaseQp(c, x);
    var (qpi, qpp, qpb) := Qps(c, s, x);
    var intra := x.frameId == 0 || Forces(s, x) || (c.gop > 0 && x.frameId % c.gop == 0);
    var bidirectional := c.bFrames > 0 && x.frameId % (c.bFrames + 1) != 0;
    var typeDelta := (if intra then qpi else if bidirectional then qpb else qpp) - base;
    var gop := if x.features.sceneCut > 0.70 || x.features.motion > 0.75 then Max(15, Min(c.gop, 30))
               else if x.features.edge < 0.20 && x.features.motion < 0.08 then Max(c.gop, 180)
               else c.gop;
    Decision(qpi, qpp, qpb, base, ClampQp(base + typeDelta + QualityDelta(c, x)), Forces(s, x), gop)
  }

  function Next(s: State, x: Input): State {
    State(if WindowAt(s, x) > 0 then WindowAt(s, x) - 1 else 0,
          if Forces(s, x) then COOLDOWN else Cooled(s))
  }

  class TemporalQpController {
    var config: Config
    var conservativeFrames: nat
    var idrCooldown: nat

    ghost function View(): State
      reads this
    {
      State(conservativeFrames, idrCooldown)
    }

    constructor (config: Config)
      ensures this.config == config && View() == State(0, 0)
    {
      this.config := config;
      conservativeFrames, idrCooldown := 0, 0;
    }

    /** Cooldown and window as the frame arrives. */
    method OpenWindow(x: Input) returns (forceIdr: bool)
      modifies this`conservativeFrames, this`idrCooldown
      ensures forceIdr == Forces(old(View()), x)
      ensures conservativeFrames == WindowAt(old(View()), x) && idrCooldown == Next(old(View()), x).cooldown
    {
      if idrCooldown > 0 { idrCooldown := idrCooldown - 1; }
      forceIdr := false;
      if x.features.sceneCut >= 0.70 && idrCooldown == 0 {
        forceIdr := true;
        conservativeFrames := 5;
        idrCooldown := 30;
      }
    }

    method ChooseQps(x: Input, ghost s: State) returns (qpi: int, qpp: int, qpb: int)
      requires conservativeFrames == WindowAt(s, x)
      ensures (qpi, qpp, qpb) == Qps(config, s, x)
    {
      var base, delta := BaseQp(config, x), QualityDelta(config, x);
      if QualityActive(config, x) || conservativeFrames > 0 || config.profile == Safe {
        qpi, qpp, qpb := ClampQp(base - 4 + delta), ClampQp(base - 1 + delta), ClampQp(base + 1 + delta);
      } else if config.profile == Target90 || config.profile == MaxCompression {
        var t := config.tuning;
        qpi, qpp, qpb := ClampQp(base + t.iDelta), ClampQp(base + t.pDelta), ClampQp(base + t.bDelta);
      } else {
        qpi, qpp, qpb := ClampQp(base - 3), ClampQp(base), ClampQp(base + 3);
      }
    }

    method DecideFrame(x: Input) returns (d: Decision)
      modifies this`conservativeFrames, this`idrCooldown
      ensures d == Decide(config, old(View()), x) && View() == Next(old(View()), x)
      ensures 1 <= d.qpi <= 51 && 1 <= d.qpp <= 51 && 1 <= d.qpb <= 51 && 1 <= d.anchorQp <= 51
    {
      var base := BaseQp(config, x);
      var forceIdr := OpenWindow(x);
      var qpi, qpp, qpb := ChooseQps(x, old(View()));
      var typeDelta := qpp - base;
      if x.frameId == 0 || forceIdr || (config.gop > 0 && x.frameId % config.gop == 0) {
        typeDelta := qpi - base;
      } else if config.bFrames > 0 && x.frameId % (config.bFrames + 1) != 0 {
        typeDelta := qpb - base;
      }
      var gop: int := config.gop;
      if x.features.sceneCut > 0.70 || x.features.motion > 0.75 {
        gop := Max(15, Min(config.gop, 30));
      } else if x.features.edge < 0.20 && x.features.motion < 0.08 {
        gop := Max(config.gop, 180);
      }
      if conservativeFrames > 0 { conservativeFrames := conservativeFrames - 1; }
      d := Decision(qpi, qpp, qpb, base, ClampQp(base + typeDelta + QualityDelta(config, x)), forceIdr, gop);
    }
  }

  // ----- whole sequences of frames

  function After(xs: seq<Input>): State {
    if xs == [] then State(0, 0) else Next(After(xs[..|xs| - 1]), xs[|xs| - 1])
  }

  /** Frame `i` of the sequence forces an IDR. */
  predicate ForcedAt(xs: seq<Input>, i: nat)
    requires i < |xs|
  {
    Forces(After(xs[..i]), xs[i])
  }

  function DecisionAt(c: Config, xs: seq<Input>, i: nat): Decision
    requires i < |xs|
  {
    Decide(c, After(xs[..i]), xs[i])
  }

  /** Some forced IDR lies at most `reach` frames before frame `n`. */
  ghost predicate Recent(xs: seq<Input>, n: nat, reach: nat)
    requires n <= |xs|
  {
    exists i :: 0 <= i < n && n - i <= reach && ForcedAt(xs, i)
  }

  ghost predicate Counts(xs: seq<Input>, n: nat)
    requires n <= |xs|
  {
    var s := After(xs[..n]);
    && (s.cooldown > 0 ==>
          s.cooldown <= COOLDOWN && exists i :: 0 <= i < n && ForcedAt(xs, i) && n - i == COOLDOWN + 1 - s.cooldown)
    && (forall i :: 0 <= i < n && ForcedAt(xs, i) ==> s.cooldown >= COOLDOWN + 1 - (n - i))
    && (s.conservative > 0 ==> exists i :: 0 <= i < n && ForcedAt(xs, i) && n - i == WINDOW - s.conservative)
    && (forall i :: 0 <= i < n && ForcedAt(xs, i) ==> s.conservative >= WINDOW - (n - i))
  }

  lemma {:induction false} CountsHold(xs: seq<Input>, n: nat)
    requires n <= |xs|
    ensures Counts(xs, n)
  {
    if n > 0 {
      CountsHold(xs, n - 1);
      assert xs[..n][..n - 1] == xs[..n - 1];
      var s, t := After(xs[..n - 1]), After(xs[..n]);
      assert t == Next(s, xs[n - 1]);
      assert ForcedAt(xs, n - 1) <==> Forces(s, xs[n - 1]);
    }
  }

  /** A frame forces an IDR exactly when it is a scene cut and none of the 29 frames before
      it forced one. */
  lemma ForcedIff(xs: seq<Input>, n: nat)
    requires n < |xs|
    ensures ForcedAt(xs, n) <==> SceneCut(xs[n]) && !Recent(xs, n, COOLDOWN - 1)
  {
    CountsHold(xs, n);
  }

  /** Two forced IDRs are at least 30 frames apart, and a scene cut that does not force one
      comes at most 29 frames after one. */
  lemma IdrSpacing(xs: seq<Input>)
    ensures forall i, j :: 0 <= i < j < |xs| && ForcedAt(xs, i) && ForcedAt(xs, j) ==> j - i >= COOLDOWN
    ensures forall j :: 0 <= j < |xs| && SceneCut(xs[j]) && !ForcedAt(xs, j) ==> Recent(xs, j, COOLDOWN - 1)
  {
    forall i, j | 0 <= i < j < |xs| && ForcedAt(xs, i) && ForcedAt(xs, j) ensures j - i >= COOLDOWN {
      ForcedIff(xs, j);
    }
    forall j | 0 <= j < |xs| && SceneCut(xs[j]) && !ForcedAt(xs, j) ensures Recent(xs, j, COOLDOWN - 1) {
      ForcedIff(xs, j);
    }
  }

  /** The conservative window is open exactly on a forced IDR and the four frames after it;
      on those frames the quality quantisers apply whatever the profile. */
  lemma WindowIff(c: Config, xs: seq<Input>, n: nat)
    requires n < |xs|
    ensures WindowAt(After(xs[..n]), xs[n]) > 0 <==> ForcedAt(xs, n) || Recent(xs, n, WINDOW - 1)
    ensures ForcedAt(xs, n) || Recent(xs, n, WINDOW - 1) ==>
              var d := DecisionAt(c, xs, n);
              var q := QualityDelta(c, xs[n]);
              && d.qpi == ClampQp(d.baseQp - 4 + q) && d.qpp == ClampQp(d.baseQp - 1 + q)
              && d.qpb == ClampQp(d.baseQp + 1 + q)
  {
    CountsHold(xs, n);
  }

  // ----- the quantisers of a frame

  /** `v` is `x` moved into [lo, hi], and not further. */
  predicate MovedInto(v: int, x: int, lo: int, hi: int) {
    (lo <= x <= hi ==> v == x) && (x < lo ==> v == lo) && (x > hi ==> v == hi)
  }

  predicate Limited(qp: int, x: int) {
    MovedInto(qp, x, 1, 51)
  }

  /** The quantiser of the scene: 28 after a cut, 30 for noisy nights and for motion by day, 34 for
      flat and quiet days, and 32 for everything else. */
  predicate IsSceneQp(f: Features, qp: int) {
    var cut := f.sceneCut > 0.70;
    var busy := if f.night then f.noise > 0.55 else f.motion > 0.65;
    var quiet := !f.night && !busy && f.edge < 0.20 && f.motion < 0.12;
    && qp in {28, 30, 32, 34}
    && (qp == 28 <==> cut)
    && (qp == 30 <==> !cut && busy)
    && (qp == 34 <==> !cut && quiet)
  }

  /** The base is the scene's quantiser with the configured offset, relieved in hard scenes when
      that is configured. */
  ghost predicate IsBase(c: Config, f: Features, base: int) {
    exists scene, shifted :: IsSceneQp(f, scene) && IsShifted(c, scene, shifted)
      && if c.tuning.target90Level > 0 && c.tuning.hardSceneRelief > 0 && HardToCode(f)
         then Limited(base, shifted - c.tuning.hardSceneRelief) else base == shifted
  }

  predicate IsShifted(c: Config, scene: int, shifted: int) {
    Limited(shifted, scene + c.tuning.baseQpOffset)
  }

  predicate HardToCode(f: Features) {
    !(f.hard < 0.25 && f.noise < 0.35 && f.motion < 0.30 && f.edge < 0.30 && f.sceneCut < 0.45)
  }

  datatype Kind = Intra | Predicted | Bidirectional

  /** Frame 0, forced IDRs and every frame that starts a group are intra; of the others every
      (b + 1)-th is predicted. */
  ghost predicate HasKind(c: Config, xs: seq<Input>, n: nat, kind: Kind)
    requires n < |xs|
  {
    var k := xs[n].frameId;
    && (kind == Intra <==> k == 0 || ForcedAt(xs, n) || (c.gop > 0 && Divides(c.gop, k)))
    && (kind == Predicted ==> Divides(c.bFrames + 1, k))
    && (kind == Bidirectional ==> c.bFrames > 0 && !Divides(c.bFrames + 1, k))
  }

  predicate IsMultiple(k: nat, size: nat, m: nat) {
    k == m * size
  }

  ghost predicate Divides(size: nat, k: nat) {
    exists m: nat :: IsMultiple(k, size, m)
  }

  function QpOf(d: Decision, kind: Kind): int {
    match kind
    case Intra => d.qpi
    case Predicted => d.qpp
    case Bidirectional => d.qpb
  }

  /** The quality guard shifts the quantisers unless only a proxy speaks and that is switched off. */
  function GuardDelta(c: Config, q: Quality): int {
    if q.active && (!q.proxy || !c.tuning.disableProxyGuard) then q.temporalDelta else 0
  }

  /** The frame's three quantisers, from its history and its own guard. */
  ghost predicate HasQps(c: Config, xs: seq<Input>, n: nat, qpi: int, qpp: int, qpb: int, base: int)
    requires n < |xs|
  {
    var q := xs[n].quality;
    var guarded := q.active && (!q.proxy || !c.tuning.disableProxyGuard);
    var delta := GuardDelta(c, q);
    if guarded || ForcedAt(xs, n) || Recent(xs, n, 4) || c.profile == Safe then
      Limited(qpi, base + delta - 4) && Limited(qpp, base + delta - 1) && Limited(qpb, base + delta + 1)
    else if c.profile == Balanced then
      Limited(qpi, base - 3) && qpp == base && Limited(qpb, base + 3)
    else
      && Limited(qpi, base + c.tuning.iDelta) && Limited(qpp, base + c.tuning.pDelta)
      && Limited(qpb, base + c.tuning.bDelta)
  }

  lemma MultipleIff(k: nat, size: nat)
    requires size > 0
    ensures k % size == 0 <==> Divides(size, k)
  {
    assert k == k / size * size + k % size;
    if k % size == 0 {
      assert IsMultiple(k, size, k / size);
    }
    if Divides(size, k) {
      var m: nat :| IsMultiple(k, size, m);
      DivModUnique(k, size, m, 0);
    }
  }

  lemma BaseHolds(c: Config, x: Input)
    ensures IsBase(c, x.features, BaseQp(c, x)) && 1 <= BaseQp(c, x) <= 51
  {
    var scene := BaseSceneQp(x.features);
    var shifted := ClampQp(scene + c.tuning.baseQpOffset);
    assert IsSceneQp(x.features, scene) && IsShifted(c, scene, shifted);
  }

  lemma QpsHold(c: Config, xs: seq<Input>, n: nat)
    requires n < |xs|
    ensures var d := DecisionAt(c, xs, n);
            HasQps(c, xs, n, d.qpi, d.qpp, d.qpb, d.baseQp) && d.baseQp == BaseQp(c, xs[n])
  {
    hide BaseQp;
    BaseHolds(c, xs[n]);
    WindowIff(c, xs, n);
  }

  /** The kind that a decision takes the frame for. */
  function KindFor(c: Config, s: State, x: Input): Kind {
    if x.frameId == 0 || Forces(s, x) || (c.gop > 0 && x.frameId % c.gop == 0) then Intra
    else if c.bFrames > 0 && x.frameId % (c.bFrames + 1) != 0 then Bidirectional else Predicted
  }

  lemma KindHolds(c: Config, xs: seq<Input>, n: nat)
    requires n < |xs|
    ensures HasKind(c, xs, n, KindFor(c, After(xs[..n]), xs[n]))
  {
    var k := xs[n].frameId;
    MultipleIff(k, c.bFrames + 1);
    if c.gop > 0 { MultipleIff(k, c.gop); }
  }

  /** In every sequence of frames each decision has the base of its scene, the quantisers of its
      history, guard and profile, and as anchor the quantiser of its kind with the guard's delta;
      it forces an IDR exactly as said above, and recommends a group of 15 to 30 frames after cuts
      and fast motion, of at least 180 in flat and quiet scenes, and the configured one otherwise. */
  lemma DecisionTheorem(c: Config, xs: seq<Input>, n: nat)
    requires n < |xs|
    ensures var d, f, q := DecisionAt(c, xs, n), xs[n].features, xs[n].quality;
            && IsBase(c, f, d.baseQp) && HasQps(c, xs, n, d.qpi, d.qpp, d.qpb, d.baseQp)
            && (d.forceIdr <==> ForcedAt(xs, n))
            && (exists kind :: HasKind(c, xs, n, kind) && Limited(d.anchorQp, QpOf(d, kind) + GuardDelta(c, q)))
            && (if f.sceneCut > 0.70 || f.motion > 0.75 then MovedInto(d.recommendedGop, c.gop, 15, 30)
                else if f.edge < 0.20 && f.motion < 0.08 then
                  d.recommendedGop >= 180 && d.recommendedGop >= c.gop && d.recommendedGop in {c.gop, 180}
                else d.recommendedGop == c.gop)
  {
    hide BaseQp, HasKind, HasQps, IsBase;
    BaseHolds(c, xs[n]);
    QpsHold(c, xs, n);
    KindHolds(c, xs, n);
  }
}
