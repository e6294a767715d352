/** The duty scheduler without any of its shortcuts: configuration, evidence and
    the plain meaning of every operation.  Times are nanoseconds; the fitting,
    quantile and confidence calculations are parameters. */
module SchedulerModel {

  datatype Option<+T> = None | Some(value: T)

  datatype Mode = Off | Shadow | Gated

  datatype SenderConfig = SenderConfig(id: nat, overdue: nat, countWindow: nat, minimumCount: nat)

  datatype CandidateConfig = CandidateConfig(
    name: string, historyLimit: nat, minHistoryLimit: nat, warmupIntervals: nat,
    r900Floor: nat, otherFloor: nat, jitterQuantile: real, jitterMargin: nat,
    preScale: real, postScale: real, auditFraction: real, changePointScale: real,
    historyGrowAfter: nat, wakeScaleStep: real, maxWakeScale: real)

  datatype Config = Config(
    mode: Mode, senders: seq<SenderConfig>, candidates: seq<CandidateConfig>,
    captureTarget: real, confidence: real, recoveryDuration: int,
    refreshInterval: nat, refreshDuration: nat, promotionMargin: real, promotionStability: nat,
    watchdogHistory: nat, watchdogMinIntervals: nat, watchdogWindow: nat,
    watchdogQuantile: real, watchdogMargin: real, randomSeed: bv64)

  datatype Fit = Fit(period: nat, residuals: seq<nat>)

  /** The numerical routines, as arbitrary functions. */
  datatype Numerics = Numerics(
    robustPeriod: seq<int> -> Fit,
    quantile: (seq<int>, real) -> nat,
    upperMissBound: (nat, nat, real) -> real)

  datatype Env = Env(cfg: Config, num: Numerics)

  const MAX_DURATION: int := 0x7fff_ffff_ffff_ffff
  const MINUTE: int := 60_000_000_000

  ghost predicate ValidCandidate(c: CandidateConfig)
  {
    && 2 <= c.warmupIntervals <= c.minHistoryLimit <= c.historyLimit
    && 0 < c.r900Floor && 0 < c.otherFloor && 0.0 < c.preScale && 0.0 < c.postScale
    && 0.0 < c.changePointScale && 1 <= c.historyGrowAfter && 1.0 < c.wakeScaleStep <= c.maxWakeScale
  }

  /** What `New` leaves true of a normalized configuration. */
  ghost predicate ValidConfig(cfg: Config)
  {
    && 0.0 < cfg.captureTarget < 1.0 && 0.0 < cfg.confidence < 1.0
    && 0 < cfg.refreshDuration < cfg.refreshInterval
    && 0.0 <= cfg.promotionMargin && cfg.captureTarget + cfg.promotionMargin < 1.0 && 0 < cfg.promotionStability
    && 2 <= cfg.watchdogMinIntervals <= cfg.watchdogHistory && 0 < cfg.watchdogWindow && 0.0 <= cfg.watchdogMargin
    && (cfg.mode != Off ==> cfg.senders != [] && cfg.candidates != [])
    && (forall i :: 0 <= i < |cfg.senders| ==> cfg.senders[i].minimumCount > 0 ==> cfg.senders[i].countWindow > 0)
    && (forall i, j :: 0 <= i < j < |cfg.senders| ==> cfg.senders[i].id != cfg.senders[j].id)
    && (forall i :: 0 <= i < |cfg.candidates| ==> ValidCandidate(cfg.candidates[i]))
  }

  // ---- one sender's cadence, as one candidate models it

  datatype Model = Model(
    protocol: string, history: seq<int>, last: int, seen: bool, learned: bool, period: int, anchor: int,
    preWake: int, postWake: int, events: nat, misses: nat, effectiveHistory: nat, stableIntervals: nat,
    changePoints: nat)

  const NEW_MODEL := Model("", [], 0, false, false, 0, 0, 0, 0, 0, 0, 0, 0, 0)

  function Max(a: int, b: int): int { if a > b then a else b }
  function Min(a: int, b: int): int { if a < b then a else b }
  function Abs(a: int): nat { if a < 0 then -a else a }

  function ScaleDuration(value: int, scale: real): (r: nat)
  {
    if value <= 0 || scale <= 0.0 then 0
    else
      assert value as real * scale >= 0.0 by { Nonnegative(value as real, scale); }
      (value as real * scale).Floor
  }

  lemma Nonnegative(x: real, y: real)
    requires x >= 0.0 && y >= 0.0
    ensures x * y >= 0.0
  {
  }

  /** How many periods fit `delta` best, but at least one. */
  function Multiple(delta: nat, period: nat): (k: nat)
    requires 0 < period
    ensures 1 <= k
  {
    var k := (2 * delta + period) / (2 * period);
    if k < 1 then 1 else k
  }

  function NextHistoryLimit(current: nat, maximum: nat): nat
  {
    if 8 > current then Min(8, maximum) else if 16 > current then Min(16, maximum)
    else if 32 > current then Min(32, maximum) else if 64 > current then Min(64, maximum)
    else if 128 > current then Min(128, maximum) else maximum
  }

  function Recent<T>(s: seq<T>, n: nat): seq<T>
    requires n <= |s|
  {
    s[|s| - n..]
  }

  predicate CompatibleHistory(num: Numerics, history: seq<int>, recent: nat, extended: nat, tolerance: int)
  {
    if recent < 2 || extended <= recent || extended > |history| then false
    else
      var a, b := num.robustPeriod(Recent(history, recent)).period, num.robustPeriod(Recent(history, extended)).period;
      a > 0 && b > 0 && Abs(a - b) <= Max(tolerance, a / 1000)
  }

  predicate IsR900(protocol: string)
  {
    |protocol| >= 4 && protocol[0] in {'r', 'R'} && protocol[1..4] == "900"
  }

  /** The part of an observation that concerns the interval since the last arrival. */
  function ObserveInterval(m: Model, delta: int, cfg: CandidateConfig): (r: (Model, bool))
    requires 0 < delta
  {
    var drifted := m.learned && m.period > 0 && (
      var residual := Abs(delta - Multiple(delta, m.period) * m.period);
      var tolerance := Max(ScaleDuration(Max(m.preWake, m.postWake), cfg.changePointScale), m.period / 20);
      residual > tolerance);
    var m1 :=
      if drifted then m.(changePoints := m.changePoints + 1, stableIntervals := 0,
                         effectiveHistory := Min(cfg.minHistoryLimit, |m.history| + 1))
      else if m.learned && m.period > 0 then m.(stableIntervals := m.stableIntervals + 1)
      else m;
    var longer := m1.history + [delta];
    (m1.(history := if |longer| > cfg.historyLimit then Recent(longer, cfg.historyLimit) else longer), drifted)
  }

  /** How much of the history the next fit uses. */
  function GrowHistory(num: Numerics, m: Model, cfg: CandidateConfig): (r: Model)
  {
    var m1 := if m.effectiveHistory == 0 then m.(effectiveHistory := Min(|m.history|, cfg.minHistoryLimit)) else m;
    var limit := Min(|m1.history|, cfg.historyLimit);
    if m1.stableIntervals >= cfg.historyGrowAfter && m1.effectiveHistory < limit then
      var next := NextHistoryLimit(m1.effectiveHistory, limit);
      if CompatibleHistory(num, m1.history, m1.effectiveHistory, next, Max(m1.preWake, m1.postWake))
      then m1.(effectiveHistory := next, stableIntervals := 0) else m1
    else m1
  }

  function Refit(num: Numerics, m: Model, at: int, cfg: CandidateConfig, wakeScale: real): Model
    requires m.effectiveHistory <= |m.history|
  {
    var fit := num.robustPeriod(Recent(m.history, m.effectiveHistory));
    var floor := if IsR900(m.protocol) then cfg.r900Floor else cfg.otherFloor;
    var halfwidth := Max(floor, num.quantile(fit.residuals, cfg.jitterQuantile) + cfg.jitterMargin);
    m.(period := fit.period, anchor := at,
       preWake := ScaleDuration(halfwidth, cfg.preScale * wakeScale),
       postWake := ScaleDuration(halfwidth, cfg.postScale * wakeScale),
       learned := fit.period > 0)
  }

  /** One arrival at one candidate's model; the second result reports a change of
      cadence. */
  function ObserveModel(num: Numerics, m: Model, protocol: string, at: int, cfg: CandidateConfig,
      wakeScale: real): (Model, bool)
  {
    var switched := m.protocol != "" && m.protocol != protocol;
    var m1 := (if switched then m.(history := [], seen := false, learned := false, effectiveHistory := 0)
               else m).(protocol := protocol);
    var (m2, drifted) := if m1.seen && at - m1.last > 0 then ObserveInterval(m1, at - m1.last, cfg) else (m1, false);
    var m3 := m2.(last := at, seen := true);
    if |m3.history| < cfg.warmupIntervals then (m3, switched || drifted)
    else
      var m4 := GrowHistory(num, m3, cfg);
      if m4.effectiveHistory <= |m4.history| then (Refit(num, m4, at, cfg, wakeScale), switched || drifted)
      else (m4, switched || drifted)
  }

  function Reanchor(m: Model, protocol: string, at: int): Model
  {
    m.(protocol := protocol, last := at, anchor := at, seen := true)
  }

  // ---- wake windows

  datatype Instant = Time(t: int) | Infinity

  function CeilDiv(a: int, b: int): int
    requires 0 < b
  {
    -((-a) / b)
  }

  datatype Window = Window(awake: bool, wakeUntil: Instant, nextWake: Instant)

  /** The first periodic window that ends at or after `start`, and whether the block
      `[start, end)` meets it. */
  function AwakeWindow(m: Model, start: int, end: int): Window
  {
    if !m.learned || m.period <= 0 then Window(true, Infinity, Infinity)
    else
      var first := CeilDiv(start - m.postWake - m.anchor, m.period);
      var center := m.anchor + first * m.period;
      var opens, closes := center - m.preWake, center + m.postWake;
      if opens < end && closes > start then Window(true, Time(closes), Infinity)
      else Window(false, Time(0), Time(if closes <= start then opens + m.period else opens))
  }

  ghost predicate Awake(models: seq<Model>, start: int, end: int)
  {
    exists i :: 0 <= i < |models| && AwakeWindow(models[i], start, end).awake
  }

  predicate AllLearned(models: seq<Model>)
  {
    forall i :: 0 <= i < |models| ==> models[i].learned
  }

  // ---- candidates

  datatype Candidate = Candidate(
    cfg: CandidateConfig, models: seq<Model>, lastEligible: bool, lastAwake: bool,
    totalDuration: int, totalAwake: int, eligibleDuration: int, awakeDuration: int,
    invalid: bool, qualified: bool, epoch: nat, wakeScale: real, promotionReady: int, recoveryUntil: int)

  /** Adds the block's duration to the scores; reports the first eligible one. */
  function Score(c: Candidate, eligible: bool, awake: bool, duration: int): (Candidate, bool)
  {
    var scored := c.(lastEligible := eligible, lastAwake := !eligible || awake,
                     totalDuration := c.totalDuration + duration,
                     totalAwake := if !eligible || awake then c.totalAwake + duration else c.totalAwake);
    if eligible then
      (scored.(eligibleDuration := c.eligibleDuration + duration,
               awakeDuration := if awake then c.awakeDuration + duration else c.awakeDuration), c.eligibleDuration == 0)
    else (scored, false)
  }

  function ResetEvidence(m: Model, widen: bool, step: real): Model
  {
    var cleared := m.(events := 0, misses := 0);
    if widen && m.learned
    then cleared.(preWake := ScaleDuration(m.preWake, step), postWake := ScaleDuration(m.postWake, step)) else cleared
  }

  function MapModels(models: seq<Model>, f: Model -> Model): (r: seq<Model>)
    ensures |r| == |models| && forall i :: 0 <= i < |models| ==> r[i] == f(models[i])
  {
    seq(|models|, i requires 0 <= i < |models| => f(models[i]))
  }

  function BeginNewEpoch(c: Candidate, now: int, widen: bool): Candidate
  {
    var wide := c.wakeScale * c.cfg.wakeScaleStep;
    c.(epoch := c.epoch + 1, qualified := false, promotionReady := 0,
       wakeScale := if !widen then c.wakeScale else if wide > c.cfg.maxWakeScale then c.cfg.maxWakeScale else wide,
       models := MapModels(c.models, (m: Model) => ResetEvidence(m, widen, c.cfg.wakeScaleStep)),
       recoveryUntil := now)
  }

  function Tightened(scale: real, step: real): real
    requires 1.0 < step
  {
    if scale / step < 1.0 then 1.0 else scale / step
  }

  function TightenAfterRefresh(c: Candidate, now: int): Candidate
    requires 1.0 < c.cfg.wakeScaleStep
  {
    if c.wakeScale <= 1.0 then c
    else
      var scale := Tightened(c.wakeScale, c.cfg.wakeScaleStep);
      var ratio := scale / c.wakeScale;
      BeginNewEpoch(c.(wakeScale := scale, models := MapModels(c.models, (m: Model) =>
        if m.learned then m.(preWake := ScaleDuration(m.preWake, ratio), postWake := ScaleDuration(m.postWake, ratio))
        else m)), now, false)
  }

  function SteadySleep(c: Candidate): real
  {
    if c.eligibleDuration <= 0 then 0.0 else 1.0 - c.awakeDuration as real / c.eligibleDuration as real
  }

  function AuditFraction(c: Candidate): real
  {
    if c.cfg.auditFraction * c.wakeScale > 1.0 then 1.0 else c.cfg.auditFraction * c.wakeScale
  }

  function EffectiveSleep(c: Candidate): real
  {
    SteadySleep(c) * (1.0 - AuditFraction(c))
  }

  function RefreshPeriod(c: Candidate, base: nat): nat
  {
    if c.wakeScale <= 1.0 then base
    else
      var interval := (base as real / (if c.wakeScale < 4.0 then c.wakeScale else 4.0)).Floor;
      if interval < MINUTE then MINUTE else interval
  }

  /** Every sender's evidence meets `target`. */
  predicate MeetsBound(env: Env, models: seq<Model>, target: real)
  {
    forall i :: 0 <= i < |models| ==>
      models[i].events != 0 &&
      env.num.upperMissBound(models[i].misses, models[i].events, 1.0 - env.cfg.confidence) <= 1.0 - target
  }

  predicate QualifiesAt(env: Env, c: Candidate, learned: bool, target: real)
  {
    !c.invalid && learned && c.eligibleDuration > 0 && MeetsBound(env, c.models, target)
  }

  function RefreshCandidate(env: Env, c: Candidate, learned: bool, now: int): Candidate
  {
    var c1 := if c.invalid && now >= c.recoveryUntil then c.(invalid := false) else c;
    if c1.qualified then
      if QualifiesAt(env, c1, learned, env.cfg.captureTarget) then c1 else c1.(qualified := false, promotionReady := 0)
    else if !QualifiesAt(env, c1, learned, env.cfg.captureTarget + env.cfg.promotionMargin)
    then c1.(promotionReady := 0)
    else
      var ready := if c1.promotionReady == 0 then now + env.cfg.promotionStability else c1.promotionReady;
      c1.(promotionReady := ready, qualified := now >= ready)
  }

  predicate Due(c: Candidate, now: int)
  {
    (c.invalid && now >= c.recoveryUntil) || (!c.qualified && c.promotionReady > 0 && now >= c.promotionReady)
  }

  // ---- senders and their watchdogs

  datatype Sender = Sender(
    cfg: SenderConfig, protocol: string, lastSeen: int, seen: bool, observations: seq<int>, total: nat,
    overdueOpen: bool, countOpen: bool, deadlineDeficits: nat, countDeficits: nat, gaps: seq<int>,
    learnedOverdue: int, learnedMinimumCount: nat, watchdogLearned: bool, obligationDue: int, obligationOpen: bool,
    obligationsOpened: nat, obligationsClosed: nat, obligationDeficits: nat)

  function EffectiveOverdue(s: Sender): int
  {
    if s.learnedOverdue > s.cfg.overdue then s.learnedOverdue else s.cfg.overdue
  }

  function EffectiveCountWindow(cfg: Config, s: Sender): int
  {
    if s.cfg.countWindow > 0 then s.cfg.countWindow else if s.watchdogLearned then cfg.watchdogWindow else 0
  }

  function EffectiveMinimumCount(s: Sender): nat
  {
    if s.watchdogLearned && (s.cfg.minimumCount == 0 || s.learnedMinimumCount < s.cfg.minimumCount)
    then s.learnedMinimumCount else s.cfg.minimumCount
  }

  predicate WatchdogReady(s: Sender)
  {
    (s.cfg.overdue > 0 && s.cfg.countWindow > 0 && s.cfg.minimumCount > 0) || s.watchdogLearned
  }

  predicate WatchdogsReady(senders: seq<Sender>)
  {
    forall i :: 0 <= i < |senders| ==> WatchdogReady(senders[i])
  }

  function LearnWatchdog(env: Env, s: Sender): Sender
  {
    if |s.gaps| < env.cfg.watchdogMinIntervals then s
    else
      var gap := env.num.quantile(s.gaps, env.cfg.watchdogQuantile);
      var learned := ScaleDuration(gap, 1.0 + env.cfg.watchdogMargin);
      if learned <= 0 then s
      else
        var minimum := env.cfg.watchdogWindow / learned;
        s.(learnedOverdue := learned, learnedMinimumCount := if minimum < 1 then 1 else minimum,
           watchdogLearned := true)
  }

  /** How many of the sorted arrivals lie before `lower`. */
  function CountBefore(s: seq<int>, lower: int): (n: nat)
    ensures n <= |s|
  {
    if s == [] || s[0] >= lower then 0 else 1 + CountBefore(s[1..], lower)
  }

  function RecordGap(env: Env, s: Sender, gap: int): Sender
  {
    var longer := s.gaps + [gap];
    var gaps := if |longer| > env.cfg.watchdogHistory then Recent(longer, env.cfg.watchdogHistory) else longer;
    LearnWatchdog(env, s.(gaps := gaps))
  }

  /** How many retained arrivals an observation at `at` lets go of. */
  function Trimmed(env: Env, s: Sender, at: int): (n: nat)
    ensures n <= |s.observations|
  {
    var window := EffectiveCountWindow(env.cfg, s);
    if window > 0 then CountBefore(s.observations, at - window * 2) else 0
  }

  /** The sender's record with the new arrival in it. */
  function Noted(s: Sender, protocol: string, at: int): Sender
  {
    s.(protocol := protocol, lastSeen := at, seen := true, total := s.total + 1, overdueOpen := false,
       obligationsClosed := if s.obligationOpen then s.obligationsClosed + 1 else s.obligationsClosed,
       obligationOpen := false, observations := s.observations + [at])
  }

  /** The same with what the gap teaches, before old arrivals go. */
  function Arrived(env: Env, s: Sender, protocol: string, at: int, reanchor: bool): Sender
  {
    if s.seen && !reanchor then RecordGap(env, Noted(s, protocol, at), at - s.lastSeen) else Noted(s, protocol, at)
  }

  function ObserveSender(env: Env, s: Sender, protocol: string, at: int, reanchor: bool): Sender
  {
    var s1 := Arrived(env, s, protocol, at, reanchor);
    var s2 := s1.(observations := s1.observations[Trimmed(env, s1, at)..]);
    var overdue := EffectiveOverdue(s2);
    if overdue > 0 then s2.(obligationDue := at + overdue, obligationOpen := true,
                            obligationsOpened := s2.obligationsOpened + 1)
    else s2
  }

  /** One sender's check: the new record and whether a deadline or a count deficit
      is recorded now.  `count` is the number of arrivals in the window. */
  datatype Verdict = Verdict(sender: Sender, deadline: bool, count: bool)

  function JudgeDeadline(s: Sender, now: int): (Sender, bool)
  {
    if s.seen && s.obligationOpen && EffectiveOverdue(s) > 0 && now >= s.obligationDue && !s.overdueOpen then
      (s.(deadlineDeficits := s.deadlineDeficits + 1, obligationDeficits := s.obligationDeficits + 1,
          overdueOpen := true, obligationOpen := false), true)
    else (s, false)
  }

  predicate CountsNow(cfg: Config, s: Sender, now: int)
  {
    s.seen && EffectiveMinimumCount(s) > 0 && EffectiveCountWindow(cfg, s) > 0 && now >= EffectiveCountWindow(cfg, s)
  }

  function JudgeCount(cfg: Config, s: Sender, now: int, count: nat): (Sender, bool)
  {
    if !CountsNow(cfg, s, now) then (s, false)
    else if count < EffectiveMinimumCount(s) then
      if s.countOpen then (s, false) else (s.(countDeficits := s.countDeficits + 1, countOpen := true), true)
    else (s.(countOpen := false), false)
  }

  /** The number of retained arrivals at or after `now - window`. */
  function InWindow(cfg: Config, s: Sender, now: int): (n: nat)
    ensures n <= |s.observations|
  {
    |s.observations| - CountBefore(s.observations, now - EffectiveCountWindow(cfg, s))
  }

  function Judge(cfg: Config, s: Sender, now: int, count: nat): Verdict
  {
    var (s1, deadline) := JudgeDeadline(s, now);
    var (s2, missed) := JudgeCount(cfg, s1, now, count);
    Verdict(s2, deadline, missed)
  }

  // ---- the scheduler

  datatype Totals = Totals(observations: nat, deadlineDeficits: nat, countDeficits: nat, obligationDeficits: nat)

  datatype Core = Core(
    candidates: seq<Candidate>, senders: seq<Sender>, selected: Option<nat>, lastEnd: int, started: bool,
    recoveryUntil: int, deadlineDeficits: nat, countDeficits: nat, discontinuities: nat, rng: bv64,
    quietActive: bool, auditActive: bool, quietCandidate: string, refreshUntil: int, nextRefresh: int, refreshes: nat,
    protocols: map<string, Totals>, reanchorPending: set<nat>)

  datatype StateName = OFF | RECOVERY | GATED | QUALIFIED | SEED

  datatype Decision = Decision(decode: bool, audit: bool, refresh: bool, selected: string, state: StateName)

  /** `selected` always names a candidate. */
  ghost predicate Wired(env: Env, s: Core)
  {
    && |s.candidates| == |env.cfg.candidates| && |s.senders| == |env.cfg.senders|
    && (s.selected.Some? ==> s.selected.value < |s.candidates|)
    && (forall i :: 0 <= i < |s.candidates| ==>
          s.candidates[i].cfg == env.cfg.candidates[i] && |s.candidates[i].models| == |s.senders|)
    && (forall i :: 0 <= i < |s.senders| ==> s.senders[i].cfg == env.cfg.senders[i])
  }

  function NewCandidate(cfg: CandidateConfig, senders: nat): Candidate
  {
    Candidate(cfg, seq(senders, _ => NEW_MODEL), false, false, 0, 0, 0, 0, false, false, 1, 1.0, 0, 0)
  }

  function NewSender(cfg: SenderConfig): Sender
  {
    Sender(cfg, "", 0, false, [], 0, false, false, 0, 0, [], 0, 0, false, 0, false, 0, 0, 0)
  }

  function NewCore(env: Env): Core
  {
    var cfg := env.cfg;
    Core(seq(|cfg.candidates|, i requires 0 <= i < |cfg.candidates| => NewCandidate(cfg.candidates[i], |cfg.senders|)),
         seq(|cfg.senders|, i requires 0 <= i < |cfg.senders| => NewSender(cfg.senders[i])),
         None, 0, false, 0, 0, 0, 0, if cfg.randomSeed == 0 then 0x9e3779b97f4a7c15 else cfg.randomSeed,
         false, false, "", 0, 0, 0, map[], {})
  }

  function EnterRecovery(env: Env, s: Core, now: int): Core
  {
    var until := now + env.cfg.recoveryDuration;
    s.(recoveryUntil := if until > s.recoveryUntil then until else s.recoveryUntil,
       selected := None, quietActive := false, auditActive := false, quietCandidate := "", refreshUntil := 0,
       nextRefresh := 0)
  }

  function ResetCandidate(c: Candidate): Candidate
  {
    c.(models := seq(|c.models|, _ => NEW_MODEL), lastEligible := false, lastAwake := true, eligibleDuration := 0,
       awakeDuration := 0, invalid := false, qualified := false, epoch := c.epoch + 1, promotionReady := 0,
       recoveryUntil := 0, wakeScale := 1.0)
  }

  function ResetSender(s: Sender): Sender
  {
    s.(protocol := "", lastSeen := 0, seen := false, observations := [], overdueOpen := false, countOpen := false,
       gaps := [], learnedOverdue := 0, learnedMinimumCount := 0, watchdogLearned := false, obligationDue := 0,
       obligationOpen := false)
  }

  function MapCandidates(cs: seq<Candidate>, f: Candidate -> Candidate): (r: seq<Candidate>)
    ensures |r| == |cs| && forall i :: 0 <= i < |cs| ==> r[i] == f(cs[i])
  {
    seq(|cs|, i requires 0 <= i < |cs| => f(cs[i]))
  }

  function MapSenders(ss: seq<Sender>, f: Sender -> Sender): (r: seq<Sender>)
    ensures |r| == |ss| && forall i :: 0 <= i < |ss| ==> r[i] == f(ss[i])
  {
    seq(|ss|, i requires 0 <= i < |ss| => f(ss[i]))
  }

  function ResetLearning(s: Core): Core
  {
    s.(discontinuities := s.discontinuities + 1, candidates := MapCandidates(s.candidates, ResetCandidate),
       senders := MapSenders(s.senders, ResetSender), refreshUntil := 0, nextRefresh := 0)
  }

  /** A candidate that sleeps at least as much as the one that just missed an event. */
  function Distrust(env: Env, c: Candidate, skip: real, now: int): Candidate
  {
    if SteadySleep(c) >= skip
    then BeginNewEpoch(c.(invalid := true), now, true).(recoveryUntil := now + env.cfg.recoveryDuration) else c
  }

  function RecoverAtLeast(env: Env, s: Core, skip: real, now: int): Core
  {
    s.(candidates := MapCandidates(s.candidates, (c: Candidate) => Distrust(env, c, skip, now)))
  }

  function Refresh(env: Env, s: Core, now: int): Core
  {
    s.(candidates := MapCandidates(s.candidates, (c: Candidate) => RefreshCandidate(env, c, AllLearned(c.models), now)))
  }

  predicate AnyDue(cs: seq<Candidate>, now: int)
  {
    exists i :: 0 <= i < |cs| && Due(cs[i], now)
  }

  /** The first qualified candidate of greatest effective sleep among the first `n`. */
  function Best(cs: seq<Candidate>, n: nat): (b: Option<nat>)
    requires n <= |cs|
    ensures b.Some? ==> b.value < n && cs[b.value].qualified
    ensures b.None? ==> forall j :: 0 <= j < n ==> !cs[j].qualified
    ensures b.Some? ==> forall j :: 0 <= j < n && cs[j].qualified ==>
            EffectiveSleep(cs[j]) <= EffectiveSleep(cs[b.value])
    ensures b.Some? ==> forall j :: 0 <= j < b.value && cs[j].qualified ==>
            EffectiveSleep(cs[j]) < EffectiveSleep(cs[b.value])
  {
    hide EffectiveSleep;
    if n == 0 then None
    else
      var b := Best(cs, n - 1);
      if cs[n - 1].qualified && (b.None? || EffectiveSleep(cs[n - 1]) > EffectiveSleep(cs[b.value]))
      then Some(n - 1) else b
  }

  predicate MaySelect(env: Env, s: Core)
  {
    env.cfg.mode == Gated && s.lastEnd >= s.recoveryUntil && s.reanchorPending == {} && WatchdogsReady(s.senders)
  }

  function Choose(env: Env, s: Core): Core
  {
    s.(selected := if MaySelect(env, s) then Best(s.candidates, |s.candidates|) else None)
  }

  function MixRight12(x: bv64): (r: bv64)
    ensures x != 0 ==> r != 0
  {
    x ^ (x >> 12)
  }

  function MixLeft25(x: bv64): (r: bv64)
    ensures x != 0 ==> r != 0
  {
    x ^ (x << 25)
  }

  function MixRight27(x: bv64): (r: bv64)
    ensures x != 0 ==> r != 0
  {
    x ^ (x >> 27)
  }

  /** The generator's step; it never gets stuck at zero. */
  function XorShift(x: bv64): (r: bv64)
    ensures x != 0 ==> r != 0
  {
    hide MixRight12, MixLeft25, MixRight27;
    MixRight27(MixLeft25(MixRight12(x)))
  }

  /** The upper 53 bits of the scrambled state as a fraction; dividing by 2048 shifts the
      other eleven out. */
  function UnitOf(x: bv64): real
  {
    ((x * 2685821657736338717) as int / 2048) as real / 9007199254740992.0
  }

  predicate AnyQualified(cs: seq<Candidate>)
  {
    exists i :: 0 <= i < |cs| && cs[i].qualified
  }

  function StateOf(env: Env, s: Core): StateName
  {
    if env.cfg.mode == Off then OFF
    else if s.lastEnd < s.recoveryUntil then RECOVERY
    else if env.cfg.mode == Gated && s.selected.Some? then GATED
    else if AnyQualified(s.candidates) && WatchdogsReady(s.senders) then QUALIFIED
    else SEED
  }

  function SelectedName(s: Core): string
    requires s.selected.Some? ==> s.selected.value < |s.candidates|
  {
    if s.selected.None? then "" else s.candidates[s.selected.value].cfg.name
  }

  /** Plans the selected candidate's refresh periods. */
  function PlanRefresh(env: Env, s: Core, end: int): (r: Core)
    requires s.selected.Some? ==> s.selected.value < |s.candidates|
    ensures r.selected == s.selected && r.candidates == s.candidates
  {
    hide RefreshPeriod;
    if s.selected.Some? && end >= s.recoveryUntil then
      var period := RefreshPeriod(s.candidates[s.selected.value], env.cfg.refreshInterval);
      var s1 := if s.nextRefresh == 0 then s.(nextRefresh := end + period) else s;
      if end >= s1.nextRefresh then
        s1.(refreshUntil := end + env.cfg.refreshDuration, nextRefresh := end + period, refreshes := s1.refreshes + 1)
      else s1
    else s
  }

  predicate SleepInterval(env: Env, s: Core, end: int)
    requires s.selected.Some? ==> s.selected.value < |s.candidates|
  {
    env.cfg.mode == Gated && s.selected.Some? && end >= s.recoveryUntil &&
    s.candidates[s.selected.value].lastEligible && !s.candidates[s.selected.value].lastAwake
  }

  function Wake(s: Core): Core
  {
    s.(quietActive := false, auditActive := false, quietCandidate := "")
  }

  /** The verdict on the block that ends at `end`. */
  function Decide(env: Env, s: Core, end: int): (Core, Decision)
    requires s.selected.Some? ==> s.selected.value < |s.candidates|
  {
    hide UnitOf, XorShift, AuditFraction, PlanRefresh, StateOf, SelectedName;
    var name := SelectedName(s);
    var awake := Decision(true, false, false, name, StateOf(env, s));
    var s1 := PlanRefresh(env, s, end);
    if s1.selected.Some? && end < s1.refreshUntil then (Wake(s1), awake.(refresh := true))
    else if !SleepInterval(env, s1, end) then (Wake(s1), awake)
    else
      var s2 :=
        if !s1.quietActive || s1.quietCandidate != name then
          s1.(quietActive := true, quietCandidate := name, rng := XorShift(s1.rng),
              auditActive := UnitOf(XorShift(s1.rng)) < AuditFraction(s1.candidates[s1.selected.value]))
        else s1;
      (s2, awake.(decode := s2.auditActive, audit := s2.auditActive))
  }

  /** The block does not continue the stream: all learning starts over. */
  function Discontinuity(env: Env, s: Core, start: int, end: int): (Core, Decision)
  {
    var s1: Core := if end > start && end >= 0 then s.(lastEnd := end) else s;
    var s2 := EnterRecovery(env, ResetLearning(s1.(started := true)), s1.lastEnd);
    (s2, Decision(true, false, false, "", StateOf(env, s2)))
  }

  predicate Continues(s: Core, start: int, end: int)
  {
    0 <= start < end && (!s.started || start == s.lastEnd)
  }

  function EndRefresh(env: Env, s: Core, start: int): Core
    requires s.selected.Some? ==>
             s.selected.value < |s.candidates| && 1.0 < s.candidates[s.selected.value].cfg.wakeScaleStep
  {
    if s.refreshUntil > 0 && start >= s.refreshUntil then
      (if s.selected.Some? then
         var i := s.selected.value;
         s.(candidates := s.candidates[i := TightenAfterRefresh(s.candidates[i], start)], selected := None)
       else s).(refreshUntil := 0, nextRefresh := 0)
    else s
  }

  // ---- checking the watchdogs

  /** What a pass over the senders has accumulated. */
  datatype Pass = Pass(senders: seq<Sender>, deadlineDeficits: nat, countDeficits: nat,
                       protocols: map<string, Totals>, failed: bool)

  function Charge(protocols: map<string, Totals>, protocol: string, deadline: bool, count: bool): map<string, Totals>
  {
    if protocol in protocols then
      var t := protocols[protocol];
      protocols[protocol := t.(deadlineDeficits := t.deadlineDeficits + (if deadline then 1 else 0),
                               obligationDeficits := t.obligationDeficits + (if deadline then 1 else 0),
                               countDeficits := t.countDeficits + (if count then 1 else 0))]
    else protocols
  }

  function Enter(p: Pass, i: nat, v: Verdict): Pass
    requires i < |p.senders|
  {
    Pass(p.senders[i := v.sender], p.deadlineDeficits + (if v.deadline then 1 else 0),
         p.countDeficits + (if v.count then 1 else 0),
         Charge(p.protocols, p.senders[i].protocol, v.deadline, v.count), p.failed || v.deadline || v.count)
  }

  /** The pass over the first `n` senders. */
  function PassOver(env: Env, s: Core, now: int, n: nat): (p: Pass)
    requires n <= |s.senders|
    ensures |p.senders| == |s.senders|
    ensures forall i :: n <= i < |s.senders| ==> p.senders[i] == s.senders[i]
  {
    if n == 0 then Pass(s.senders, s.deadlineDeficits, s.countDeficits, s.protocols, false)
    else
      var p := PassOver(env, s, now, n - 1);
      Enter(p, n - 1, Judge(env.cfg, p.senders[n - 1], now, InWindow(env.cfg, p.senders[n - 1], now)))
  }

  function Judged(s: Core, p: Pass): Core
  {
    s.(senders := p.senders, deadlineDeficits := p.deadlineDeficits, countDeficits := p.countDeficits,
       protocols := p.protocols)
  }

  /** After a pass: a failed watchdog distrusts the selected candidate. */
  function ConcludePass(env: Env, s: Core, p: Pass, now: int): Core
    requires s.selected.Some? ==> s.selected.value < |s.candidates|
  {
    var s1 := Judged(s, p);
    if p.failed && env.cfg.mode == Gated && s.selected.Some? && now >= s.recoveryUntil
    then EnterRecovery(env, RecoverAtLeast(env, s1, SteadySleep(s.candidates[s.selected.value]), now), now)
    else s1
  }

  function CheckWatchdogs(env: Env, s: Core, now: int): Core
    requires s.selected.Some? ==> s.selected.value < |s.candidates|
  {
    ConcludePass(env, s, PassOver(env, s, now, |s.senders|), now)
  }

  // ---- observing

  function Find(senders: seq<Sender>, id: nat, n: nat): (i: Option<nat>)
    requires n <= |senders|
    ensures i.Some? ==> i.value < n && senders[i.value].cfg.id == id
  {
    if n == 0 then None else if senders[n - 1].cfg.id == id then Some(n - 1) else Find(senders, id, n - 1)
  }

  datatype Arrival = Arrival(id: nat, protocol: string, at: int, escaped: bool)

  function CountArrival(protocols: map<string, Totals>, protocol: string): map<string, Totals>
  {
    if protocol == "" then protocols
    else
      var t := if protocol in protocols then protocols[protocol] else Totals(0, 0, 0, 0);
      protocols[protocol := t.(observations := t.observations + 1)]
  }

  function ObserveCandidate(env: Env, c: Candidate, i: nat, a: Arrival, reanchor: bool): Candidate
    requires i < |c.models|
  {
    if reanchor then c.(models := c.models[i := Reanchor(c.models[i], a.protocol, a.at)])
    else
      var m := c.models[i];
      var misses := if c.lastAwake then m.misses else m.misses + 1;
      var m1 := if c.lastEligible then m.(events := m.events + 1, misses := misses) else m;
      var (m2, changed) := ObserveModel(env.num, m1, a.protocol, a.at, c.cfg, c.wakeScale);
      var c1 := c.(models := c.models[i := m2]);
      if changed then BeginNewEpoch(c1, a.at, true) else c1
  }

  /** Whether the arrival is taken, and if not whether it is a fault. */
  datatype Admission = Taken(i: nat) | Ignored | Fault

  function Admit(s: Core, a: Arrival): (r: Admission)
    ensures r.Taken? ==> r.i < |s.senders|
  {
    var found := Find(s.senders, a.id, |s.senders|);
    if found.None? then Ignored
    else
      var sender := s.senders[found.value];
      if a.at < 0 || (sender.seen && a.at <= sender.lastSeen) then
        if sender.seen && a.at < sender.lastSeen then Fault else Ignored
      else if sender.protocol != "" && sender.protocol != a.protocol then Fault
      else Taken(found.value)
  }

  /** The evidence an admitted arrival adds, before its consequences. */
  function TakeArrival(env: Env, s: Core, a: Arrival, i: nat): Core
    requires i < |s.senders| && forall k :: 0 <= k < |s.candidates| ==> |s.candidates[k].models| == |s.senders|
  {
    var reanchor := a.id in s.reanchorPending;
    s.(senders := s.senders[i := ObserveSender(env, s.senders[i], a.protocol, a.at, reanchor)],
       protocols := CountArrival(s.protocols, a.protocol),
       candidates := seq(|s.candidates|, (k: nat)
         requires 0 <= k < |s.candidates| && |s.candidates[k].models| == |s.senders| =>
         ObserveCandidate(env, s.candidates[k], i, a, reanchor)),
       reanchorPending := s.reanchorPending - {a.id})
  }

  /** An arrival during the selected candidate's sleep is an escape. */
  predicate Escapes(env: Env, s: Core, a: Arrival)
    requires s.selected.Some? ==> s.selected.value < |s.candidates|
  {
    env.cfg.mode == Gated && s.selected.Some? &&
    (a.escaped || (s.candidates[s.selected.value].lastEligible && !s.candidates[s.selected.value].lastAwake))
  }

  function PunishEscape(env: Env, s: Core, a: Arrival): Core
    requires s.selected.Some? ==> s.selected.value < |s.candidates|
  {
    if Escapes(env, s, a)
    then EnterRecovery(env, RecoverAtLeast(env, s, SteadySleep(s.candidates[s.selected.value]), a.at), s.lastEnd) else s
  }

  function PrepareResume(s: Core): Core
  {
    var pending := set i: nat | i < |s.senders| && s.senders[i].seen :: s.senders[i].cfg.id;
    Wake(s.(reanchorPending := pending, selected := None))
  }

  // ---- whole steps

  /** The candidate after a block has been scored. */
  ghost function Scored(c: Candidate, start: int, end: int): Candidate
  {
    Score(c, AllLearned(c.models), Awake(c.models, start, end), end - start).0
  }

  /** Scores the block for every candidate. */
  ghost function ScoreAll(s: Core, start: int, end: int): Core
  {
    s.(candidates := MapCandidates(s.candidates, (c: Candidate) => Scored(c, start, end)))
  }

  /** Its next eligible block is not its first. */
  predicate Begun(c: Candidate)
  {
    AllLearned(c.models) ==> c.eligibleDuration != 0
  }

  /** `selected` may be tightened and scored. */
  ghost predicate Tightenable(s: Core)
  {
    (s.selected.Some? ==> s.selected.value < |s.candidates|) &&
    forall i :: 0 <= i < |s.candidates| ==> 1.0 < s.candidates[i].cfg.wakeScaleStep
  }

  /** A contiguous block, up to the point where its watchdogs are checked. */
  ghost function Begin(env: Env, s: Core, start: int, end: int): Core
    requires Tightenable(s)
  {
    ScoreAll(EndRefresh(env, s.(started := true, lastEnd := end), start), start, end)
  }

  /** The same block, up to the decision: every watchdog is checked and every
      qualification refreshed. */
  ghost function Settle(env: Env, s: Core, start: int, end: int): Core
    requires Tightenable(s)
  {
    Choose(env, Refresh(env, CheckWatchdogs(env, Begin(env, s, start, end), end), end))
  }

  /** One block. */
  ghost function Advance(env: Env, s: Core, start: int, end: int): (Core, Decision)
    requires Tightenable(s)
  {
    if Continues(s, start, end) then Decide(env, Settle(env, s, start, end), end) else Discontinuity(env, s, start, end)
  }

  ghost predicate Consistent(s: Core)
  {
    (s.selected.Some? ==> s.selected.value < |s.candidates|) &&
    forall k :: 0 <= k < |s.candidates| ==> |s.candidates[k].models| == |s.senders|
  }

  /** One arrival. */
  ghost function Observe(env: Env, s: Core, a: Arrival): Core
    requires Consistent(s)
  {
    match Admit(s, a)
    case Ignored => s
    case Fault => EnterRecovery(env, s, s.lastEnd)
    case Taken(i) => Choose(env, Refresh(env, PunishEscape(env, TakeArrival(env, s, a, i), a), a.at))
  }
}
