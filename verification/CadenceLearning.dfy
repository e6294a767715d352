/** What an arrival teaches: the cadence a candidate's model keeps, and the sender's own
    record. */
module CadenceLearning {
  import opened Basics
  import opened SchedulerModel
  import opened SchedulerInvariant
  import opened WatchdogSchedule
  import WakeCache

  // ---- drift

  /** Farther than `tolerance` from every positive multiple of the period. */
  ghost predicate OffBeat(delta: int, period: int, tolerance: int)
  {
    forall k: nat :: 1 <= k ==> Abs(delta - k * period) > tolerance
  }

  /** The program tries one multiple only; it is the nearest. */
  lemma NearestMultiple(delta: nat, period: nat, k: nat)
    requires 0 < delta && 0 < period && 1 <= k
    ensures Abs(delta - Multiple(delta, period) * period) <= Abs(delta - k * period)
  {
    var n := Multiple(delta, period);
    var q := (2 * delta + period) / (2 * period);
    assert 2 * delta + period == (2 * period) * q + (2 * delta + period) % (2 * period);
    assert (2 * period) * q == 2 * (q * period);
    if n < k {
      NonNegative(k - n - 1, period);
      assert (k - n - 1) * period == k * period - n * period - period;
    } else if k < n {
      NonNegative(n - k - 1, period);
      assert (n - k - 1) * period == n * period - k * period - period;
    }
  }

  /** How far a gap may lie off the beat. */
  function Tolerance(m: Model, cfg: CandidateConfig): int
  {
    Max(ScaleDuration(Max(m.preWake, m.postWake), cfg.changePointScale), m.period / 20)
  }

  ghost predicate Drifts(m: Model, delta: int, cfg: CandidateConfig)
  {
    m.learned && m.period > 0 && OffBeat(delta, m.period, Tolerance(m, cfg))
  }

  lemma DriftIs(m: Model, delta: int, cfg: CandidateConfig)
    requires 0 < delta
    ensures ObserveInterval(m, delta, cfg).1 <==> Drifts(m, delta, cfg)
  {
    hide Multiple, ScaleDuration;
    if m.learned && m.period > 0 {
      forall k: nat | 1 <= k
        ensures Abs(delta - Multiple(delta, m.period) * m.period) <= Abs(delta - k * m.period)
      {
        NearestMultiple(delta, m.period, k);
      }
    }
  }

  /** Scaling rounds down to whole nanoseconds, and leaves a width as it is at scale one. */
  lemma ScaleMeans(value: int, scale: real)
    ensures value <= 0 || scale <= 0.0 ==> ScaleDuration(value, scale) == 0
    ensures var r := ScaleDuration(value, scale) as real;
      value > 0 && scale > 0.0 ==> r <= value as real * scale < r + 1.0
    ensures value >= 0 ==> ScaleDuration(value, 1.0) == value
  {
  }

  /** After a resume the first arrival moves the windows to itself; cadence, widths and
      evidence stay. */
  lemma ReanchorMeans(m: Model, protocol: string, at: int)
    requires m.learned && 0 < m.period && 0 <= m.preWake && 0 <= m.postWake
    ensures var r := Reanchor(m, protocol, at);
      && (forall start: int, end: int, k: int ::
            WakeCache.Meets(r, start, end, k) <==>
            at + k * m.period - m.preWake < end && at + k * m.period + m.postWake > start)
      && r == m.(protocol := protocol, last := at, anchor := at, seen := true)
  {
  }

  // ---- a candidate's model

  /** The last `n` of a list, or all of it. */
  function Last<T>(s: seq<T>, n: nat): seq<T>
  {
    if |s| > n then s[|s| - n..] else s
  }

  /** The arrival comes under another protocol than before. */
  predicate Switches(m: Model, protocol: string)
  {
    m.protocol != "" && m.protocol != protocol
  }

  /** It ends an interval that can be learned from. */
  predicate Spaces(m: Model, protocol: string, at: int)
  {
    m.seen && !Switches(m, protocol) && at > m.last
  }

  /** What is remembered of an arrival, and when it counts as a change of cadence. */
  lemma ModelRemembers(num: Numerics, m: Model, protocol: string, at: int, cfg: CandidateConfig, wakeScale: real)
    ensures var (r, changed) := ObserveModel(num, m, protocol, at, cfg, wakeScale);
      && r.protocol == protocol && r.last == at && r.seen && r.events == m.events && r.misses == m.misses
      && r.history == (if Switches(m, protocol) then []
                       else if Spaces(m, protocol, at) then Last(m.history + [at - m.last], cfg.historyLimit)
                       else m.history)
      && (changed <==> Switches(m, protocol) || (Spaces(m, protocol, at) && Drifts(m, at - m.last, cfg)))
      && r.changePoints == m.changePoints + (if Spaces(m, protocol, at) && Drifts(m, at - m.last, cfg) then 1 else 0)
  {
    hide Drifts, ObserveInterval, GrowHistory, Refit, Last;
    var n := (if Switches(m, protocol) then m.(history := [], seen := false, learned := false, effectiveHistory := 0)
              else m).(protocol := protocol);
    if Spaces(m, protocol, at) {
      SpacedInterval(m, protocol, at, cfg);
      n := ObserveInterval(n, at - m.last, cfg).0;
    }
    n := n.(last := at, seen := true);
    GrowFrame(num, n, cfg);
    var g := GrowHistory(num, n, cfg);
    if g.effectiveHistory <= |g.history| { RefitFrame(num, g, at, cfg, wakeScale); }
  }

  lemma GrowFrame(num: Numerics, m: Model, cfg: CandidateConfig)
    ensures var r := GrowHistory(num, m, cfg);
      r == m.(effectiveHistory := r.effectiveHistory, stableIntervals := r.stableIntervals)
  {
    hide CompatibleHistory, NextHistoryLimit;
  }

  lemma RefitFrame(num: Numerics, m: Model, at: int, cfg: CandidateConfig, wakeScale: real)
    requires m.effectiveHistory <= |m.history|
    ensures var r := Refit(num, m, at, cfg, wakeScale);
      r == m.(period := r.period, anchor := at, preWake := r.preWake, postWake := r.postWake, learned := r.learned)
  {
    hide ScaleDuration, IsR900, Recent;
  }

  lemma SpacedInterval(m: Model, protocol: string, at: int, cfg: CandidateConfig)
    requires Spaces(m, protocol, at)
    ensures var (r, drifted) := ObserveInterval(m.(protocol := protocol), at - m.last, cfg);
      && (drifted <==> Drifts(m, at - m.last, cfg)) && r.history == Last(m.history + [at - m.last], cfg.historyLimit)
      && r.changePoints == m.changePoints + (if drifted then 1 else 0)
      && r == m.(protocol := protocol, history := r.history, changePoints := r.changePoints,
                 stableIntervals := r.stableIntervals, effectiveHistory := r.effectiveHistory)
      && r.stableIntervals == (if drifted then 0 else if m.learned && m.period > 0 then m.stableIntervals + 1
                               else m.stableIntervals)
      && r.effectiveHistory == (if drifted then Min(cfg.minHistoryLimit, |m.history| + 1) else m.effectiveHistory)
  {
    DriftIs(m.(protocol := protocol), at - m.last, cfg);
    hide Drifts, Multiple, ScaleDuration;
    assert Drifts(m.(protocol := protocol), at - m.last, cfg) == Drifts(m, at - m.last, cfg) by {
      SameDrift(m, protocol, at - m.last, cfg);
    }
  }

  lemma SameDrift(m: Model, protocol: string, delta: int, cfg: CandidateConfig)
    ensures Drifts(m.(protocol := protocol), delta, cfg) == Drifts(m, delta, cfg)
  {
  }

  /** Half a window on each side: the quantile of the deviations plus a margin, and at
      least the protocol's floor. */
  function HalfWidth(num: Numerics, m: Model, cfg: CandidateConfig, gaps: seq<int>): nat
  {
    Max(if IsR900(m.protocol) then cfg.r900Floor else cfg.otherFloor,
        num.quantile(num.robustPeriod(gaps).residuals, cfg.jitterQuantile) + cfg.jitterMargin)
  }

  /** The windows in force after an arrival: none learned until a warm-up of gaps has been
      seen; then centred on this arrival, with the period and the widths that the
      newest gaps in use suggest. */
  lemma ModelPredicts(num: Numerics, m: Model, protocol: string, at: int, cfg: CandidateConfig, wakeScale: real)
    requires ValidCandidate(cfg) && m.effectiveHistory <= |m.history| <= cfg.historyLimit && HistoryOk(m, cfg)
    requires (forall i :: 0 <= i < |m.history| ==> 0 < m.history[i])
    requires m.learned ==> cfg.warmupIntervals <= m.effectiveHistory
    ensures var r := ObserveModel(num, m, protocol, at, cfg, wakeScale).0;
            var gaps := Last(r.history, r.effectiveHistory);
      if |r.history| < cfg.warmupIntervals then
        && r.learned == (m.learned && !Switches(m, protocol))
        && r.period == m.period && r.anchor == m.anchor && r.preWake == m.preWake && r.postWake == m.postWake
      else
        && r.anchor == at && cfg.warmupIntervals <= r.effectiveHistory <= |r.history|
        && r.period == num.robustPeriod(gaps).period && (r.learned <==> r.period > 0)
        && r.preWake == ScaleDuration(HalfWidth(num, r, cfg, gaps), cfg.preScale * wakeScale)
        && r.postWake == ScaleDuration(HalfWidth(num, r, cfg, gaps), cfg.postScale * wakeScale)
  {
    hide ObserveInterval, GrowHistory, ScaleDuration, Last, Refit, HalfWidth;
    var m1 := (if Switches(m, protocol) then m.(history := [], seen := false, learned := false, effectiveHistory := 0)
               else m).(protocol := protocol);
    if m1.seen && at - m1.last > 0 { IntervalKeeps(m1, at - m1.last, cfg); }
    var m2 := if m1.seen && at - m1.last > 0 then ObserveInterval(m1, at - m1.last, cfg).0 else m1;
    var m3 := m2.(last := at, seen := true);
    if |m3.history| >= cfg.warmupIntervals {
      GrowKeeps(num, m3, cfg);
      var m4 := GrowHistory(num, m3, cfg);
      RefitMeans(num, m4, at, cfg, wakeScale);
    }
  }

  lemma RefitMeans(num: Numerics, m: Model, at: int, cfg: CandidateConfig, wakeScale: real)
    requires m.effectiveHistory <= |m.history|
    ensures var r := Refit(num, m, at, cfg, wakeScale); var gaps := Last(m.history, m.effectiveHistory);
      && r == m.(period := r.period, anchor := at, preWake := r.preWake, postWake := r.postWake, learned := r.learned)
      && r.period == num.robustPeriod(gaps).period && (r.learned <==> r.period > 0)
      && r.preWake == ScaleDuration(HalfWidth(num, r, cfg, gaps), cfg.preScale * wakeScale)
      && r.postWake == ScaleDuration(HalfWidth(num, r, cfg, gaps), cfg.postScale * wakeScale)
  {
    LastRecent(m.history, m.effectiveHistory);
    hide Last, Recent, ScaleDuration, IsR900;
  }

  lemma LastRecent<T>(s: seq<T>, n: nat)
    requires n <= |s|
    ensures Last(s, n) == Recent(s, n)
  {
  }

  /** Events and misses play no part in it. */
  lemma CountsApart(num: Numerics, m: Model, m1: Model, protocol: string, at: int, cfg: CandidateConfig,
      wakeScale: real)
    requires ButCounts(m, m1)
    ensures var r, r1 := ObserveModel(num, m, protocol, at, cfg, wakeScale).0,
                         ObserveModel(num, m1, protocol, at, cfg, wakeScale).0;
      r1 == r.(events := m1.events, misses := m1.misses)
  {
    hide ObserveInterval, GrowHistory, Refit;
    var switched := Switches(m, protocol);
    var n, n1 := if switched then m.(history := [], seen := false, learned := false, effectiveHistory := 0) else m,
                 if switched then m1.(history := [], seen := false, learned := false, effectiveHistory := 0) else m1;
    n, n1 := n.(protocol := protocol), n1.(protocol := protocol);
    if n.seen && at > n.last {
      IntervalApart(n, n1, at - n.last, cfg);
      n, n1 := ObserveInterval(n, at - n.last, cfg).0, ObserveInterval(n1, at - n.last, cfg).0;
    }
    n, n1 := n.(last := at, seen := true), n1.(last := at, seen := true);
    if |n.history| >= cfg.warmupIntervals {
      GrowApart(num, n, n1, cfg);
      n, n1 := GrowHistory(num, n, cfg), GrowHistory(num, n1, cfg);
      if n.effectiveHistory <= |n.history| { RefitApart(num, n, n1, at, cfg, wakeScale); }
    }
  }

  ghost predicate ButCounts(m: Model, r: Model)
  {
    r == m.(events := r.events, misses := r.misses)
  }

  lemma IntervalApart(m: Model, m1: Model, delta: int, cfg: CandidateConfig)
    requires 0 < delta && ButCounts(m, m1)
    ensures var (r, c), (r1, c1) := ObserveInterval(m, delta, cfg), ObserveInterval(m1, delta, cfg);
      r1 == r.(events := m1.events, misses := m1.misses) && c1 == c
  {
    hide ScaleDuration, Multiple;
  }

  lemma GrowApart(num: Numerics, m: Model, m1: Model, cfg: CandidateConfig)
    requires ButCounts(m, m1)
    ensures GrowHistory(num, m1, cfg) == GrowHistory(num, m, cfg).(events := m1.events, misses := m1.misses)
  {
    hide CompatibleHistory, NextHistoryLimit;
  }

  lemma RefitApart(num: Numerics, m: Model, m1: Model, at: int, cfg: CandidateConfig, wakeScale: real)
    requires ButCounts(m, m1) && m.effectiveHistory <= |m.history|
    ensures Refit(num, m1, at, cfg, wakeScale) ==
            Refit(num, m, at, cfg, wakeScale).(events := m1.events, misses := m1.misses)
  {
    hide ScaleDuration, IsR900;
  }

  /** The next length to try. */
  ghost predicate NextLength(current: nat, most: nat, next: nat)
  {
    && current < next <= most && next in {8, 16, 32, 64, 128, most}
    && (current < 8 ==> next <= 8) && (current < 16 ==> next <= 16) && (current < 32 ==> next <= 32)
    && (current < 64 ==> next <= 64) && (current < 128 ==> next <= 128)
  }

  lemma NextLengthIs(current: nat, most: nat)
    requires current < most
    ensures NextLength(current, most, NextHistoryLimit(current, most))
  {
  }

  /** The periods fitted to the two newest stretches differ by little. */
  predicate Agree(num: Numerics, history: seq<int>, recent: nat, extended: nat, tolerance: int)
  {
    2 <= recent < extended <= |history| &&
    var a, b := num.robustPeriod(Last(history, recent)).period, num.robustPeriod(Last(history, extended)).period;
    a > 0 && b > 0 && (Abs(a - b) <= tolerance || Abs(a - b) <= a / 1000)
  }

  lemma AgreeIs(num: Numerics, history: seq<int>, recent: nat, extended: nat, tolerance: int)
    ensures CompatibleHistory(num, history, recent, extended, tolerance) <==>
            Agree(num, history, recent, extended, tolerance)
  {
    if recent < extended <= |history| {
      LastRecent(history, recent);
      LastRecent(history, extended);
      hide Recent, Last;
    }
  }

  /** How much of the history is in use next: what it was, or, once the cadence has been
      stable and a longer stretch agrees with it, the next of 8, 16, 32, 64, 128 and
      everything. */
  lemma HistoryGrows(num: Numerics, m: Model, cfg: CandidateConfig)
    requires m.effectiveHistory <= |m.history| <= cfg.historyLimit
    ensures var r := GrowHistory(num, m, cfg);
            var used := if m.effectiveHistory == 0 then Min(|m.history|, cfg.minHistoryLimit) else m.effectiveHistory;
            var next := NextHistoryLimit(used, |m.history|);
            var grows := m.stableIntervals >= cfg.historyGrowAfter && used < |m.history| &&
                         Agree(num, m.history, used, next, Max(m.preWake, m.postWake));
      && (used < |m.history| ==> NextLength(used, |m.history|, next))
      && r == m.(effectiveHistory := r.effectiveHistory, stableIntervals := r.stableIntervals)
      && r.effectiveHistory == (if grows then next else used)
      && r.stableIntervals == (if grows then 0 else m.stableIntervals)
  {
    hide CompatibleHistory, Agree, NextHistoryLimit, NextLength;
    var used := if m.effectiveHistory == 0 then Min(|m.history|, cfg.minHistoryLimit) else m.effectiveHistory;
    if used < |m.history| { NextLengthIs(used, |m.history|); }
    AgreeIs(num, m.history, used, NextHistoryLimit(used, |m.history|), Max(m.preWake, m.postWake));
  }

  // ---- the sender's record

  /** What an arrival leaves in the sender's record. */
  lemma SenderRemembers(env: Env, s: Sender, protocol: string, at: int, reanchor: bool)
    ensures var r := ObserveSender(env, s, protocol, at, reanchor);
      && r.cfg == s.cfg && r.protocol == protocol && r.lastSeen == at && r.seen && r.total == s.total + 1
      && !r.overdueOpen && r.countOpen == s.countOpen
      && r.deadlineDeficits == s.deadlineDeficits && r.countDeficits == s.countDeficits
      && r.obligationDeficits == s.obligationDeficits
      && r.obligationsClosed == s.obligationsClosed + (if s.obligationOpen then 1 else 0)
      && (r.obligationOpen <==> r.cfg.overdue > 0 || r.learnedOverdue > 0)
      && r.obligationsOpened == s.obligationsOpened + (if r.obligationOpen then 1 else 0)
      && (r.obligationOpen ==>
            r.obligationDue == at + (if r.learnedOverdue > r.cfg.overdue then r.learnedOverdue else r.cfg.overdue))
      && r.gaps == (if s.seen && !reanchor then Last(s.gaps + [at - s.lastSeen], env.cfg.watchdogHistory) else s.gaps)
  {
    hide Trimmed, LearnWatchdog;
    LearnFrame(env, Noted(s, protocol, at).(gaps := Last(s.gaps + [at - s.lastSeen], env.cfg.watchdogHistory)));
  }

  lemma LearnFrame(env: Env, s: Sender)
    ensures var r := LearnWatchdog(env, s);
      r == s.(learnedOverdue := r.learnedOverdue, learnedMinimumCount := r.learnedMinimumCount,
              watchdogLearned := r.watchdogLearned)
  {
    hide ScaleDuration;
  }

  /** Arrivals in order: what lies before the `n`th is too old, and nothing else. */
  ghost predicate Cut(all: seq<int>, lower: int, n: nat)
  {
    n <= |all| && forall k :: 0 <= k < |all| ==> (all[k] >= lower <==> k >= n)
  }

  lemma CutAt(all: seq<int>, lower: int)
    requires Ascending(all)
    ensures Cut(all, lower, CountBefore(all, lower))
  {
    var n := CountBefore(all, lower);
    CountBeforeOver(all, lower, n);
    if n < |all| { CountBeforeOver(all, lower, n + 1); }
  }

  /** Of the arrivals, those of the last two windows are retained, the new one with them. */
  lemma SenderRetains(env: Env, s: Sender, protocol: string, at: int, reanchor: bool)
    requires Ascending(s.observations + [at])
    ensures var r := ObserveSender(env, s, protocol, at, reanchor); var all := s.observations + [at];
            var window, n := EffectiveCountWindow(env.cfg, r), |all| - |r.observations|;
      && 0 <= n && r.observations == all[n..] && (if window == 0 then n == 0 else Cut(all, at - 2 * window, n))
  {
    hide Arrived, CountBefore, Cut, Ascending;
    ArrivedFrame(env, s, protocol, at, reanchor);
    var all := s.observations + [at];
    var s1 := Arrived(env, s, protocol, at, reanchor);
    CutAt(all, at - EffectiveCountWindow(env.cfg, s1) * 2);
  }

  /** What the gaps teach the watchdog, once there are enough of them. */
  lemma SenderLearns(env: Env, s: Sender, protocol: string, at: int, reanchor: bool)
    ensures var r := ObserveSender(env, s, protocol, at, reanchor);
            var learned := ScaleDuration(env.num.quantile(r.gaps, env.cfg.watchdogQuantile),
                                         1.0 + env.cfg.watchdogMargin);
      if s.seen && !reanchor && |r.gaps| >= env.cfg.watchdogMinIntervals && learned > 0 then
        && r.watchdogLearned && r.learnedOverdue == learned && r.learnedMinimumCount >= 1
        && (r.learnedMinimumCount == env.cfg.watchdogWindow / learned ||
            (r.learnedMinimumCount == 1 && env.cfg.watchdogWindow / learned < 1))
      else
        && r.watchdogLearned == s.watchdogLearned && r.learnedOverdue == s.learnedOverdue
        && r.learnedMinimumCount == s.learnedMinimumCount
  {
    hide Trimmed, ScaleDuration;
  }
}
