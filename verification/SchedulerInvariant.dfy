/** What every run of the scheduler keeps: clocks, evidence and watchdog records in
    range, and qualifications that agree with the evidence at all times. */
module SchedulerInvariant {
  import opened SchedulerModel

  // ---- evidence

  /** Everything a checkpoint asks of one cadence model. */
  predicate ModelOk(m: Model, cfg: CandidateConfig, lastEnd: int)
  {
    && 0 <= m.last <= lastEnd && 0 <= m.period && 0 <= m.anchor && 0 <= m.preWake && 0 <= m.postWake
    && m.misses <= m.events && m.effectiveHistory <= |m.history| <= cfg.historyLimit
    && (!m.seen ==> m.last == 0 && m.protocol == "" && !m.learned)
    && (forall i :: 0 <= i < |m.history| ==> 0 < m.history[i])
    && (m.learned ==> m.seen && 0 < m.period && cfg.warmupIntervals <= m.effectiveHistory)
  }

  /** Between arrivals the history in use is none or at least a warm-up. */
  ghost predicate HistoryOk(m: Model, cfg: CandidateConfig)
  {
    m.effectiveHistory == 0 || cfg.warmupIntervals <= m.effectiveHistory
  }

  ghost predicate DurationsOk(c: Candidate)
  {
    && 0 <= c.totalAwake <= c.totalDuration && 0 <= c.awakeDuration <= c.eligibleDuration <= c.totalDuration
  }

  ghost predicate CandidateOk(c: Candidate, lastEnd: int)
  {
    && ValidCandidate(c.cfg) && DurationsOk(c)
    && 0 < c.epoch && 1.0 <= c.wakeScale <= c.cfg.maxWakeScale && 0 <= c.promotionReady && 0 <= c.recoveryUntil
    && forall i :: 0 <= i < |c.models| ==> ModelOk(c.models[i], c.cfg, lastEnd) && HistoryOk(c.models[i], c.cfg)
  }

  /** The qualification fields agree with the evidence: refreshing them can change
      nothing unless a deadline has passed. */
  ghost predicate Settled(env: Env, c: Candidate)
  {
    && (c.qualified ==> QualifiesAt(env, c, AllLearned(c.models), env.cfg.captureTarget))
    && (!c.qualified ==> (c.promotionReady > 0 <==>
          QualifiesAt(env, c, AllLearned(c.models), env.cfg.captureTarget + env.cfg.promotionMargin)))
  }

  // ---- senders

  predicate SortedUpTo(s: seq<int>, bound: int)
  {
    (forall i :: 0 <= i < |s| ==> 0 <= s[i] <= bound) && (forall i, j :: 0 <= i < j < |s| ==> s[i] < s[j])
  }

  ghost predicate SenderOk(env: Env, s: Sender, lastEnd: int)
  {
    && 0 <= s.lastSeen <= lastEnd && (!s.seen ==> s.lastSeen == 0 && s.protocol == "" && s.observations == [])
    && SortedUpTo(s.observations, s.lastSeen) && |s.observations| <= s.total
    && |s.gaps| <= env.cfg.watchdogHistory && (forall i :: 0 <= i < |s.gaps| ==> 0 < s.gaps[i])
    && 0 <= s.learnedOverdue && 0 <= s.obligationDue
    && s.obligationsClosed + s.obligationDeficits + (if s.obligationOpen then 1 else 0) <= s.obligationsOpened
    && !(s.overdueOpen && s.obligationOpen)
  }

  ghost predicate ClockOk(s: Core)
  {
    && 0 <= s.lastEnd && 0 <= s.recoveryUntil && 0 <= s.refreshUntil && 0 <= s.nextRefresh
    && (!s.started ==> s.lastEnd == 0) && s.rng != 0 && "" !in s.protocols
  }

  ghost predicate Inv(env: Env, s: Core)
  {
    && ValidConfig(env.cfg) && 0 <= env.cfg.recoveryDuration && Wired(env, s) && ClockOk(s)
    && (s.selected.Some? ==> env.cfg.mode == Gated)
    && (forall i :: 0 <= i < |s.senders| ==> SenderOk(env, s.senders[i], s.lastEnd))
    && (forall i :: 0 <= i < |s.candidates| ==> CandidateOk(s.candidates[i], s.lastEnd))
    && (forall i :: 0 <= i < |s.candidates| ==> Settled(env, s.candidates[i]))
  }

  // ---- models

  lemma IntervalKeeps(m: Model, delta: int, cfg: CandidateConfig)
    requires ValidCandidate(cfg) && 0 < delta
    requires m.effectiveHistory <= |m.history| <= cfg.historyLimit && HistoryOk(m, cfg)
    requires forall i :: 0 <= i < |m.history| ==> 0 < m.history[i]
    requires m.learned ==> cfg.warmupIntervals <= m.effectiveHistory
    ensures var r := ObserveInterval(m, delta, cfg).0;
      && r.effectiveHistory <= |r.history| <= cfg.historyLimit && HistoryOk(r, cfg)
      && (forall i :: 0 <= i < |r.history| ==> 0 < r.history[i])
      && (r.learned ==> cfg.warmupIntervals <= r.effectiveHistory)
      && r == m.(changePoints := r.changePoints, stableIntervals := r.stableIntervals,
                 effectiveHistory := r.effectiveHistory, history := r.history)
  {
    hide Multiple, ScaleDuration;
  }

  lemma GrowKeeps(num: Numerics, m: Model, cfg: CandidateConfig)
    requires ValidCandidate(cfg)
    requires cfg.warmupIntervals <= |m.history| <= cfg.historyLimit && m.effectiveHistory <= |m.history| &&
             HistoryOk(m, cfg)
    ensures var r := GrowHistory(num, m, cfg);
      && cfg.warmupIntervals <= r.effectiveHistory <= |r.history|
      && r == m.(effectiveHistory := r.effectiveHistory, stableIntervals := r.stableIntervals)
  {
  }

  lemma ObserveModelKeeps(num: Numerics, m: Model, protocol: string, at: int, cfg: CandidateConfig, wakeScale: real,
      lastEnd: int)
    requires ValidCandidate(cfg) && ModelOk(m, cfg, lastEnd) && HistoryOk(m, cfg) && 0 <= at <= lastEnd
    ensures var r := ObserveModel(num, m, protocol, at, cfg, wakeScale).0;
      ModelOk(r, cfg, lastEnd) && HistoryOk(r, cfg) && r.events == m.events && r.misses == m.misses
  {
    hide ObserveInterval, GrowHistory, ScaleDuration, IsR900;
    var switched := m.protocol != "" && m.protocol != protocol;
    var m1 := (if switched then m.(history := [], seen := false, learned := false, effectiveHistory := 0)
               else m).(protocol := protocol);
    if m1.seen && at - m1.last > 0 { IntervalKeeps(m1, at - m1.last, cfg); }
    var m2 := if m1.seen && at - m1.last > 0 then ObserveInterval(m1, at - m1.last, cfg).0 else m1;
    var m3 := m2.(last := at, seen := true);
    if |m3.history| >= cfg.warmupIntervals { GrowKeeps(num, m3, cfg); }
  }

  lemma ReanchorKeeps(m: Model, protocol: string, at: int, cfg: CandidateConfig, lastEnd: int)
    requires ModelOk(m, cfg, lastEnd) && 0 <= at <= lastEnd
    ensures ModelOk(Reanchor(m, protocol, at), cfg, lastEnd)
  {
  }

  lemma LaterModelOk(m: Model, cfg: CandidateConfig, before: int, after: int)
    requires ModelOk(m, cfg, before) && before <= after
    ensures ModelOk(m, cfg, after)
  {
  }

  // ---- candidates

  lemma ScaleBounds(scale: real, step: real, most: real)
    requires 1.0 <= scale <= most && 1.0 < step <= most
    ensures 1.0 <= (if scale * step > most then most else scale * step) <= most
    ensures scale > 1.0 ==> 1.0 <= Tightened(scale, step) <= most
  {
    assert scale * step >= 1.0 by {
      assert (scale - 1.0) * step >= 0.0 by { Nonnegative(scale - 1.0, step); }
    }
    Nonnegative(scale, step - 1.0);
    assert scale * (step - 1.0) == scale * step - scale;
    assert scale / step * step == scale;
    Cancel(scale / step, scale, step);
  }

  lemma Cancel(q: real, s: real, k: real)
    requires 0.0 < k && q * k <= s * k
    ensures q <= s
  {
    assert (s - q) * k == s * k - q * k;
    Sign(s - q, k);
  }

  lemma Sign(d: real, k: real)
    requires 0.0 < k
    ensures d < 0.0 ==> d * k < 0.0
  {
  }

  /** A new epoch leaves no evidence and so nothing that could qualify. */
  lemma EpochKeeps(env: Env, c: Candidate, now: int, widen: bool, lastEnd: int)
    requires CandidateOk(c, lastEnd) && 0 <= now
    ensures CandidateOk(BeginNewEpoch(c, now, widen), lastEnd)
    ensures c.models != [] ==> Settled(env, BeginNewEpoch(c, now, widen))
    ensures c.invalid ==> Settled(env, BeginNewEpoch(c, now, widen))
    ensures BeginNewEpoch(c, now, widen).cfg == c.cfg && |BeginNewEpoch(c, now, widen).models| == |c.models|
  {
    hide ScaleDuration;
    ScaleBounds(c.wakeScale, c.cfg.wakeScaleStep, c.cfg.maxWakeScale);
    var e := BeginNewEpoch(c, now, widen);
    forall i | 0 <= i < |e.models| ensures ModelOk(e.models[i], e.cfg, lastEnd) && HistoryOk(e.models[i], e.cfg) {
      assert ModelOk(c.models[i], c.cfg, lastEnd);
    }
    if c.models != [] { assert e.models[0].events == 0; }
  }

  lemma TightenKeeps(env: Env, c: Candidate, now: int, lastEnd: int)
    requires CandidateOk(c, lastEnd) && 0 <= now && Settled(env, c) && c.models != []
    ensures CandidateOk(TightenAfterRefresh(c, now), lastEnd) && Settled(env, TightenAfterRefresh(c, now))
    ensures TightenAfterRefresh(c, now).cfg == c.cfg && |TightenAfterRefresh(c, now).models| == |c.models|
  {
    hide ScaleDuration, BeginNewEpoch, Tightened;
    if c.wakeScale > 1.0 {
      ScaleBounds(c.wakeScale, c.cfg.wakeScaleStep, c.cfg.maxWakeScale);
      var scale := Tightened(c.wakeScale, c.cfg.wakeScaleStep);
      var ratio := scale / c.wakeScale;
      var narrowed := MapModels(c.models, (m: Model) =>
        if m.learned then m.(preWake := ScaleDuration(m.preWake, ratio), postWake := ScaleDuration(m.postWake, ratio))
        else m);
      var t := c.(wakeScale := scale, models := narrowed);
      forall i | 0 <= i < |narrowed| ensures ModelOk(narrowed[i], c.cfg, lastEnd) && HistoryOk(narrowed[i], c.cfg) {
        assert ModelOk(c.models[i], c.cfg, lastEnd);
      }
      EpochKeeps(env, t, now, false, lastEnd);
    }
  }

  lemma DistrustKeeps(env: Env, c: Candidate, skip: real, now: int, lastEnd: int)
    requires CandidateOk(c, lastEnd) && Settled(env, c) && 0 <= now && 0 <= env.cfg.recoveryDuration
    ensures CandidateOk(Distrust(env, c, skip, now), lastEnd) && Settled(env, Distrust(env, c, skip, now))
    ensures Distrust(env, c, skip, now).cfg == c.cfg && |Distrust(env, c, skip, now).models| == |c.models|
  {
    hide SteadySleep, ModelOk, HistoryOk, ScaleDuration;
    if SteadySleep(c) >= skip { EpochKeeps(env, c.(invalid := true), now, true, lastEnd); }
  }

  lemma ScoreKeeps(env: Env, c: Candidate, awake: bool, duration: int, lastEnd: int)
    requires CandidateOk(c, lastEnd) && 0 < duration
    ensures CandidateOk(Score(c, AllLearned(c.models), awake, duration).0, lastEnd)
    ensures Settled(env, c) && !Score(c, AllLearned(c.models), awake, duration).1 ==>
              Settled(env, Score(c, AllLearned(c.models), awake, duration).0)
    ensures Score(c, AllLearned(c.models), awake, duration).0.models == c.models
    ensures Score(c, AllLearned(c.models), awake, duration).0.cfg == c.cfg
  {
    hide ModelOk, HistoryOk, MeetsBound, AllLearned;
  }

  /** Meeting the promotion target is meeting the capture target. */
  lemma PromotionMeetsCapture(env: Env, c: Candidate, learned: bool)
    requires ValidConfig(env.cfg) && QualifiesAt(env, c, learned, env.cfg.captureTarget + env.cfg.promotionMargin)
    ensures QualifiesAt(env, c, learned, env.cfg.captureTarget)
  {
  }

  /** Refreshing settles a candidate, whatever its qualification fields were. */
  lemma RefreshSettles(env: Env, c: Candidate, now: int)
    requires ValidConfig(env.cfg) && 0 <= now && 0 <= c.promotionReady
    ensures var r := RefreshCandidate(env, c, AllLearned(c.models), now);
      && Settled(env, r) && !Due(r, now) && 0 <= r.promotionReady
      && r == c.(invalid := r.invalid, qualified := r.qualified, promotionReady := r.promotionReady)
  {
    hide MeetsBound, AllLearned;
    var learned := AllLearned(c.models);
    var c1 := if c.invalid && now >= c.recoveryUntil then c.(invalid := false) else c;
    if QualifiesAt(env, c1, learned, env.cfg.captureTarget + env.cfg.promotionMargin) {
      PromotionMeetsCapture(env, c1, learned);
    }
  }

  /** A settled candidate with nothing due is not changed by a refresh. */
  lemma RefreshIdle(env: Env, c: Candidate, now: int)
    requires ValidConfig(env.cfg) && Settled(env, c) && !Due(c, now) && 0 <= c.promotionReady
    ensures RefreshCandidate(env, c, AllLearned(c.models), now) == c
  {
    hide MeetsBound, AllLearned;
  }

  // ---- sender records

  lemma LearnKeeps(env: Env, s: Sender)
    requires 0 <= s.learnedOverdue
    ensures var r := LearnWatchdog(env, s);
      0 <= r.learnedOverdue &&
      r == s.(learnedOverdue := r.learnedOverdue, learnedMinimumCount := r.learnedMinimumCount,
              watchdogLearned := r.watchdogLearned)
  {
    hide ScaleDuration;
  }

  ghost predicate GapsOk(env: Env, gaps: seq<int>)
  {
    |gaps| <= env.cfg.watchdogHistory && forall i :: 0 <= i < |gaps| ==> 0 < gaps[i]
  }

  lemma RecordGapKeeps(env: Env, s: Sender, gap: int)
    requires 0 < gap && GapsOk(env, s.gaps) && 0 <= s.learnedOverdue
    ensures var r := RecordGap(env, s, gap);
      && GapsOk(env, r.gaps) && 0 <= r.learnedOverdue
      && r == s.(gaps := r.gaps, learnedOverdue := r.learnedOverdue, learnedMinimumCount := r.learnedMinimumCount,
                 watchdogLearned := r.watchdogLearned)
  {
    hide LearnWatchdog;
    var longer := s.gaps + [gap];
    var gaps := if |longer| > env.cfg.watchdogHistory then Recent(longer, env.cfg.watchdogHistory) else longer;
    LearnKeeps(env, s.(gaps := gaps));
  }

  lemma RecordGapFrame(env: Env, s: Sender, gap: int)
    ensures var r := RecordGap(env, s, gap);
      r == s.(gaps := r.gaps, learnedOverdue := r.learnedOverdue, learnedMinimumCount := r.learnedMinimumCount,
              watchdogLearned := r.watchdogLearned)
  {
    hide ScaleDuration;
  }

  /** What an arrival makes of a record, whatever it learns from the gap. */
  lemma ArrivedFrame(env: Env, s: Sender, protocol: string, at: int, reanchor: bool)
    ensures var r := Arrived(env, s, protocol, at, reanchor);
      && r.observations == s.observations + [at] && r.lastSeen == at && r.seen && r.cfg == s.cfg
      && !r.overdueOpen && !r.obligationOpen
  {
    hide RecordGap;
    RecordGapFrame(env, Noted(s, protocol, at), at - s.lastSeen);
  }

  lemma LaterObservation(s: seq<int>, last: int, at: int)
    requires SortedUpTo(s, last) && 0 <= at && (last < at || s == [])
    ensures SortedUpTo(s + [at], at)
  {
  }

  lemma NotedKeeps(env: Env, s: Sender, protocol: string, at: int, lastEnd: int)
    requires SenderOk(env, s, lastEnd) && 0 <= at <= lastEnd && (s.seen ==> s.lastSeen < at)
    ensures SenderOk(env, Noted(s, protocol, at), lastEnd) && GapsOk(env, s.gaps)
  {
    LaterObservation(s.observations, s.lastSeen, at);
    hide SortedUpTo;
  }

  /** What has been learned from gaps does not matter to the rest of the record. */
  lemma LearnedKeeps(env: Env, s: Sender, r: Sender, lastEnd: int)
    requires SenderOk(env, s, lastEnd) && GapsOk(env, r.gaps) && 0 <= r.learnedOverdue
    requires r == s.(gaps := r.gaps, learnedOverdue := r.learnedOverdue, learnedMinimumCount := r.learnedMinimumCount,
                     watchdogLearned := r.watchdogLearned)
    ensures SenderOk(env, r, lastEnd)
  {
    hide SortedUpTo;
  }

  lemma ArrivedKeeps(env: Env, s: Sender, protocol: string, at: int, reanchor: bool, lastEnd: int)
    requires ValidConfig(env.cfg) && SenderOk(env, s, lastEnd) && 0 <= at <= lastEnd && (s.seen ==> s.lastSeen < at)
    ensures var r := Arrived(env, s, protocol, at, reanchor);
      SenderOk(env, r, lastEnd) && !r.obligationOpen && !r.overdueOpen && r.cfg == s.cfg && r.lastSeen == at && r.seen
  {
    NotedKeeps(env, s, protocol, at, lastEnd);
    ArrivedFrame(env, s, protocol, at, reanchor);
    var s1 := Noted(s, protocol, at);
    assert s1.gaps == s.gaps && 0 <= s1.learnedOverdue;
    hide SenderOk, GapsOk, Noted, RecordGap, ValidConfig;
    if s.seen && !reanchor {
      RecordGapKeeps(env, s1, at - s.lastSeen);
      LearnedKeeps(env, s1, RecordGap(env, s1, at - s.lastSeen), lastEnd);
    }
  }

  lemma ObserveSenderKeeps(env: Env, s: Sender, protocol: string, at: int, reanchor: bool, lastEnd: int)
    requires ValidConfig(env.cfg) && SenderOk(env, s, lastEnd) && 0 <= at <= lastEnd && (s.seen ==> s.lastSeen < at)
    ensures SenderOk(env, ObserveSender(env, s, protocol, at, reanchor), lastEnd)
    ensures ObserveSender(env, s, protocol, at, reanchor).cfg == s.cfg
  {
    hide Arrived, Trimmed;
    ArrivedKeeps(env, s, protocol, at, reanchor, lastEnd);
  }

  lemma JudgeKeeps(env: Env, s: Sender, now: int, count: nat, lastEnd: int)
    requires SenderOk(env, s, lastEnd)
    ensures SenderOk(env, Judge(env.cfg, s, now, count).sender, lastEnd) &&
            Judge(env.cfg, s, now, count).sender.cfg == s.cfg
    ensures var r := Judge(env.cfg, s, now, count).sender;
      r.watchdogLearned == s.watchdogLearned && r.observations == s.observations
  {
  }

  ghost predicate SendersOk(env: Env, senders: seq<Sender>, lastEnd: int)
  {
    |senders| == |env.cfg.senders| &&
    forall i :: 0 <= i < |senders| ==> SenderOk(env, senders[i], lastEnd) && senders[i].cfg == env.cfg.senders[i]
  }

  lemma {:induction false} PassKeeps(env: Env, s: Core, now: int, n: nat, lastEnd: int)
    requires n <= |s.senders| && SendersOk(env, s.senders, lastEnd)
    ensures SendersOk(env, PassOver(env, s, now, n).senders, lastEnd)
    ensures "" !in s.protocols ==> "" !in PassOver(env, s, now, n).protocols
  {
    hide SenderOk, Judge, InWindow;
    if n > 0 {
      PassKeeps(env, s, now, n - 1, lastEnd);
      var p := PassOver(env, s, now, n - 1);
      JudgeKeeps(env, p.senders[n - 1], now, InWindow(env.cfg, p.senders[n - 1], now), lastEnd);
    }
  }

  // ---- whole steps

  ghost predicate CandidatesOk(env: Env, cs: seq<Candidate>, senders: nat, lastEnd: int)
  {
    |cs| == |env.cfg.candidates| &&
    forall i :: 0 <= i < |cs| ==>
      CandidateOk(cs[i], lastEnd) && cs[i].cfg == env.cfg.candidates[i] && |cs[i].models| == senders
  }

  ghost predicate AllSettled(env: Env, cs: seq<Candidate>)
  {
    forall i :: 0 <= i < |cs| ==> Settled(env, cs[i])
  }

  ghost predicate SelectedOk(env: Env, s: Core)
  {
    s.selected.Some? ==> env.cfg.mode == Gated && s.selected.value < |s.candidates|
  }

  ghost predicate ConfigOk(env: Env)
  {
    ValidConfig(env.cfg) && 0 <= env.cfg.recoveryDuration
  }

  /** `Inv` in the shape the step lemmas use. */
  ghost predicate Parts(env: Env, s: Core)
  {
    && ConfigOk(env) && ClockOk(s) && SelectedOk(env, s) && SendersOk(env, s.senders, s.lastEnd)
    && CandidatesOk(env, s.candidates, |s.senders|, s.lastEnd)
  }

  lemma InvIsParts(env: Env, s: Core)
    ensures Inv(env, s) <==> Parts(env, s) && AllSettled(env, s.candidates)
  {
    hide ClockOk, SenderOk, CandidateOk, Settled, ValidConfig;
  }

  lemma NewKeeps(env: Env)
    requires ConfigOk(env)
    ensures Inv(env, NewCore(env)) && NewCore(env).selected == None && !NewCore(env).started
  {
    var s := NewCore(env);
    forall i | 0 <= i < |s.candidates| ensures CandidateOk(s.candidates[i], 0) && Settled(env, s.candidates[i]) {
      assert ValidCandidate(env.cfg.candidates[i]);
    }
  }

  lemma EnterRecoveryKeeps(env: Env, s: Core, now: int)
    requires Parts(env, s) && 0 <= now
    ensures Parts(env, EnterRecovery(env, s, now))
    ensures EnterRecovery(env, s, now).recoveryUntil >= s.recoveryUntil
    ensures EnterRecovery(env, s, now).recoveryUntil >= now + env.cfg.recoveryDuration
  {
    hide SendersOk, CandidatesOk, ValidConfig;
  }

  lemma RecoverKeeps(env: Env, s: Core, skip: real, now: int)
    requires Parts(env, s) && 0 <= now
    ensures Parts(env, RecoverAtLeast(env, s, skip, now))
    ensures AllSettled(env, s.candidates) ==> AllSettled(env, RecoverAtLeast(env, s, skip, now).candidates)
  {
    hide SendersOk, Distrust, Settled, CandidateOk, ValidConfig;
    forall i | 0 <= i < |s.candidates|
      ensures var d := Distrust(env, s.candidates[i], skip, now);
        CandidateOk(d, s.lastEnd) && (Settled(env, s.candidates[i]) ==> Settled(env, d)) &&
        d.cfg == s.candidates[i].cfg && |d.models| == |s.candidates[i].models|
    {
      DistrustOk(env, s.candidates[i], skip, now, s.lastEnd);
      if Settled(env, s.candidates[i]) { DistrustKeeps(env, s.candidates[i], skip, now, s.lastEnd); }
    }
  }

  lemma DistrustOk(env: Env, c: Candidate, skip: real, now: int, lastEnd: int)
    requires CandidateOk(c, lastEnd) && 0 <= now && 0 <= env.cfg.recoveryDuration
    ensures CandidateOk(Distrust(env, c, skip, now), lastEnd)
    ensures Distrust(env, c, skip, now).cfg == c.cfg && |Distrust(env, c, skip, now).models| == |c.models|
  {
    hide SteadySleep, ModelOk, HistoryOk, ScaleDuration;
    if SteadySleep(c) >= skip { EpochKeeps(env, c.(invalid := true), now, true, lastEnd); }
  }

  lemma CheckKeeps(env: Env, s: Core, now: int)
    requires Parts(env, s) && 0 <= now
    ensures Parts(env, CheckWatchdogs(env, s, now)) && CheckWatchdogs(env, s, now).recoveryUntil >= s.recoveryUntil
    ensures AllSettled(env, s.candidates) ==> AllSettled(env, CheckWatchdogs(env, s, now).candidates)
    ensures CheckWatchdogs(env, s, now).reanchorPending == s.reanchorPending &&
            CheckWatchdogs(env, s, now).lastEnd == s.lastEnd
    ensures CheckWatchdogs(env, s, now).started == s.started &&
            CheckWatchdogs(env, s, now).discontinuities == s.discontinuities
  {
    hide SendersOk, CandidatesOk, AllSettled, PassOver, RecoverAtLeast, SteadySleep, ValidConfig;
    PassKeeps(env, s, now, |s.senders|, s.lastEnd);
    var p := PassOver(env, s, now, |s.senders|);
    var s1 := s.(senders := p.senders, deadlineDeficits := p.deadlineDeficits, countDeficits := p.countDeficits,
                 protocols := p.protocols);
    if s.selected.Some? {
      var skip := SteadySleep(s.candidates[s.selected.value]);
      RecoverKeeps(env, s1, skip, now);
      assert RecoverAtLeast(env, s1, skip, now) == s1.(candidates := RecoverAtLeast(env, s1, skip, now).candidates) by {
        RecoverFrame(env, s1, skip, now);
      }
      EnterRecoveryKeeps(env, RecoverAtLeast(env, s1, skip, now), now);
    }
  }

  lemma RecoverFrame(env: Env, s: Core, skip: real, now: int)
    ensures RecoverAtLeast(env, s, skip, now) == s.(candidates := RecoverAtLeast(env, s, skip, now).candidates)
    ensures |RecoverAtLeast(env, s, skip, now).candidates| == |s.candidates|
  {
    hide Distrust;
  }

  lemma RefreshKeeps(env: Env, s: Core, now: int)
    requires Parts(env, s) && 0 <= now
    ensures Parts(env, Refresh(env, s, now)) && AllSettled(env, Refresh(env, s, now).candidates)
    ensures Refresh(env, s, now) == s.(candidates := Refresh(env, s, now).candidates) &&
            !AnyDue(Refresh(env, s, now).candidates, now)
  {
    hide SendersOk, RefreshCandidate, Settled, ValidConfig, Due;
    forall i | 0 <= i < |s.candidates|
      ensures var r := RefreshCandidate(env, s.candidates[i], AllLearned(s.candidates[i].models), now);
        CandidateOk(r, s.lastEnd) && Settled(env, r) && !Due(r, now) && r.cfg == s.candidates[i].cfg &&
        |r.models| == |s.candidates[i].models|
    {
      RefreshSettles(env, s.candidates[i], now);
    }
  }

  lemma ChooseKeeps(env: Env, s: Core)
    requires Parts(env, s)
    ensures Parts(env, Choose(env, s)) && Choose(env, s) == s.(selected := Choose(env, s).selected)
    ensures Choose(env, s).selected.Some? ==> MaySelect(env, s) && s.candidates[Choose(env, s).selected.value].qualified
  {
    hide SendersOk, CandidatesOk, WatchdogsReady, ValidConfig;
  }

  lemma EndRefreshKeeps(env: Env, s: Core, start: int)
    requires Parts(env, s) && AllSettled(env, s.candidates) && 0 <= start && Tightenable(s)
    ensures Parts(env, EndRefresh(env, s, start)) && AllSettled(env, EndRefresh(env, s, start).candidates)
    ensures var r := EndRefresh(env, s, start);
      r == s.(candidates := r.candidates, selected := r.selected, refreshUntil := r.refreshUntil,
              nextRefresh := r.nextRefresh)
  {
    hide SenderOk, Settled, CandidateOk, TightenAfterRefresh;
    if s.refreshUntil > 0 && start >= s.refreshUntil && s.selected.Some? {
      TightenKeeps(env, s.candidates[s.selected.value], start, s.lastEnd);
    }
  }

  lemma ScoredKeeps(env: Env, c: Candidate, start: int, end: int, lastEnd: int)
    requires CandidateOk(c, lastEnd) && start < end
    ensures var r := Scored(c, start, end);
      CandidateOk(r, lastEnd) && r.cfg == c.cfg && r.models == c.models &&
      (Settled(env, c) && Begun(c) ==> Settled(env, r))
  {
    hide CandidateOk, Settled, Score, Awake, AllLearned;
    ScoreKeeps(env, c, Awake(c.models, start, end), end - start, lastEnd);
    FirstEligible(c, AllLearned(c.models), Awake(c.models, start, end), end - start);
  }

  lemma ScoreAllKeeps(env: Env, s: Core, start: int, end: int)
    requires Parts(env, s) && start < end
    ensures Parts(env, ScoreAll(s, start, end)) &&
            ScoreAll(s, start, end) == s.(candidates := ScoreAll(s, start, end).candidates)
    ensures AllSettled(env, s.candidates) && (forall i :: 0 <= i < |s.candidates| ==> Begun(s.candidates[i])) ==>
              AllSettled(env, ScoreAll(s, start, end).candidates)
  {
    hide SendersOk, Settled, CandidateOk, ValidConfig, Scored, Begun;
    forall i | 0 <= i < |s.candidates|
      ensures var c := s.candidates[i]; var r := Scored(c, start, end);
        CandidateOk(r, s.lastEnd) && r.cfg == c.cfg && r.models == c.models &&
        (Settled(env, c) && Begun(c) ==> Settled(env, r))
    {
      ScoredKeeps(env, s.candidates[i], start, end, s.lastEnd);
    }
  }

  lemma FirstEligible(c: Candidate, eligible: bool, awake: bool, duration: int)
    ensures Score(c, eligible, awake, duration).1 <==> eligible && c.eligibleDuration == 0
  {
  }

  /** Time moves on: every record stays in range. */
  lemma LaterParts(env: Env, s: Core, end: int)
    requires Parts(env, s) && s.lastEnd <= end
    ensures Parts(env, s.(started := true, lastEnd := end))
  {
    hide ValidConfig;
    var t := s.(started := true, lastEnd := end);
    forall i | 0 <= i < |t.candidates| ensures CandidateOk(t.candidates[i], end) {
      var c := s.candidates[i];
      assert CandidateOk(c, s.lastEnd);
      forall j | 0 <= j < |c.models| ensures ModelOk(c.models[j], c.cfg, end) && HistoryOk(c.models[j], c.cfg) {
        LaterModelOk(c.models[j], c.cfg, s.lastEnd, end);
      }
    }
    forall i | 0 <= i < |t.senders| ensures SenderOk(env, t.senders[i], end) {
      assert SenderOk(env, s.senders[i], s.lastEnd);
    }
  }

  lemma ResetKeeps(env: Env, s: Core, end: int)
    requires Parts(env, s) && 0 <= end
    ensures var r := ResetLearning(s.(started := true, lastEnd := end)).(selected := None);
      Parts(env, r) && AllSettled(env, r.candidates) && r.recoveryUntil == s.recoveryUntil && r.lastEnd == end
  {
    hide ValidConfig;
    var r := ResetLearning(s.(started := true, lastEnd := end)).(selected := None);
    forall i | 0 <= i < |r.candidates| ensures CandidateOk(r.candidates[i], end) && Settled(env, r.candidates[i]) {
      assert CandidateOk(s.candidates[i], s.lastEnd);
    }
    forall i | 0 <= i < |r.senders| ensures SenderOk(env, r.senders[i], end) {
      assert SenderOk(env, s.senders[i], s.lastEnd);
    }
  }

  /** A decision changes only what concerns sleeping and refresh periods. */
  lemma DecideFrame(env: Env, s: Core, end: int)
    requires (s.selected.Some? ==> s.selected.value < |s.candidates|) && 0 <= end && s.rng != 0 &&
             0 <= s.refreshUntil && 0 <= s.nextRefresh
    ensures var r := Decide(env, s, end).0;
      && r == s.(quietActive := r.quietActive, auditActive := r.auditActive, quietCandidate := r.quietCandidate,
                 rng := r.rng, refreshUntil := r.refreshUntil, nextRefresh := r.nextRefresh, refreshes := r.refreshes)
      && r.rng != 0 && 0 <= r.refreshUntil && 0 <= r.nextRefresh
  {
    hide UnitOf, XorShift, AuditFraction, RefreshPeriod, StateOf, SelectedName, PlanRefresh, SleepInterval;
    PlanFrame(env, s, end);
  }

  lemma PlanFrame(env: Env, s: Core, end: int)
    requires s.selected.Some? ==> s.selected.value < |s.candidates|
    ensures var r := PlanRefresh(env, s, end);
      && r == s.(refreshUntil := r.refreshUntil, nextRefresh := r.nextRefresh, refreshes := r.refreshes)
      && (0 <= end && 0 <= s.refreshUntil && 0 <= s.nextRefresh ==> 0 <= r.refreshUntil && 0 <= r.nextRefresh)
  {
    hide RefreshPeriod;
  }

  lemma DecideKeeps(env: Env, s: Core, end: int)
    requires Parts(env, s) && 0 <= end
    ensures var r := Decide(env, s, end).0;
      && Parts(env, r) && r.candidates == s.candidates && r.senders == s.senders && r.selected == s.selected
      && r.recoveryUntil == s.recoveryUntil && r.lastEnd == s.lastEnd && r.reanchorPending == s.reanchorPending
      && r.discontinuities == s.discontinuities
  {
    hide SendersOk, CandidatesOk, Decide, ConfigOk;
    DecideFrame(env, s, end);
  }

  /** A contiguous block, up to the decision. */
  lemma SettleKeeps(env: Env, s: Core, start: int, end: int)
    requires Inv(env, s) && Tightenable(s) && Continues(s, start, end)
    ensures var r := Settle(env, s, start, end);
      && Parts(env, r) && AllSettled(env, r.candidates) && r.recoveryUntil >= s.recoveryUntil && r.lastEnd == end &&
         r.started
      && r.discontinuities == s.discontinuities
      && !AnyDue(r.candidates, end)
      && (r.selected.Some? ==> MaySelect(env, r) && r.candidates[r.selected.value].qualified)
  {
    hide SendersOk, CandidatesOk, AllSettled, EndRefresh, ScoreAll, CheckWatchdogs, Refresh, Choose, WatchdogsReady,
         ValidConfig, ClockOk, Wired, AnyDue;
    InvIsParts(env, s);
    NotBehind(env, s, start, end);
    var s0 := s.(started := true, lastEnd := end);
    LaterParts(env, s, end);
    var s1 := EndRefresh(env, s0, start);
    EndRefreshKeeps(env, s0, start);
    var s2 := ScoreAll(s1, start, end);
    ScoreAllKeeps(env, s1, start, end);
    var s3 := CheckWatchdogs(env, s2, end);
    CheckKeeps(env, s2, end);
    var s4 := Refresh(env, s3, end);
    RefreshKeeps(env, s3, end);
    ChooseKeeps(env, s4);
  }

  lemma NotBehind(env: Env, s: Core, start: int, end: int)
    requires Parts(env, s) && Continues(s, start, end)
    ensures s.lastEnd <= start < end
  {
  }

  lemma RecoveryIgnoresSelection(env: Env, s: Core, now: int)
    ensures EnterRecovery(env, s, now) == EnterRecovery(env, s.(selected := None), now)
  {
  }

  lemma DiscontinuityKeeps(env: Env, s: Core, start: int, end: int)
    requires Inv(env, s)
    ensures var r := Discontinuity(env, s, start, end).0;
      Inv(env, r) && r.recoveryUntil >= s.recoveryUntil && r.recoveryUntil >= r.lastEnd + env.cfg.recoveryDuration
  {
    hide Inv, Parts, AllSettled, ResetLearning, StateOf, EnterRecovery;
    InvIsParts(env, s);
    LastEndNonnegative(env, s);
    var end' := if end > start && end >= 0 then end else s.lastEnd;
    ResetKeeps(env, s, end');
    var r0 := ResetLearning(s.(started := true, lastEnd := end'));
    RecoveryIgnoresSelection(env, r0, end');
    EnterRecoveryKeeps(env, r0.(selected := None), end');
    EnterRecoveryFrame(env, r0.(selected := None), end');
    InvIsParts(env, Discontinuity(env, s, start, end).0);
  }

  lemma EnterRecoveryFrame(env: Env, s: Core, now: int)
    ensures var r := EnterRecovery(env, s, now);
      r.lastEnd == s.lastEnd && r.candidates == s.candidates && r.senders == s.senders && r.started == s.started
  {
  }

  lemma LastEndNonnegative(env: Env, s: Core)
    requires Parts(env, s)
    ensures 0 <= s.lastEnd
  {
  }

  /** Every block keeps the invariant. */
  lemma AdvanceKeeps(env: Env, s: Core, start: int, end: int)
    requires Inv(env, s) && Tightenable(s)
    ensures Inv(env, Advance(env, s, start, end).0) && Advance(env, s, start, end).0.recoveryUntil >= s.recoveryUntil
  {
    hide Inv, Parts, Settle, Decide, Discontinuity, AllSettled;
    if Continues(s, start, end) {
      SettleKeeps(env, s, start, end);
      DecideKeeps(env, Settle(env, s, start, end), end);
      InvIsParts(env, Advance(env, s, start, end).0);
    } else {
      DiscontinuityKeeps(env, s, start, end);
    }
  }

  // ---- observing

  lemma ObserveCandidateKeeps(env: Env, c: Candidate, i: nat, a: Arrival, reanchor: bool, lastEnd: int)
    requires CandidateOk(c, lastEnd) && i < |c.models| && 0 <= a.at <= lastEnd
    ensures var r := ObserveCandidate(env, c, i, a, reanchor);
      CandidateOk(r, lastEnd) && r.cfg == c.cfg && |r.models| == |c.models|
  {
    hide ObserveModel, Reanchor, ModelOk, BeginNewEpoch;
    var m := c.models[i];
    assert ModelOk(m, c.cfg, lastEnd) && HistoryOk(m, c.cfg);
    if reanchor {
      ReanchorKeeps(m, a.protocol, a.at, c.cfg, lastEnd);
      ReanchorHistory(m, a.protocol, a.at, c.cfg);
    } else {
      var misses := if c.lastAwake then m.misses else m.misses + 1;
      var m1 := if c.lastEligible then m.(events := m.events + 1, misses := misses) else m;
      CountKeeps(m, m1, c.cfg, lastEnd);
      ObserveModelKeeps(env.num, m1, a.protocol, a.at, c.cfg, c.wakeScale, lastEnd);
      var m2 := ObserveModel(env.num, m1, a.protocol, a.at, c.cfg, c.wakeScale).0;
      EpochKeeps(env, c.(models := c.models[i := m2]), a.at, true, lastEnd);
    }
  }

  lemma ReanchorHistory(m: Model, protocol: string, at: int, cfg: CandidateConfig)
    requires HistoryOk(m, cfg)
    ensures HistoryOk(Reanchor(m, protocol, at), cfg)
  {
  }

  lemma CountKeeps(m: Model, m1: Model, cfg: CandidateConfig, lastEnd: int)
    requires ModelOk(m, cfg, lastEnd) && HistoryOk(m, cfg)
    requires m1 == m || m1 == m.(events := m.events + 1) || m1 == m.(events := m.events + 1, misses := m.misses + 1)
    ensures ModelOk(m1, cfg, lastEnd) && HistoryOk(m1, cfg)
  {
  }

  lemma TakeKeeps(env: Env, s: Core, a: Arrival, i: nat)
    requires Parts(env, s) && Consistent(s) && i < |s.senders| && 0 <= a.at <= s.lastEnd &&
             (s.senders[i].seen ==> s.senders[i].lastSeen < a.at)
    ensures Parts(env, TakeArrival(env, s, a, i))
    ensures var r := TakeArrival(env, s, a, i);
      r == s.(senders := r.senders, protocols := r.protocols, candidates := r.candidates,
              reanchorPending := r.reanchorPending)
  {
    hide ObserveCandidate, ObserveSender, SenderOk, CandidateOk, ValidConfig;
    var reanchor := a.id in s.reanchorPending;
    ObserveSenderKeeps(env, s.senders[i], a.protocol, a.at, reanchor, s.lastEnd);
    forall k | 0 <= k < |s.candidates|
      ensures var r := ObserveCandidate(env, s.candidates[k], i, a, reanchor);
        CandidateOk(r, s.lastEnd) && r.cfg == s.candidates[k].cfg && |r.models| == |s.candidates[k].models|
    {
      ObserveCandidateKeeps(env, s.candidates[k], i, a, reanchor, s.lastEnd);
    }
  }

  lemma PunishKeeps(env: Env, s: Core, a: Arrival)
    requires Parts(env, s) && 0 <= a.at
    ensures Parts(env, PunishEscape(env, s, a)) && PunishEscape(env, s, a).recoveryUntil >= s.recoveryUntil
    ensures PunishEscape(env, s, a).lastEnd == s.lastEnd
    ensures Escapes(env, s, a) ==> PunishEscape(env, s, a).recoveryUntil >= s.lastEnd + env.cfg.recoveryDuration
  {
    hide SendersOk, CandidatesOk, RecoverAtLeast, SteadySleep, ValidConfig;
    if s.selected.Some? {
      var skip := SteadySleep(s.candidates[s.selected.value]);
      RecoverKeeps(env, s, skip, a.at);
      RecoverFrame(env, s, skip, a.at);
      EnterRecoveryKeeps(env, RecoverAtLeast(env, s, skip, a.at), s.lastEnd);
    }
  }

  /** Every arrival keeps the invariant, unless one from the future is taken. */
  lemma ObserveKeeps(env: Env, s: Core, a: Arrival)
    requires Inv(env, s) && Consistent(s) && (Admit(s, a).Taken? ==> a.at <= s.lastEnd)
    ensures Inv(env, Observe(env, s, a)) && Observe(env, s, a).recoveryUntil >= s.recoveryUntil
    ensures Observe(env, s, a).lastEnd == s.lastEnd
  {
    hide Parts, AllSettled, TakeArrival, PunishEscape, Refresh, Choose, Inv, Wired;
    InvIsParts(env, s);
    match Admit(s, a)
    case Ignored =>
    case Fault =>
      LastEndNonnegative(env, s);
      EnterRecoveryKeeps(env, s, s.lastEnd);
      InvIsParts(env, Observe(env, s, a));
    case Taken(i) =>
      TakeKeeps(env, s, a, i);
      var s1 := TakeArrival(env, s, a, i);
      SelectedInRange(env, s1);
      PunishKeeps(env, s1, a);
      var s2 := PunishEscape(env, s1, a);
      RefreshKeeps(env, s2, a.at);
      ChooseKeeps(env, Refresh(env, s2, a.at));
      InvIsParts(env, Observe(env, s, a));
  }

  lemma SelectedInRange(env: Env, s: Core)
    requires Parts(env, s)
    ensures s.selected.Some? ==> s.selected.value < |s.candidates|
  {
  }

  lemma ResumeKeeps(env: Env, s: Core)
    requires Inv(env, s)
    ensures Inv(env, PrepareResume(s)) && PrepareResume(s).recoveryUntil == s.recoveryUntil &&
            PrepareResume(s).lastEnd == s.lastEnd
  {
    hide SenderOk, CandidateOk, Settled, ValidConfig;
  }
}
