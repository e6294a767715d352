/** When a block is skipped, exactly: refresh periods, audits and quiet intervals. */
module SleepDecision {
  import opened SchedulerModel
  import opened SchedulerInvariant
  import opened SchedulerSound
  import opened SchedulerRuns

  // ---- refresh periods

  /** A block that ends at `end` begins a refresh period for the selected candidate. */
  predicate BeginsRefresh(s: Core, end: int)
  {
    s.selected.Some? && end >= s.recoveryUntil && s.nextRefresh != 0 && end >= s.nextRefresh
  }

  /** The time between refresh periods shrinks with the candidate's scale, to a quarter at
      most and never to less than a minute. */
  lemma PeriodMeans(c: Candidate, base: nat)
    ensures var p := RefreshPeriod(c, base); var scale := if c.wakeScale < 4.0 then c.wakeScale else 4.0;
      && (c.wakeScale <= 1.0 ==> p == base)
      && (c.wakeScale > 1.0 ==>
            || (p == MINUTE && base as real / scale < MINUTE as real + 1.0)
            || (p >= MINUTE && p as real <= base as real / scale < p as real + 1.0))
  {
  }

  lemma PlanMeans(env: Env, s: Core, end: int)
    requires (s.selected.Some? ==> s.selected.value < |s.candidates|) && 0 < env.cfg.refreshInterval
    ensures var r := PlanRefresh(env, s, end);
      && r == s.(refreshUntil := r.refreshUntil, nextRefresh := r.nextRefresh, refreshes := r.refreshes)
      && (BeginsRefresh(s, end) ==>
            && r.refreshUntil == end + env.cfg.refreshDuration && r.refreshes == s.refreshes + 1
            && r.nextRefresh == end + RefreshPeriod(s.candidates[s.selected.value], env.cfg.refreshInterval))
      && (!BeginsRefresh(s, end) ==> r.refreshUntil == s.refreshUntil && r.refreshes == s.refreshes)
      && (s.selected.Some? && end >= s.recoveryUntil && s.nextRefresh == 0 ==>
            r.nextRefresh == end + RefreshPeriod(s.candidates[s.selected.value], env.cfg.refreshInterval))
      && (!BeginsRefresh(s, end) && !(s.selected.Some? && end >= s.recoveryUntil && s.nextRefresh == 0) ==>
            r.nextRefresh == s.nextRefresh)
  {
    if s.selected.Some? { PeriodPositive(s.candidates[s.selected.value], env.cfg.refreshInterval); }
    hide RefreshPeriod;
  }

  lemma PeriodPositive(c: Candidate, base: nat)
    requires 0 < base
    ensures 0 < RefreshPeriod(c, base)
  {
  }

  /** At its start a block ends a refresh period that is over, and with it the selection. */
  lemma RefreshEnds(env: Env, s: Core, start: int)
    requires Tightenable(s)
    ensures var r := EndRefresh(env, s, start);
      && (0 < s.refreshUntil <= start ==>
            r == s.(candidates := r.candidates, selected := None, refreshUntil := 0, nextRefresh := 0))
      && (!(0 < s.refreshUntil <= start) ==> r == s)
  {
    hide TightenAfterRefresh;
  }

  // ---- audits

  /** The draw lies in `[0, 1)`. */
  lemma DrawInRange(x: bv64)
    ensures 0.0 <= UnitOf(x) < 1.0
  {
  }

  /** The fraction of quiet intervals to audit grows with the scale, up to all of them. */
  lemma FractionMeans(c: Candidate)
    ensures AuditFraction(c) <= 1.0 && AuditFraction(c) <= c.cfg.auditFraction * c.wakeScale
    ensures AuditFraction(c) in {1.0, c.cfg.auditFraction * c.wakeScale}
  {
  }

  /** What selection compares: the time slept less the time it is audited for. */
  lemma EffectiveMeans(c: Candidate)
    ensures var sleep := if c.eligibleDuration <= 0 then 0.0
                         else 1.0 - c.awakeDuration as real / c.eligibleDuration as real;
            var audited := sleep * AuditFraction(c);
      EffectiveSleep(c) == sleep - audited
  {
    hide AuditFraction;
  }

  /** A fraction of one audits every quiet interval, a fraction of zero none. */
  lemma DrawExtremes(c: Candidate, x: bv64)
    ensures AuditFraction(c) == 1.0 ==> UnitOf(x) < AuditFraction(c)
    ensures AuditFraction(c) == 0.0 ==> !(UnitOf(x) < AuditFraction(c))
  {
    hide UnitOf, AuditFraction;
    DrawInRange(x);
  }

  // ---- the verdict

  /** The selected candidate was eligible and no window was open. */
  predicate AsleepNow(s: Core)
    requires s.selected.Some? ==> s.selected.value < |s.candidates|
  {
    s.selected.Some? && s.candidates[s.selected.value].lastEligible && !s.candidates[s.selected.value].lastAwake
  }

  /** The quiet interval under way is this candidate's. */
  predicate SameQuiet(s: Core)
    requires s.selected.Some? ==> s.selected.value < |s.candidates|
  {
    s.quietActive && s.selected.Some? && s.quietCandidate == s.candidates[s.selected.value].cfg.name
  }

  predicate Sleeps(env: Env, s: Core, end: int, refresh: bool)
    requires s.selected.Some? ==> s.selected.value < |s.candidates|
  {
    env.cfg.mode == Gated && end >= s.recoveryUntil && !refresh && AsleepNow(s)
  }

  /** The verdict on a block: it is refreshed in a refresh period; otherwise a gated
      scheduler past its recovery sleeps exactly if the selected candidate does, unless
      the quiet interval was drawn for an audit. */
  lemma VerdictMeans(env: Env, s: Core, end: int)
    requires s.selected.Some? ==> s.selected.value < |s.candidates|
    ensures var (r, d) := Decide(env, s, end); var sleeps := Sleeps(env, s, end, d.refresh);
      && (d.refresh <==> s.selected.Some? && end < r.refreshUntil)
      && (d.decode <==> !sleeps || r.auditActive) && (d.audit <==> sleeps && r.auditActive)
      && r.quietActive == sleeps
      && d.selected == (if s.selected.Some? then s.candidates[s.selected.value].cfg.name else "")
      && r == PlanRefresh(env, s, end).(quietActive := r.quietActive, auditActive := r.auditActive,
                                        quietCandidate := r.quietCandidate, rng := r.rng)
  {
    hide UnitOf, XorShift, AuditFraction, PlanRefresh, StateOf;
    PlanFrame(env, s, end);
  }

  /** A block that is not slept through ends the quiet interval. */
  lemma QuietEnds(env: Env, s: Core, end: int)
    requires s.selected.Some? ==> s.selected.value < |s.candidates|
    ensures var (r, d) := Decide(env, s, end);
      !Sleeps(env, s, end, d.refresh) ==> !r.auditActive && r.quietCandidate == "" && r.rng == s.rng
  {
    hide UnitOf, XorShift, AuditFraction, PlanRefresh, StateOf, SelectedName;
    PlanFrame(env, s, end);
  }

  /** The quiet interval: it is the selected candidate's; the draw is made when it begins and
      holds until it ends. */
  lemma DrawMeans(env: Env, s: Core, end: int)
    requires s.selected.Some? ==> s.selected.value < |s.candidates|
    ensures var (r, d) := Decide(env, s, end); var sleeps := Sleeps(env, s, end, d.refresh);
      && (sleeps ==> r.quietCandidate == s.candidates[s.selected.value].cfg.name)
      && (sleeps && SameQuiet(s) ==> r.auditActive == s.auditActive && r.rng == s.rng)
      && (sleeps && !SameQuiet(s) ==>
            && r.rng == XorShift(s.rng)
            && r.auditActive == (UnitOf(r.rng) < AuditFraction(s.candidates[s.selected.value])))
  {
    hide UnitOf, XorShift, AuditFraction, PlanRefresh, StateOf;
    PlanFrame(env, s, end);
  }

  /** What the scheduler calls its state. */
  lemma StateMeans(env: Env, s: Core)
    ensures var name := StateOf(env, s);
      && (name == OFF <==> env.cfg.mode == Off)
      && (name == RECOVERY <==> env.cfg.mode != Off && s.lastEnd < s.recoveryUntil)
      && (name == GATED <==> env.cfg.mode == Gated && s.lastEnd >= s.recoveryUntil && s.selected.Some?)
      && (name == QUALIFIED ==>
            WatchdogsReady(s.senders) && exists i :: 0 <= i < |s.candidates| && s.candidates[i].qualified)
      && (name == SEED ==>
            !WatchdogsReady(s.senders) || forall i :: 0 <= i < |s.candidates| ==> !s.candidates[i].qualified)
  {
    hide WatchdogsReady;
  }

  /** The decision names the state it was made in. */
  lemma DecisionState(env: Env, s: Core, end: int)
    requires s.selected.Some? ==> s.selected.value < |s.candidates|
    ensures Decide(env, s, end).1.state == StateOf(env, s)
  {
    hide UnitOf, XorShift, AuditFraction, PlanRefresh, StateOf;
  }

  // ---- exactly when a block is skipped

  /** Who is selected when the verdict falls: nobody while selection is barred, and else the
      best of the candidates. */
  lemma SelectionMeans(env: Env, s: Core)
    ensures var r := Choose(env, s); var barred := env.cfg.mode != Gated || s.lastEnd < s.recoveryUntil ||
                                                   s.reanchorPending != {} || !WatchdogsReady(s.senders);
      && r == s.(selected := r.selected)
      && (r.selected.Some? ==> !barred && r.selected.value < |s.candidates| && s.candidates[r.selected.value].qualified)
      && (!barred && r.selected.None? ==> forall i :: 0 <= i < |s.candidates| ==> !s.candidates[i].qualified)
      && (r.selected.Some? ==> forall i :: 0 <= i < |s.candidates| && s.candidates[i].qualified ==>
            EffectiveSleep(s.candidates[i]) <= EffectiveSleep(s.candidates[r.selected.value]))
  {
    hide EffectiveSleep, WatchdogsReady;
  }

  /** All that has to be so before a block may be skipped is also enough, audits aside: the
      state after the block tells exactly whether it was skipped. */
  lemma SkipExactly(env: Env, s: Core, start: int, end: int, check: bool)
    requires Sound(env, s) && Tightenable(s)
    ensures var (r, d) := AdvanceWith(env, s, start, end, check);
      !d.decode <==> Continues(s, start, end) && Justified(env, r, start, end) && !r.auditActive
  {
    hide Sound, Shape, SettleWith, Decide, QualifiesAt, AllLearned, AllSettled, Awake, WatchdogsReady, Tightenable,
         AnyDue, AllRegular, Justified, ScoreAgrees;
    if !AdvanceWith(env, s, start, end, check).1.decode { SkipIsJustified(env, s, start, end, check); }
    if Continues(s, start, end) {
      var r := SettleWith(env, s, start, end, check);
      SettleSound(env, s, start, end, check);
      SoundShape(env, r);
      InRange(env, r);
      VerdictMeans(env, r, end);
      DecideSound(env, r, end);
      var t := Decide(env, r, end).0;
      if Justified(env, t, start, end) { JustifiedSleeps(env, s, start, end, check); }
    }
  }

  lemma JustifiedSleeps(env: Env, s: Core, start: int, end: int, check: bool)
    requires Sound(env, s) && Tightenable(s) && Continues(s, start, end)
    requires var r := SettleWith(env, s, start, end, check); r.selected.Some? ==> r.selected.value < |r.candidates|
    requires var r := SettleWith(env, s, start, end, check); var t := Decide(env, r, end).0;
      t.candidates == r.candidates && t.selected == r.selected && t.recoveryUntil == r.recoveryUntil &&
      Justified(env, t, start, end)
    ensures var r := SettleWith(env, s, start, end, check); var t := Decide(env, r, end).0;
      env.cfg.mode == Gated && r.selected.Some? && end >= r.recoveryUntil && end >= t.refreshUntil && AsleepNow(r)
  {
    hide Sound, Shape, SettleWith, Decide, AllLearned, Awake, WatchdogsReady, Tightenable;
    SettledScores(env, s, start, end, check, SettleWith(env, s, start, end, check).selected.value);
  }
}
