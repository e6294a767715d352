/** What a look at the watchdogs finds and what follows from it, told from the senders'
    records alone. */
module WatchdogVerdict {
  import opened SchedulerModel
  import opened SchedulerInvariant
  import opened WatchdogSchedule

  /** The sender's open obligation has passed its deadline, for the first time. */
  predicate Overdue(s: Sender, now: int)
  {
    && s.seen && s.obligationOpen && !s.overdueOpen && now >= s.obligationDue
    && (s.learnedOverdue > 0 || s.cfg.overdue > 0)
  }

  /** A full count window holds fewer arrivals than are asked for, for the first time. */
  predicate TooFew(cfg: Config, s: Sender, now: int)
  {
    && s.seen && !s.countOpen && 0 < EffectiveMinimumCount(s) && 0 < EffectiveCountWindow(cfg, s) <= now
    && InWindow(cfg, s, now) < EffectiveMinimumCount(s)
  }

  predicate Fires(cfg: Config, s: Sender, now: int)
  {
    Overdue(s, now) || TooFew(cfg, s, now)
  }

  /** The longer of the configured and the learned deadline, the window in force, and the
      lower of the configured and the learned minimum. */
  lemma Effective(cfg: Config, s: Sender)
    ensures EffectiveOverdue(s) >= s.cfg.overdue && EffectiveOverdue(s) >= s.learnedOverdue
    ensures EffectiveOverdue(s) in {s.cfg.overdue, s.learnedOverdue}
    ensures s.cfg.countWindow > 0 ==> EffectiveCountWindow(cfg, s) == s.cfg.countWindow
    ensures s.cfg.countWindow == 0 && s.watchdogLearned ==> EffectiveCountWindow(cfg, s) == cfg.watchdogWindow
    ensures s.cfg.countWindow == 0 && !s.watchdogLearned ==> EffectiveCountWindow(cfg, s) == 0
    ensures !s.watchdogLearned ==> EffectiveMinimumCount(s) == s.cfg.minimumCount
    ensures s.watchdogLearned && s.cfg.minimumCount > 0 ==>
              && EffectiveMinimumCount(s) <= s.cfg.minimumCount && EffectiveMinimumCount(s) <= s.learnedMinimumCount
              && EffectiveMinimumCount(s) in {s.cfg.minimumCount, s.learnedMinimumCount}
    ensures s.watchdogLearned && s.cfg.minimumCount == 0 ==> EffectiveMinimumCount(s) == s.learnedMinimumCount
  {
  }

  /** With arrivals in order the count is that of the arrivals in the window. */
  lemma InWindowCounts(cfg: Config, s: Sender, now: int)
    requires Ascending(s.observations)
    ensures var lower := now - EffectiveCountWindow(cfg, s);
      forall k :: 0 <= k < |s.observations| ==>
        (s.observations[k] >= lower <==> k >= |s.observations| - InWindow(cfg, s, now))
  {
    var lower := now - EffectiveCountWindow(cfg, s);
    var n := CountBefore(s.observations, lower);
    CountBeforeOver(s.observations, lower, n);
    if n < |s.observations| { CountBeforeOver(s.observations, lower, n + 1); }
  }

  /** How many of the first `n` senders `f` holds of. */
  function Count(senders: seq<Sender>, f: Sender -> bool, n: nat): nat
    requires n <= |senders|
  {
    if n == 0 then 0 else Count(senders, f, n - 1) + (if f(senders[n - 1]) then 1 else 0)
  }

  lemma {:induction false} CountSome(senders: seq<Sender>, f: Sender -> bool, n: nat)
    requires n <= |senders|
    ensures Count(senders, f, n) > 0 <==> exists i :: 0 <= i < n && f(senders[i])
  {
    if n > 0 { CountSome(senders, f, n - 1); }
  }

  // ---- one sender

  /** The record after a look at it. */
  lemma RecordAfter(cfg: Config, s: Sender, now: int)
    ensures var v := Judge(cfg, s, now, InWindow(cfg, s, now)); var r := v.sender;
      && (v.deadline <==> Overdue(s, now)) && (v.count <==> TooFew(cfg, s, now))
      && r == s.(overdueOpen := r.overdueOpen, obligationOpen := r.obligationOpen, countOpen := r.countOpen,
                 deadlineDeficits := r.deadlineDeficits, obligationDeficits := r.obligationDeficits,
                 countDeficits := r.countDeficits)
      && r.overdueOpen == (s.overdueOpen || Overdue(s, now))
      && r.obligationOpen == (s.obligationOpen && !Overdue(s, now))
      && r.deadlineDeficits == s.deadlineDeficits + (if Overdue(s, now) then 1 else 0)
      && r.obligationDeficits == s.obligationDeficits + (if Overdue(s, now) then 1 else 0)
      && r.countDeficits == s.countDeficits + (if TooFew(cfg, s, now) then 1 else 0)
      && (Enough(cfg, s, now) ==> !r.countOpen) && (TooFew(cfg, s, now) ==> r.countOpen)
      && (!Enough(cfg, s, now) && !TooFew(cfg, s, now) ==> r.countOpen == s.countOpen)
  {
    hide InWindow;
    Effective(cfg, s);
    assert InWindow(cfg, JudgeDeadline(s, now).0, now) == InWindow(cfg, s, now) by { SameWindow(cfg, s, now); }
  }

  lemma SameWindow(cfg: Config, s: Sender, now: int)
    ensures InWindow(cfg, JudgeDeadline(s, now).0, now) == InWindow(cfg, s, now)
  {
  }

  // ---- the pass

  function OverdueAt(now: int): Sender -> bool
  {
    (s: Sender) => Overdue(s, now)
  }

  function TooFewAt(cfg: Config, now: int): Sender -> bool
  {
    (s: Sender) => TooFew(cfg, s, now)
  }

  function Under(protocol: string, f: Sender -> bool): Sender -> bool
  {
    (s: Sender) => s.protocol == protocol && f(s)
  }

  /** What the first `n` senders add to the totals of each protocol. */
  ghost predicate BooksTotalled(env: Env, s: Core, now: int, n: nat, protocols: map<string, Totals>)
    requires n <= |s.senders|
  {
    && protocols.Keys == s.protocols.Keys
    && forall name :: name in s.protocols ==>
         var due := Count(s.senders, Under(name, OverdueAt(now)), n);
         protocols[name] == s.protocols[name].(
           deadlineDeficits := s.protocols[name].deadlineDeficits + due,
           countDeficits := s.protocols[name].countDeficits + Count(s.senders, Under(name, TooFewAt(env.cfg, now)), n),
           obligationDeficits := s.protocols[name].obligationDeficits + due)
  }

  lemma BooksStep(env: Env, s: Core, now: int, n: nat, protocols: map<string, Totals>)
    requires 0 < n <= |s.senders| && BooksTotalled(env, s, now, n - 1, protocols)
    ensures var sender := s.senders[n - 1]; var late, few := Overdue(sender, now), TooFew(env.cfg, sender, now);
      BooksTotalled(env, s, now, n, Charge(protocols, sender.protocol, late, few))
  {
    hide Overdue, TooFew;
  }

  /** What the first `n` senders add to the totals. */
  ghost predicate Totalled(env: Env, s: Core, now: int, n: nat, p: Pass)
    requires n <= |s.senders|
  {
    var late, few := OverdueAt(now), TooFewAt(env.cfg, now);
    && p.deadlineDeficits == s.deadlineDeficits + Count(s.senders, late, n)
    && p.countDeficits == s.countDeficits + Count(s.senders, few, n)
    && BooksTotalled(env, s, now, n, p.protocols)
    && (p.failed <==> Count(s.senders, late, n) + Count(s.senders, few, n) > 0)
  }

  lemma {:induction false} PassTotals(env: Env, s: Core, now: int, n: nat)
    requires n <= |s.senders|
    ensures Totalled(env, s, now, n, PassOver(env, s, now, n))
  {
    hide Judge, InWindow, Overdue, TooFew, BooksTotalled, Charge;
    assert BooksTotalled(env, s, now, 0, s.protocols) by { BooksNone(env, s, now); }
    if n > 0 {
      PassTotals(env, s, now, n - 1);
      RecordAfter(env.cfg, s.senders[n - 1], now);
      var p := PassOver(env, s, now, n - 1);
      var v := Judge(env.cfg, s.senders[n - 1], now, InWindow(env.cfg, s.senders[n - 1], now));
      assert p.senders[n - 1] == s.senders[n - 1] && PassOver(env, s, now, n) == Enter(p, n - 1, v);
      BooksStep(env, s, now, n, p.protocols);
    }
  }

  lemma BooksNone(env: Env, s: Core, now: int)
    ensures BooksTotalled(env, s, now, 0, s.protocols)
  {
  }

  lemma {:induction false} PassRecords(env: Env, s: Core, now: int, n: nat, i: nat)
    requires i < n <= |s.senders|
    ensures PassOver(env, s, now, n).senders[i] ==
            Judge(env.cfg, s.senders[i], now, InWindow(env.cfg, s.senders[i], now)).sender
  {
    hide Judge, InWindow, Charge;
    if i < n - 1 { PassRecords(env, s, now, n - 1, i); }
  }

  // ---- what follows

  /** Somebody fires. */
  ghost predicate Alarmed(cfg: Config, senders: seq<Sender>, now: int)
  {
    exists i :: 0 <= i < |senders| && Fires(cfg, senders[i], now)
  }

  lemma FailedMeansAlarmed(env: Env, s: Core, now: int)
    ensures PassOver(env, s, now, |s.senders|).failed <==> Alarmed(env.cfg, s.senders, now)
  {
    hide Overdue, TooFew, PassOver;
    PassTotals(env, s, now, |s.senders|);
    CountSome(s.senders, OverdueAt(now), |s.senders|);
    CountSome(s.senders, TooFewAt(env.cfg, now), |s.senders|);
  }

  /** One step wider, up to the limit. */
  ghost predicate WiderScale(c: Candidate, d: Candidate)
  {
    && (d.wakeScale == c.wakeScale * c.cfg.wakeScaleStep || d.wakeScale == c.cfg.maxWakeScale)
    && d.wakeScale <= c.cfg.maxWakeScale && d.wakeScale <= c.wakeScale * c.cfg.wakeScaleStep
  }

  /** A candidate that has lost trust: what it had learned to the contrary is gone, its
      windows are no narrower, and it is out until the recovery is over. */
  ghost predicate Distrusted(env: Env, c: Candidate, d: Candidate, now: int)
  {
    && d.invalid && !d.qualified && d.promotionReady == 0 && d.epoch == c.epoch + 1
    && d.recoveryUntil == now + env.cfg.recoveryDuration
    && WiderScale(c, d)
    && |d.models| == |c.models| && (forall j :: 0 <= j < |c.models| ==> Widened(c.models[j], d.models[j], c.cfg))
    && d == c.(invalid := true, qualified := false, promotionReady := 0, epoch := d.epoch, wakeScale := d.wakeScale,
               models := d.models, recoveryUntil := d.recoveryUntil)
  }

  ghost predicate Widened(m: Model, w: Model, cfg: CandidateConfig)
  {
    && w == m.(events := 0, misses := 0, preWake := w.preWake, postWake := w.postWake)
    && (m.learned ==> w.preWake == ScaleDuration(m.preWake, cfg.wakeScaleStep) &&
                      w.postWake == ScaleDuration(m.postWake, cfg.wakeScaleStep))
    && (!m.learned ==> w.preWake == m.preWake && w.postWake == m.postWake)
  }

  lemma DistrustMeans(env: Env, c: Candidate, skip: real, now: int)
    ensures SteadySleep(c) >= skip ==> Distrusted(env, c, Distrust(env, c, skip, now), now)
    ensures SteadySleep(c) < skip ==> Distrust(env, c, skip, now) == c
  {
    hide SteadySleep, ScaleDuration;
  }

  /** Scaling up by a step of more than one does not narrow a window. */
  lemma WideningWidens(value: int, step: real)
    requires 0 <= value && 1.0 < step
    ensures ScaleDuration(value, step) >= value
  {
    if value > 0 {
      Nonnegative(value as real, step - 1.0);
      assert value as real * (step - 1.0) == value as real * step - value as real;
    }
  }

  /** Every candidate that sleeps at least as much as the selected one is distrusted, and
      no other. */
  ghost predicate RecoveredFrom(env: Env, s: Core, r: Core, now: int)
    requires s.selected.Some? && s.selected.value < |s.candidates|
  {
    var skip := SteadySleep(s.candidates[s.selected.value]);
    && |r.candidates| == |s.candidates|
    && forall k :: 0 <= k < |s.candidates| ==>
         var c, d := s.candidates[k], r.candidates[k];
         (SteadySleep(c) >= skip ==> Distrusted(env, c, d, now)) && (SteadySleep(c) < skip ==> d == c)
  }

  /** A look at the watchdogs: a sleeping scheduler that is past its recovery gives up
      its selection, distrusts what sleeps as much and recovers in full exactly if some
      sender is overdue or counts too few; otherwise nothing but the records changes. */
  lemma CheckMeans(env: Env, s: Core, now: int)
    requires s.selected.Some? ==> s.selected.value < |s.candidates|
    ensures var r := CheckWatchdogs(env, s, now);
            var trusting := env.cfg.mode == Gated && s.selected.Some? && now >= s.recoveryUntil;
      && (trusting && Alarmed(env.cfg, s.senders, now) ==>
            && r.selected == None && !r.quietActive && !r.auditActive && r.refreshUntil == 0 && r.nextRefresh == 0
            && r.recoveryUntil >= now + env.cfg.recoveryDuration && r.recoveryUntil >= s.recoveryUntil
            && r.recoveryUntil in {s.recoveryUntil, now + env.cfg.recoveryDuration}
            && RecoveredFrom(env, s, r, now) && r.candidates[s.selected.value].invalid)
      && (!trusting || !Alarmed(env.cfg, s.senders, now) ==>
            r == s.(senders := r.senders, deadlineDeficits := r.deadlineDeficits, countDeficits := r.countDeficits,
                    protocols := r.protocols))
  {
    hide PassOver, SteadySleep, Distrust, Alarmed, Distrusted;
    FailedMeansAlarmed(env, s, now);
    if s.selected.Some? {
      var skip := SteadySleep(s.candidates[s.selected.value]);
      forall k | 0 <= k < |s.candidates|
        ensures SteadySleep(s.candidates[k]) >= skip ==>
                  Distrusted(env, s.candidates[k], Distrust(env, s.candidates[k], skip, now), now)
        ensures SteadySleep(s.candidates[k]) < skip ==> Distrust(env, s.candidates[k], skip, now) == s.candidates[k]
      {
        DistrustMeans(env, s.candidates[k], skip, now);
      }
      var c := s.candidates[s.selected.value];
      assert Distrusted(env, c, Distrust(env, c, skip, now), now);
      DistrustedIsInvalid(env, c, Distrust(env, c, skip, now), now);
    }
  }

  lemma DistrustedIsInvalid(env: Env, c: Candidate, d: Candidate, now: int)
    requires Distrusted(env, c, d, now)
    ensures d.invalid
  {
  }

  /** And the books: every sender's record, and the totals by protocol and over all. */
  lemma CheckBooks(env: Env, s: Core, now: int)
    requires s.selected.Some? ==> s.selected.value < |s.candidates|
    ensures var r := CheckWatchdogs(env, s, now); var late, few := OverdueAt(now), TooFewAt(env.cfg, now);
            var n := |s.senders|;
      && |r.senders| == n
      && (forall i :: 0 <= i < n ==>
            r.senders[i] == Judge(env.cfg, s.senders[i], now, InWindow(env.cfg, s.senders[i], now)).sender)
      && r.deadlineDeficits == s.deadlineDeficits + Count(s.senders, late, n)
      && r.countDeficits == s.countDeficits + Count(s.senders, few, n)
      && BooksTotalled(env, s, now, n, r.protocols)
  {
    hide PassOver, SteadySleep, Distrust, Judge, InWindow, BooksTotalled, Count;
    PassTotals(env, s, now, |s.senders|);
    forall i | 0 <= i < |s.senders|
      ensures PassOver(env, s, now, |s.senders|).senders[i] ==
              Judge(env.cfg, s.senders[i], now, InWindow(env.cfg, s.senders[i], now)).sender
    {
      PassRecords(env, s, now, |s.senders|, i);
    }
  }
}
