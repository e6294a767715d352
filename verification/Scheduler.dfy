/** The duty scheduler as it runs: wake windows are cached, qualifications are
    refreshed only when they can change, and watchdogs are checked only when they
    can fire.  Every method is proved against the scheduler without shortcuts. */
module Scheduler {
  import opened SchedulerModel
  import opened SchedulerInvariant
  import opened SchedulerSound
  import opened WakeCache
  import opened WatchdogSchedule

  /** The deadline of a sender's open obligation. */
  method CheckDeadline(sender: Sender, next: int, now: int) returns (s: Sender, missed: bool, later: int)
    ensures (s, missed) == JudgeDeadline(sender, now)
    ensures later == AskDeadline(s, next, now)
  {
    s, missed, later := sender, false, next;
    if s.seen && s.obligationOpen && EffectiveOverdue(s) > 0 {
      if now < s.obligationDue {
        later := Earlier(next, now, s.obligationDue);
      } else if !s.overdueOpen {
        s := s.(deadlineDeficits := s.deadlineDeficits + 1, obligationDeficits := s.obligationDeficits + 1,
                overdueOpen := true, obligationOpen := false);
        missed := true;
      }
    }
  }

  /** A sender's rolling count, taken from its pointer. */
  method CheckCount(cfg: Config, sender: Sender, from: nat, next: int, now: int) returns (s: Sender, missed: bool,
      at: nat, later: int)
    requires PointerOk(cfg, sender, from, now)
    ensures (s, missed) == JudgeCount(cfg, sender, now, InWindow(cfg, sender, now))
    ensures PointerOk(cfg, s, at, now)
    ensures later == AskCount(cfg, s, next, now, InWindow(cfg, sender, now))
  {
    hide InWindow;
    s, missed, at, later := sender, false, from, next;
    var window, minimum := EffectiveCountWindow(cfg, s), EffectiveMinimumCount(s);
    if s.seen && minimum > 0 && window > 0 {
      if now < window {
        later := Earlier(next, now, window);
      } else {
        at := RollPointer(cfg, sender, from, now);
        var count := |s.observations| - at;
        if count >= minimum {
          s := s.(countOpen := false);
          var expires := s.observations[|s.observations| - minimum];
          if expires <= MAX_DURATION - window - 1 { later := Earlier(next, now, expires + window + 1); }
        } else if !s.countOpen {
          s := s.(countDeficits := s.countDeficits + 1, countOpen := true);
          missed := true;
        }
      }
    }
  }

  lemma DeadlineFrame(cfg: Config, s: Sender, now: int, from: nat)
    ensures var r := JudgeDeadline(s, now).0;
      && r.observations == s.observations && InWindow(cfg, r, now) == InWindow(cfg, s, now)
      && (PointerOk(cfg, s, from, now) ==> PointerOk(cfg, r, from, now))
  {
  }

  lemma CountFrame(cfg: Config, s: Sender, next: int, now: int, count: nat)
    ensures var r := JudgeCount(cfg, s, now, count).0;
      AskDeadline(r, next, now) == AskDeadline(s, next, now)
  {
  }

  /** One sender's share of a watchdog pass: judged on the rolling count, with the
      instants at which it wants to be looked at again. */
  method CheckSender(cfg: Config, sender: Sender, from: nat, next: int, now: int) returns (v: Verdict, at: nat,
      later: int)
    requires PointerOk(cfg, sender, from, now)
    ensures v == Judge(cfg, sender, now, InWindow(cfg, sender, now))
    ensures PointerOk(cfg, v.sender, at, now)
    ensures later == Ask(cfg, v.sender, next, now, InWindow(cfg, sender, now))
  {
    hide InWindow, PointerOk, JudgeDeadline, JudgeCount, AskDeadline, AskCount;
    DeadlineFrame(cfg, sender, now, from);
    var s, deadline, soon := CheckDeadline(sender, next, now);
    CountFrame(cfg, s, next, now, InWindow(cfg, s, now));
    var s', missed;
    s', missed, at, later := CheckCount(cfg, s, from, soon, now);
    v := Verdict(s', deadline, missed);
  }

  /** One candidate's qualification, consulting its cached eligibility. */
  method RefreshOne(env: Env, c: Candidate, cache: Cache, now: int) returns (c': Candidate, cache': Cache)
    requires !cache.eligibilityDirty ==> (cache.eligibleCached <==> AllLearned(c.models))
    ensures c' == RefreshCandidate(env, c, AllLearned(c.models), now)
    ensures cache' == cache || cache' == cache.(eligibilityDirty := false, eligibleCached := AllLearned(c.models))
  {
    hide MeetsBound, AllLearned;
    c', cache' := c, cache;
    if c'.invalid && now >= c'.recoveryUntil { c' := c'.(invalid := false); }
    var learned := false;
    if !c'.invalid { learned, cache' := ConsultLearned(cache, c.models); }
    if c'.qualified {
      if !QualifiesAt(env, c', learned, env.cfg.captureTarget) { c' := c'.(qualified := false, promotionReady := 0); }
    } else if !QualifiesAt(env, c', learned, env.cfg.captureTarget + env.cfg.promotionMargin) {
      c' := c'.(promotionReady := 0);
    } else {
      if c'.promotionReady == 0 { c' := c'.(promotionReady := now + env.cfg.promotionStability); }
      if now >= c'.promotionReady { c' := c'.(qualified := true); }
    }
  }

  /** One candidate's score for a block, from its caches. */
  method ScoreOne(c: Candidate, cache: Cache, start: int, end: int) returns (scored: Candidate, cache': Cache,
      first: bool)
    requires 0 <= start < end && WidthsOk(c.models) && CacheOk(cache, c.models, start)
    ensures (scored, first) == Score(c, AllLearned(c.models), Awake(c.models, start, end), end - start)
    ensures CacheOk(cache', c.models, end)
  {
    hide Awake, WidthsOk, AllLearned, WakeOk;
    var duration := end - start;
    var eligible, awake := false, true;
    eligible, cache' := ConsultLearned(cache, c.models);
    LearnedOk(cache, c.models, start);
    scored, first := c.(lastEligible := eligible), false;
    if eligible {
      awake, cache' := ConsultAwake(cache', c.models, start, end);
      first := c.eligibleDuration == 0;
      scored := scored.(eligibleDuration := c.eligibleDuration + duration);
      if awake { scored := scored.(awakeDuration := c.awakeDuration + duration); }
    } else {
      LaterOk(cache', c.models, start, end);
    }
    scored := scored.(lastAwake := awake, totalDuration := c.totalDuration + duration);
    if awake { scored := scored.(totalAwake := c.totalAwake + duration); }
  }

  lemma DistrustCache(env: Env, c: Candidate, cache: Cache, skip: real, now: int, t: int)
    requires if SteadySleep(c) >= skip then cache.eligibilityDirty && !cache.wakeValid else CacheOk(cache, c.models, t)
    ensures CacheOk(cache, Distrust(env, c, skip, now).models, t)
  {
    hide SteadySleep;
  }

  lemma TightenCache(c: Candidate, cache: Cache, now: int, t: int)
    requires CacheOk(cache, c.models, t) && 1.0 < c.cfg.wakeScaleStep
    ensures CacheOk(if c.wakeScale > 1.0 then Invalidate(cache) else cache, TightenAfterRefresh(c, now).models, t)
  {
    hide BeginNewEpoch, WakeOk;
  }

  lemma RefreshedModels(env: Env, c: Candidate, now: int)
    ensures RefreshCandidate(env, c, AllLearned(c.models), now).models == c.models
  {
    hide QualifiesAt, AllLearned;
  }

  /** A pass in which nobody is judged guilty changes nothing. */
  lemma {:induction false} IdlePass(env: Env, s: Core, now: int, n: nat)
    requires n <= |s.senders|
    requires forall i :: 0 <= i < n ==> Idle(env.cfg, s.senders[i], now)
    ensures PassOver(env, s, now, n) == Pass(s.senders, s.deadlineDeficits, s.countDeficits, s.protocols, false)
  {
    hide Judge, InWindow;
    if n > 0 {
      IdlePass(env, s, now, n - 1);
      assert Charge(s.protocols, s.senders[n - 1].protocol, false, false) == s.protocols;
      assert s.senders[n - 1 := s.senders[n - 1]] == s.senders;
    }
  }

  /** Only then: a judgment that changes a record is still there after the pass, and one
      that finds a deficit is counted. */
  lemma {:induction false} PassShows(env: Env, s: Core, now: int, n: nat, i: nat)
    requires i < n <= |s.senders|
    ensures var p := PassOver(env, s, now, n);
            var v := Judge(env.cfg, s.senders[i], now, InWindow(env.cfg, s.senders[i], now));
      && p.senders[i] == v.sender
      && p.deadlineDeficits >= s.deadlineDeficits + (if v.deadline then 1 else 0)
      && p.countDeficits >= s.countDeficits + (if v.count then 1 else 0)
  {
    hide Judge, InWindow, Charge;
    if i < n - 1 { PassShows(env, s, now, n - 1, i); } else { PassGrows(env, s, now, n - 1); }
  }

  lemma {:induction false} PassGrows(env: Env, s: Core, now: int, n: nat)
    requires n <= |s.senders|
    ensures var p := PassOver(env, s, now, n);
      p.deadlineDeficits >= s.deadlineDeficits && p.countDeficits >= s.countDeficits
  {
    hide Judge, InWindow, Charge;
    if n > 0 { PassGrows(env, s, now, n - 1); }
  }

  lemma ConcludedPass(env: Env, s: Core, now: int)
    requires s.selected.Some? ==> s.selected.value < |s.candidates|
    ensures var r := CheckWatchdogs(env, s, now); var p := PassOver(env, s, now, |s.senders|);
      r.senders == p.senders && r.deadlineDeficits == p.deadlineDeficits && r.countDeficits == p.countDeficits
  {
    hide PassOver, SteadySleep, Distrust;
  }

  /** A check that changes no record and counts no deficit finds everyone idle. */
  lemma SameRecords(env: Env, s: Core, now: int)
    requires s.selected.Some? ==> s.selected.value < |s.candidates|
    requires var r := CheckWatchdogs(env, s, now);
      r.senders == s.senders && r.deadlineDeficits == s.deadlineDeficits && r.countDeficits == s.countDeficits
    ensures forall i :: 0 <= i < |s.senders| ==> Idle(env.cfg, s.senders[i], now)
  {
    hide PassOver, CheckWatchdogs, Judge, InWindow;
    ConcludedPass(env, s, now);
    forall i | 0 <= i < |s.senders| ensures Idle(env.cfg, s.senders[i], now) {
      PassShows(env, s, now, |s.senders|, i);
    }
  }

  /** A check changes nothing exactly when every sender is idle. */
  lemma CheckIdle(env: Env, s: Core, now: int)
    requires s.selected.Some? ==> s.selected.value < |s.candidates|
    ensures CheckWatchdogs(env, s, now) == s <==> forall i :: 0 <= i < |s.senders| ==> Idle(env.cfg, s.senders[i], now)
  {
    hide PassOver, SteadySleep, Distrust, Idle;
    if CheckWatchdogs(env, s, now) == s { SameRecords(env, s, now); }
    if forall i :: 0 <= i < |s.senders| ==> Idle(env.cfg, s.senders[i], now) { IdlePass(env, s, now, |s.senders|); }
  }

  /** Skipping every check until the next one misses nothing exactly when all senders
      are quiet. */
  lemma ScheduleExactly(env: Env, s: Core, next: int, now: int)
    requires (s.selected.Some? ==> s.selected.value < |s.candidates|) && Before(now, next)
    ensures (forall t :: now <= t && Before(t, next) ==> CheckWatchdogs(env, s, t) == s) <==>
            AllQuiet(env.cfg, s.senders, |s.senders|, next, now)
  {
    hide CheckWatchdogs, Quiet, Idle, Before;
    if AllQuiet(env.cfg, s.senders, |s.senders|, next, now) {
      forall t | now <= t && Before(t, next) ensures CheckWatchdogs(env, s, t) == s {
        NothingToCheck(env, s, next, now, t);
      }
    } else {
      var i :| 0 <= i < |s.senders| && !Quiet(env.cfg, s.senders[i], next, now);
      var t := NotQuietMeansSomething(env.cfg, s.senders[i], next, now);
      CheckIdle(env, s, t);
    }
  }

  /** What the rest of a block leaves alone. */
  lemma SettledRecords(env: Env, s: Core, start: int, end: int, check: bool)
    requires Sound(env, s) && Tightenable(s) && Continues(s, start, end)
    ensures var b := Begin(env, s, start, end);
      && b.senders == s.senders && (b.selected.Some? ==> b.selected.value < |b.candidates|)
      && var c := if check then CheckWatchdogs(env, b, end) else b; var r := AdvanceWith(env, s, start, end, check).0;
         r.senders == c.senders && r.deadlineDeficits == c.deadlineDeficits && r.countDeficits == c.countDeficits
  {
    hide Sound, Shape, AllSettled, Begin, CheckWatchdogs, RefreshCandidate, Best, MaySelect, PlanRefresh, StateOf,
         XorShift, UnitOf, AuditFraction, Tightenable, AllRegular, SleepInterval, SelectedName;
    BeginSound(env, s, start, end);
    InRange(env, Begin(env, s, start, end));
    var r := SettleWith(env, s, start, end, check);
    SettleSound(env, s, start, end, check);
    PlanFrame(env, r, end);
  }

  /** A block without a look at the watchdogs has the plain effect exactly when no
      sender has anything to answer for at its end. */
  lemma BlockExactly(env: Env, s: Core, start: int, end: int)
    requires Sound(env, s) && Tightenable(s) && Continues(s, start, end)
    ensures AdvanceWith(env, s, start, end, false) == Advance(env, s, start, end) <==>
            forall i :: 0 <= i < |s.senders| ==> Idle(env.cfg, s.senders[i], end)
  {
    hide Sound, Shape, Begin, CheckWatchdogs, Decide, Refresh, Choose, Tightenable, Idle;
    SettledRecords(env, s, start, end, false);
    SettledRecords(env, s, start, end, true);
    var b := Begin(env, s, start, end);
    CheckIdle(env, b, end);
    if AdvanceWith(env, s, start, end, false) == Advance(env, s, start, end) { SameRecords(env, b, end); }
  }

  lemma IdleRefresh(env: Env, s: Core, now: int)
    requires Sound(env, s) && !AnyDue(s.candidates, now)
    ensures Refresh(env, s, now) == s
  {
    hide RefreshCandidate, Settled, Due, WiredSenders, WidthsOk, ValidConfig;
    var r := Refresh(env, s, now).candidates;
    forall i | 0 <= i < |r| ensures r[i] == s.candidates[i] {
      assert SoundCandidate(env, s.candidates[i], i, |s.senders|);
      RefreshIdle(env, s.candidates[i], now);
    }
    assert r == s.candidates;
  }

  lemma Widths(env: Env, s: Core)
    requires Shape(env, s)
    ensures forall k :: 0 <= k < |s.candidates| ==> WidthsOk(s.candidates[k].models)
  {
    hide WiredSenders, WidthsOk, ValidConfig;
    forall k | 0 <= k < |s.candidates| ensures WidthsOk(s.candidates[k].models) {
      assert SoundCandidate(env, s.candidates[k], k, |s.senders|);
    }
  }

  lemma TightenableLater(s: Core, end: int)
    requires Tightenable(s)
    ensures Tightenable(s.(started := true, lastEnd := end))
  {
  }

  ghost predicate CachesOk(caches: seq<Cache>, cs: seq<Candidate>, t: int)
  {
    |caches| == |cs| && forall k :: 0 <= k < |cs| ==> CacheOk(caches[k], cs[k].models, t)
  }

  ghost predicate PointersOk(cfg: Config, starts: seq<nat>, senders: seq<Sender>, t: int)
  {
    |starts| == |senders| && forall i :: 0 <= i < |senders| ==> PointerOk(cfg, senders[i], starts[i], t)
  }

  ghost predicate AllQuiet(cfg: Config, senders: seq<Sender>, n: nat, next: int, t: int)
    requires n <= |senders|
  {
    forall i :: 0 <= i < n ==> Quiet(cfg, senders[i], next, t)
  }

  /** No candidate gets its first eligible block now. */
  ghost predicate NoneFirst(cs: seq<Candidate>, n: nat)
    requires n <= |cs|
  {
    forall i :: 0 <= i < n ==> Begun(cs[i])
  }

  lemma ScoredModels(c: Candidate, start: int, end: int)
    ensures Scored(c, start, end).models == c.models
  {
    hide Awake, AllLearned;
  }

  lemma PointersLater(cfg: Config, starts: seq<nat>, senders: seq<Sender>, before: int, t: int)
    requires PointersOk(cfg, starts, senders, before) && before <= t
    ensures PointersOk(cfg, starts, senders, t)
  {
    forall i | 0 <= i < |senders| ensures PointerOk(cfg, senders[i], starts[i], t) {
      assert PointerOk(cfg, senders[i], starts[i], before);
    }
  }

  lemma CachesLater(caches: seq<Cache>, cs: seq<Candidate>, before: int, t: int)
    requires CachesOk(caches, cs, before) && before <= t
    ensures CachesOk(caches, cs, t)
  {
    forall k | 0 <= k < |cs| ensures CacheOk(caches[k], cs[k].models, t) {
      LaterOk(caches[k], cs[k].models, before, t);
    }
  }

  /** Before the next check nobody can be judged guilty, so a check changes nothing. */
  lemma NothingToCheck(env: Env, s: Core, next: int, before: int, end: int)
    requires s.selected.Some? ==> s.selected.value < |s.candidates|
    requires AllQuiet(env.cfg, s.senders, |s.senders|, next, before) && before <= end && Before(end, next)
    ensures AllQuiet(env.cfg, s.senders, |s.senders|, next, end) && CheckWatchdogs(env, s, end) == s
  {
    hide Quiet, SteadySleep, Before, Idle;
    forall i | 0 <= i < |s.senders|
      ensures Quiet(env.cfg, s.senders[i], next, end)
      ensures Idle(env.cfg, s.senders[i], end)
    {
      assert Quiet(env.cfg, s.senders[i], next, before);
      QuietLater(env.cfg, s.senders[i], next, before, end);
      QuietMeansNothing(env.cfg, s.senders[i], next, end);
    }
    CheckIdle(env, s, end);
  }

  lemma FirstScores(env: Env, s: Core, start: int, end: int)
    requires Shape(env, s) && AllSettled(env, s.candidates) && start < end && NoneFirst(s.candidates, |s.candidates|)
    ensures AllSettled(env, ScoreAll(s, start, end).candidates)
  {
    hide Shape, AllSettled, ScoreAll;
    ScoreAllSound(env, s, start, end);
  }

  lemma ClockStarted(env: Env, s: Core)
    requires Shape(env, s)
    ensures 0 <= s.lastEnd
  {
  }

  ghost predicate AllAsked(cfg: Config, senders: seq<Sender>, n: nat, next: int, now: int)
    requires n <= |senders|
  {
    forall i :: 0 <= i < n ==> Asked(cfg, senders[i], next, now)
  }

  /** Every count that is enough now falls only after the next check. */
  ghost predicate AllForetold(cfg: Config, senders: seq<Sender>, next: int, now: int)
  {
    forall i :: 0 <= i < |senders| ==> Foretold(cfg, senders[i], next, now)
  }

  lemma AskedQuiets(cfg: Config, senders: seq<Sender>, next: int, now: int)
    requires AllAsked(cfg, senders, |senders|, next, now) && Before(now, next)
    ensures AllQuiet(cfg, senders, |senders|, next, now) <==> AllForetold(cfg, senders, next, now)
    ensures AllRegular(senders) ==> AllForetold(cfg, senders, next, now)
  {
    hide Quiet, Foretold, Asked, Before, SortedUpTo;
    forall i | 0 <= i < |senders|
      ensures Quiet(cfg, senders[i], next, now) <==> Foretold(cfg, senders[i], next, now)
      ensures Regular(senders[i]) ==> Foretold(cfg, senders[i], next, now)
    {
      AskQuiets(cfg, senders[i], next, now);
      if Regular(senders[i]) { RegularForetold(cfg, senders[i], next, now); }
    }
  }

  lemma QuietsForetell(cfg: Config, senders: seq<Sender>, next: int, now: int)
    requires AllQuiet(cfg, senders, |senders|, next, now) && Before(now, next)
    ensures AllForetold(cfg, senders, next, now)
  {
    hide Quiet, Foretold, Before;
    forall i | 0 <= i < |senders| ensures Foretold(cfg, senders[i], next, now) {
      QuietForetells(cfg, senders[i], next, now);
    }
  }

  lemma RegularForetold(cfg: Config, s: Sender, next: int, now: int)
    requires Regular(s) && Asked(cfg, s, next, now)
    ensures Foretold(cfg, s, next, now)
  {
    hide InWindow, Leaves, Beyond, Foreseen;
    OrderForesees(cfg, s, now);
  }

  /** The instant of the next check that a pass over the first `n` senders asks for. */
  ghost function NextCheck(env: Env, s: Core, now: int, n: nat): int
    requires n <= |s.senders|
  {
    if n == 0 then 0
    else
      var r := PassOver(env, s, now, n).senders[n - 1];
      Ask(env.cfg, r, NextCheck(env, s, now, n - 1), now, InWindow(env.cfg, r, now))
  }

  /** After one more sender has been judged, every sender so far has asked. */
  lemma PassAsked(env: Env, p: Pass, i: nat, next: int, now: int)
    requires 0 <= now && Before(now, next) && i < |p.senders| && AllAsked(env.cfg, p.senders, i, next, now)
    ensures var s := p.senders[i]; var v := Judge(env.cfg, s, now, InWindow(env.cfg, s, now));
            var later := Ask(env.cfg, v.sender, next, now, InWindow(env.cfg, v.sender, now)); var q := Enter(p, i, v);
      && Before(now, later) && AllAsked(env.cfg, q.senders, i + 1, later, now)
      && InWindow(env.cfg, v.sender, now) == InWindow(env.cfg, s, now)
  {
    hide Judge, Ask, InWindow, Asked, Charge, Before, NotEarlier;
    var s := p.senders[i];
    JudgedAsks(env.cfg, s, next, now);
    var v := Judge(env.cfg, s, now, InWindow(env.cfg, s, now));
    var later := Ask(env.cfg, v.sender, next, now, InWindow(env.cfg, v.sender, now));
    forall j | 0 <= j < i ensures Asked(env.cfg, p.senders[j], later, now) {
      AskedStays(env.cfg, p.senders[j], next, later, now);
    }
  }

  /** Judges sender after sender, and collects when each wants to be looked at again. */
  method JudgeAll(env: Env, s: Core, from: seq<nat>, now: int) returns (p: Pass, starts: seq<nat>, next: int)
    requires 0 <= now <= MAX_DURATION && PointersOk(env.cfg, from, s.senders, now)
    ensures p == PassOver(env, s, now, |s.senders|) && PointersOk(env.cfg, starts, p.senders, now)
    ensures next == NextCheck(env, s, now, |s.senders|)
    ensures Before(now, next) && AllAsked(env.cfg, p.senders, |p.senders|, next, now)
  {
    hide Judge, Ask, InWindow, PointerOk, AllAsked, Enter;
    p, starts, next := Pass(s.senders, s.deadlineDeficits, s.countDeficits, s.protocols, false), from, 0;
    assert AllAsked(env.cfg, p.senders, 0, 0, now) by { NobodyYet(env.cfg, p.senders, now); }
    for i := 0 to |s.senders|
      invariant p == PassOver(env, s, now, i) && PointersOk(env.cfg, starts, p.senders, now)
      invariant next == NextCheck(env, s, now, i) && Before(now, next) && AllAsked(env.cfg, p.senders, i, next, now)
    {
      var v, at, later := CheckSender(env.cfg, p.senders[i], starts[i], next, now);
      PassAsked(env, p, i, next, now);
      EnterSenders(p, i, v);
      p, starts, next := Enter(p, i, v), starts[i := at], later;
    }
  }

  lemma NobodyYet(cfg: Config, senders: seq<Sender>, now: int)
    ensures AllAsked(cfg, senders, 0, 0, now)
  {
  }

  lemma EnterSenders(p: Pass, i: nat, v: Verdict)
    requires i < |p.senders|
    ensures Enter(p, i, v).senders == p.senders[i := v.sender]
  {
  }

  /** The scheduler's fields are kept in two parts: `core` holds everything it would
      have without shortcuts, the rest is the shortcuts' own bookkeeping. */
  class Scheduler {
    const env: Env
    /** Set only by differential tests: refresh every qualification on every block. */
    const forceFullQualificationRefresh: bool

    var core: Core
    var caches: seq<Cache>
    var countStarts: seq<nat>
    var watchdogDirty: bool
    var nextWatchdogCheck: int

    /** The wake caches answer rightly for every block from `t` on. */
    ghost predicate CachesAt(t: int)
      reads this
    {
      CachesOk(caches, core.candidates, t)
    }

    ghost predicate PointersAt(t: int)
      reads this
    {
      PointersOk(env.cfg, countStarts, core.senders, t)
    }

    /** Unless something is dirty, no watchdog can fire before the next check. */
    ghost predicate QuietAt(t: int)
      reads this
    {
      0 <= nextWatchdogCheck &&
      (!watchdogDirty ==> AllQuiet(env.cfg, core.senders, |core.senders|, nextWatchdogCheck, t))
    }

    /** Everybody has just been judged and has asked. */
    ghost predicate Scheduled(now: int)
      reads this
    {
      !watchdogDirty && Before(now, nextWatchdogCheck) &&
      AllAsked(env.cfg, core.senders, |core.senders|, nextWatchdogCheck, now)
    }

    /** The watchdogs are due to be looked at. */
    ghost predicate ChecksAt(end: int)
      reads this
    {
      watchdogDirty || (nextWatchdogCheck > 0 && end >= nextWatchdogCheck)
    }

    /** What a restore of any accepted checkpoint leaves behind. */
    ghost predicate Sound()
      reads this
    {
      SchedulerSound.Sound(env, core) && CachesAt(core.lastEnd) && PointersAt(core.lastEnd)
    }

    /** No shortcut shows.  Every scheduler is made so and stays so; a restore makes it
        so unless the checkpoint's records are irregular. */
    ghost predicate Valid()
      reads this
    {
      Sound() && AllRegular(core.senders) && QuietAt(core.lastEnd)
    }

    constructor (env: Env, force: bool)
      requires ValidConfig(env.cfg)
      ensures Valid()
      ensures core == NewCore(env) && this.env == env && this.forceFullQualificationRefresh == force
    {
      hide SchedulerSound.Sound, ValidConfig, Regular;
      this.env, this.forceFullQualificationRefresh := env, force;
      core := NewCore(env);
      caches := seq(|env.cfg.candidates|, _ => FRESH);
      countStarts := seq(|env.cfg.senders|, _ => 0);
      watchdogDirty, nextWatchdogCheck := true, 0;
      new;
      NewSound(env);
    }

    /** Takes over a restored state, remembering nothing. */
    method Adopt(restored: Core)
      modifies this
      ensures core == restored
      ensures QuietAt(restored.lastEnd)
      ensures SchedulerSound.Sound(env, restored) ==> Sound() && (Valid() <==> AllRegular(restored.senders))
    {
      hide SchedulerSound.Sound, Regular;
      core := restored;
      caches := seq(|restored.candidates|, _ => FRESH);
      countStarts := seq(|restored.senders|, _ => 0);
      watchdogDirty, nextWatchdogCheck := true, 0;
    }

    // ---- recovery

    method EnterRecovery(now: int)
      modifies this`core
      ensures core == SchedulerModel.EnterRecovery(env, old(core), now)
    {
      var until := now + env.cfg.recoveryDuration;
      core := core.(recoveryUntil := if until > core.recoveryUntil then until else core.recoveryUntil,
                    selected := None, quietActive := false, auditActive := false, quietCandidate := "",
                    refreshUntil := 0, nextRefresh := 0);
    }

    method RecoverAtLeast(skip: real, now: int, ghost t: int)
      requires CachesAt(t)
      modifies this`core, this`caches
      ensures core == SchedulerModel.RecoverAtLeast(env, old(core), skip, now) && CachesAt(t)
    {
      hide Distrust, SteadySleep, CacheOk;
      var cs, ks := core.candidates, caches;
      for k := 0 to |core.candidates|
        invariant |cs| == |core.candidates| && CachesOk(ks, cs, t)
        invariant forall j :: 0 <= j < k ==> cs[j] == Distrust(env, core.candidates[j], skip, now)
        invariant forall j :: k <= j < |cs| ==> cs[j] == core.candidates[j]
        modifies {}
      {
        if SteadySleep(cs[k]) >= skip { ks := ks[k := Invalidate(ks[k])]; }
        DistrustCache(env, cs[k], ks[k], skip, now, t);
        cs := cs[k := Distrust(env, cs[k], skip, now)];
      }
      core, caches := core.(candidates := cs), ks;
    }

    method ResetLearning()
      requires |caches| == |core.candidates| && |countStarts| == |core.senders|
      modifies this
      ensures core == SchedulerModel.ResetLearning(old(core))
      ensures CachesAt(core.lastEnd) && PointersAt(core.lastEnd) && QuietAt(core.lastEnd) && watchdogDirty
    {
      hide CacheOk, ResetCandidate, Quiet;
      var cs, ks := core.candidates, caches;
      for k := 0 to |core.candidates|
        invariant |cs| == |core.candidates| == |ks|
        invariant forall j :: 0 <= j < k ==>
                  cs[j] == ResetCandidate(core.candidates[j]) && CacheOk(ks[j], cs[j].models, core.lastEnd)
        invariant forall j :: k <= j < |cs| ==> cs[j] == core.candidates[j]
        modifies {}
      {
        InvalidOk(ks[k], ResetCandidate(cs[k]).models, core.lastEnd);
        cs, ks := cs[k := ResetCandidate(cs[k])], ks[k := Invalidate(ks[k])];
      }
      var ss, starts := core.senders, countStarts;
      for i := 0 to |core.senders|
        invariant |ss| == |core.senders| == |starts|
        invariant forall j :: 0 <= j < i ==> ss[j] == ResetSender(core.senders[j]) && starts[j] == 0
        invariant forall j :: i <= j < |ss| ==> ss[j] == core.senders[j]
        modifies {}
      {
        ss, starts := ss[i := ResetSender(ss[i])], starts[i := 0];
      }
      core := core.(discontinuities := core.discontinuities + 1, candidates := cs, senders := ss, refreshUntil := 0,
                    nextRefresh := 0);
      caches, countStarts, watchdogDirty, nextWatchdogCheck := ks, starts, true, 0;
    }

    // ---- watchdogs

    /** The pass over the senders. */
    method PassSenders(now: int) returns (failed: bool)
      requires 0 <= now <= MAX_DURATION && PointersAt(now)
      modifies this`core, this`countStarts, this`watchdogDirty, this`nextWatchdogCheck
      ensures var p := PassOver(env, old(core), now, |old(core).senders|);
        core == Judged(old(core), p) && failed == p.failed
      ensures PointersAt(now) && Scheduled(now)
      ensures nextWatchdogCheck == NextCheck(env, old(core), now, |old(core).senders|)
    {
      hide PassOver, PointersOk, AllAsked, NextCheck;
      var p, starts, next := JudgeAll(env, core, countStarts, now);
      core := Judged(core, p);
      failed, countStarts, watchdogDirty, nextWatchdogCheck := p.failed, starts, false, next;
    }

    method CheckWatchdogs(now: int)
      requires (core.selected.Some? ==> core.selected.value < |core.candidates|) && 0 <= now <= MAX_DURATION
      requires PointersAt(now) && CachesAt(now)
      modifies this
      ensures core == SchedulerModel.CheckWatchdogs(env, old(core), now)
      ensures PointersAt(now) && CachesAt(now) && !watchdogDirty
      ensures nextWatchdogCheck == NextCheck(env, old(core), now, |old(core).senders|)
      ensures QuietAt(now) <==> AllForetold(env.cfg, core.senders, nextWatchdogCheck, now)
      ensures AllRegular(core.senders) ==> QuietAt(now)
    {
      hide SteadySleep, PassOver, CacheOk, PointerOk, AllQuiet, AllForetold, AllAsked, AllRegular, Distrust, NextCheck;
      var failed := PassSenders(now);
      AskedQuiets(env.cfg, core.senders, nextWatchdogCheck, now);
      if failed && env.cfg.mode == Gated && core.selected.Some? && now >= core.recoveryUntil {
        var skip := SteadySleep(core.candidates[core.selected.value]);
        RecoverAtLeast(skip, now, now);
        EnterRecovery(now);
      }
    }

    /** Checks the watchdogs if they are dirty or due. */
    method MaybeCheckWatchdogs(end: int, ghost before: int)
      requires Shape(env, core) && core.lastEnd == end && before <= end <= MAX_DURATION && CachesAt(end) &&
               PointersAt(before)
      modifies this
      ensures old(core).selected.Some? ==> old(core).selected.value < |old(core).candidates|
      ensures core == if old(ChecksAt(end)) then SchedulerModel.CheckWatchdogs(env, old(core), end) else old(core)
      ensures CachesAt(end) && PointersAt(end)
      ensures old(QuietAt(before)) ==> core == SchedulerModel.CheckWatchdogs(env, old(core), end)
      ensures old(QuietAt(before)) || old(ChecksAt(end)) ==>
        && !watchdogDirty && (QuietAt(end) <==> AllForetold(env.cfg, core.senders, nextWatchdogCheck, end))
        && (AllRegular(core.senders) ==> QuietAt(end))
    {
      hide Shape, CacheOk, AllQuiet, AllForetold, PointerOk, AllRegular, SchedulerModel.CheckWatchdogs, NextCheck;
      InRange(env, core);
      ClockStarted(env, core);
      PointersLater(env.cfg, countStarts, core.senders, before, end);
      if watchdogDirty || (nextWatchdogCheck > 0 && end >= nextWatchdogCheck) {
        CheckWatchdogs(end);
      } else if QuietAt(before) {
        NothingToCheck(env, core, nextWatchdogCheck, before, end);
        QuietsForetell(env.cfg, core.senders, nextWatchdogCheck, end);
      }
    }

    // ---- qualification

    method QualificationDue(now: int) returns (due: bool)
      ensures due == AnyDue(core.candidates, now)
    {
      due := false;
      for k := 0 to |core.candidates|
        invariant due == exists j :: 0 <= j < k && Due(core.candidates[j], now)
        modifies {}
      {
        if Due(core.candidates[k], now) { due := true; }
      }
    }

    method RefreshQualifications(now: int, ghost t: int)
      requires CachesAt(t)
      modifies this`core, this`caches
      ensures core == Refresh(env, old(core), now) && CachesAt(t)
    {
      hide RefreshCandidate, AllLearned, WakeOk;
      var cs, ks := core.candidates, caches;
      for k := 0 to |core.candidates|
        invariant |cs| == |core.candidates| && CachesOk(ks, cs, t)
        invariant forall j :: 0 <= j < k ==>
                  cs[j] == RefreshCandidate(env, core.candidates[j], AllLearned(core.candidates[j].models), now)
        invariant forall j :: k <= j < |cs| ==> cs[j] == core.candidates[j]
        modifies {}
      {
        assert CacheOk(ks[k], cs[k].models, t);
        var c, cache := RefreshOne(env, cs[k], ks[k], now);
        LearnedOk(ks[k], cs[k].models, t);
        RefreshedModels(env, cs[k], now);
        cs, ks := cs[k := c], ks[k := cache];
      }
      core, caches := core.(candidates := cs), ks;
    }

    /** Qualifications are refreshed when evidence changed or a deadline passed; the
        outcome is that of refreshing them on every block. */
    method MaybeRefresh(changed: bool, end: int)
      requires Shape(env, core) && CachesAt(end)
      requires !changed ==> AllSettled(env, core.candidates)
      modifies this`core, this`caches
      ensures core == Refresh(env, old(core), end) && CachesAt(end)
    {
      hide Shape, AllSettled, CacheOk, AnyDue, Refresh;
      var due := QualificationDue(end);
      if forceFullQualificationRefresh || changed || due {
        RefreshQualifications(end, end);
      } else {
        IdleRefresh(env, core, end);
      }
    }

    method ChooseCandidate()
      modifies this`core
      ensures core == Choose(env, old(core))
    {
      hide WatchdogsReady, EffectiveSleep;
      if env.cfg.mode != Gated || core.lastEnd < core.recoveryUntil || core.reanchorPending != {} ||
          !WatchdogsReady(core.senders) {
        core := core.(selected := None);
        return;
      }
      var best: Option<nat> := None;
      for k := 0 to |core.candidates|
        invariant best == Best(core.candidates, k)
        modifies {}
      {
        var c := core.candidates[k];
        if c.qualified && (best.None? || EffectiveSleep(c) > EffectiveSleep(core.candidates[best.value])) {
          best := Some(k);
        }
      }
      core := core.(selected := best);
    }

    // ---- one block

    /** A refresh period that is over tightens the candidate it was for. */
    method EndRefreshPeriod(start: int)
      requires Tightenable(core) && CachesAt(start)
      modifies this`core, this`caches
      ensures core == EndRefresh(env, old(core), start) && CachesAt(start)
    {
      hide TightenAfterRefresh, CacheOk;
      if core.refreshUntil > 0 && start >= core.refreshUntil {
        if core.selected.Some? {
          var k := core.selected.value;
          var c := core.candidates[k];
          TightenCache(c, caches[k], start, start);
          if c.wakeScale > 1.0 { caches := caches[k := Invalidate(caches[k])]; }
          core := core.(candidates := core.candidates[k := TightenAfterRefresh(c, start)], selected := None);
        }
        core := core.(refreshUntil := 0, nextRefresh := 0);
      }
    }

    /** Scores the block for every candidate, from its caches. */
    method ScoreBlock(start: int, end: int) returns (changed: bool)
      requires 0 <= start < end && CachesAt(start)
      requires forall k :: 0 <= k < |core.candidates| ==> WidthsOk(core.candidates[k].models)
      modifies this`core, this`caches
      ensures core == ScoreAll(old(core), start, end) && CachesAt(end)
      ensures !changed ==> NoneFirst(old(core).candidates, |old(core).candidates|)
    {
      hide Score, Awake, WidthsOk, AllLearned, CacheOk;
      changed := false;
      var cs, ks := core.candidates, caches;
      for k := 0 to |core.candidates|
        invariant |cs| == |core.candidates| == |ks|
        invariant forall j :: 0 <= j < k ==>
                  CacheOk(ks[j], cs[j].models, end) && cs[j] == Scored(core.candidates[j], start, end)
        invariant forall j :: k <= j < |cs| ==> cs[j] == core.candidates[j] && CacheOk(ks[j], cs[j].models, start)
        invariant !changed ==> NoneFirst(core.candidates, k)
        modifies {}
      {
        var scored, cache, first := ScoreOne(cs[k], ks[k], start, end);
        FirstEligible(cs[k], AllLearned(cs[k].models), Awake(cs[k].models, start, end), end - start);
        ScoredModels(cs[k], start, end);
        changed := changed || first;
        cs, ks := cs[k := scored], ks[k := cache];
      }
      assert cs == ScoreAll(core, start, end).candidates;
      core, caches := core.(candidates := cs), ks;
    }

    method NameState() returns (name: StateName)
      ensures name == StateOf(env, core)
    {
      hide WatchdogsReady;
      if env.cfg.mode == Off { return OFF; }
      if core.lastEnd < core.recoveryUntil { return RECOVERY; }
      if env.cfg.mode == Gated && core.selected.Some? { return GATED; }
      for k := 0 to |core.candidates|
        invariant forall j :: 0 <= j < k ==> !core.candidates[j].qualified
        modifies {}
      {
        if core.candidates[k].qualified { return if WatchdogsReady(core.senders) then QUALIFIED else SEED; }
      }
      name := SEED;
    }

    method PlanRefreshPeriod(end: int)
      requires core.selected.Some? ==> core.selected.value < |core.candidates|
      modifies this`core
      ensures core == PlanRefresh(env, old(core), end)
    {
      hide RefreshPeriod;
      if core.selected.Some? && end >= core.recoveryUntil {
        var period := RefreshPeriod(core.candidates[core.selected.value], env.cfg.refreshInterval);
        if core.nextRefresh == 0 { core := core.(nextRefresh := end + period); }
        if end >= core.nextRefresh {
          core := core.(refreshUntil := end + env.cfg.refreshDuration, nextRefresh := end + period,
                        refreshes := core.refreshes + 1);
        }
      }
    }

    method DecideBlock(end: int) returns (d: Decision)
      requires core.selected.Some? ==> core.selected.value < |core.candidates|
      modifies this`core
      ensures (core, d) == Decide(env, old(core), end)
    {
      hide UnitOf, XorShift, AuditFraction, RefreshPeriod, StateOf, PlanRefresh;
      PlanFrame(env, core, end);
      var name := SelectedName(core);
      var state := NameState();
      d := Decision(true, false, false, name, state);
      PlanRefreshPeriod(end);
      if core.selected.Some? && end < core.refreshUntil {
        core := core.(quietActive := false, auditActive := false, quietCandidate := "");
        return d.(refresh := true);
      }
      if !SleepInterval(env, core, end) {
        core := core.(quietActive := false, auditActive := false, quietCandidate := "");
      } else {
        if !core.quietActive || core.quietCandidate != name {
          var x := XorShift(core.rng);
          core := core.(rng := x, quietActive := true, quietCandidate := name,
                        auditActive := UnitOf(x) < AuditFraction(core.candidates[core.selected.value]));
        }
        d := d.(decode := core.auditActive, audit := core.auditActive);
      }
    }

    /** One block, decided with every shortcut: the wake caches and the deferred
        refreshes never show, and nor does the watchdogs' schedule while it is quiet.
        It stays quiet but for a check after which some count falls before the next
        one, which does not happen with arrivals in order. */
    method Advance(start: int, end: int) returns (d: Decision)
      requires Sound() && end <= MAX_DURATION
      modifies this
      ensures Sound() && (old(Valid()) ==> Valid())
      ensures Tightenable(old(core)) && (core, d) == AdvanceWith(env, old(core), start, end, old(ChecksAt(end)))
      ensures old(QuietAt(core.lastEnd)) ==> (core, d) == SchedulerModel.Advance(env, old(core), start, end)
      ensures old(QuietAt(core.lastEnd)) || old(ChecksAt(end)) ==>
        (QuietAt(core.lastEnd) <==>
           watchdogDirty || AllForetold(env.cfg, core.senders, nextWatchdogCheck, core.lastEnd))
    {
      hide AllRegular, SchedulerSound.Sound, CacheOk, PointerOk, AllQuiet, AllForetold, Tightenable, SettleWith, Settle,
           Decide, Discontinuity;
      ghost var before := core;
      SoundShape(env, before);
      SoundUsable(env, before);
      AdvanceSound(env, before, start, end, ChecksAt(end));
      if start < 0 || end <= start || (core.started && start != core.lastEnd) {
        d := Restart(start, end);
      } else {
        Ordered(env, core, start, end);
        CachesLater(caches, core.candidates, core.lastEnd, start);
        d := Continue(start, end);
      }
    }

    /** A block that does not continue the stream. */
    method Restart(start: int, end: int) returns (d: Decision)
      requires |caches| == |core.candidates| && |countStarts| == |core.senders|
      modifies this
      ensures (core, d) == Discontinuity(env, old(core), start, end)
      ensures CachesAt(core.lastEnd) && PointersAt(core.lastEnd) && QuietAt(core.lastEnd) && watchdogDirty
    {
      hide CachesOk, PointersOk, AllQuiet, SchedulerModel.ResetLearning, StateOf;
      var now := core.lastEnd;
      if end > start && end >= 0 {
        now := end;
        core := core.(lastEnd := end);
      }
      core := core.(started := true);
      ResetLearning();
      EnterRecovery(now);
      var name := NameState();
      d := Decision(true, false, false, "", name);
    }

    /** Moves time to `end`, ends a refresh period that is over and scores the block. */
    method BeginBlock(start: int, end: int) returns (changed: bool)
      requires SchedulerSound.Sound(env, core) && Tightenable(core) && Continues(core, start, end) && CachesAt(start)
      modifies this`core, this`caches
      ensures core == Begin(env, old(core), start, end) && CachesAt(end)
      ensures Shape(env, core) && core.lastEnd == end && core.senders == old(core).senders
      ensures !changed ==> AllSettled(env, core.candidates)
    {
      hide SchedulerSound.Sound, Shape, AllSettled, CachesOk, EndRefresh, ScoreAll, NoneFirst, Tightenable, WidthsOk;
      ghost var moved := core.(started := true, lastEnd := end);
      BeginSound(env, core, start, end);
      LaterSound(env, core, end);
      TightenableLater(core, end);
      EndRefreshSound(env, moved, start);
      core := core.(started := true, lastEnd := end);
      EndRefreshPeriod(start);
      SoundShape(env, core);
      Widths(env, core);
      ghost var begun := core;
      changed := ScoreBlock(start, end);
      if !changed { FirstScores(env, begun, start, end); }
    }

    /** A block that continues the stream. */
    method Continue(start: int, end: int) returns (d: Decision)
      requires SchedulerSound.Sound(env, core) && Tightenable(core) && Continues(core, start, end) &&
               end <= MAX_DURATION
      requires CachesAt(start) && PointersAt(core.lastEnd)
      modifies this
      ensures (core, d) == Decide(env, SettleWith(env, old(core), start, end, old(ChecksAt(end))), end)
      ensures core.lastEnd == end && CachesAt(end) && PointersAt(end)
      ensures old(QuietAt(core.lastEnd)) ==> (core, d) == Decide(env, Settle(env, old(core), start, end), end)
      ensures old(QuietAt(core.lastEnd)) || old(ChecksAt(end)) ==>
        && !watchdogDirty && (QuietAt(end) <==> AllForetold(env.cfg, core.senders, nextWatchdogCheck, end))
        && (AllRegular(core.senders) ==> QuietAt(end))
    {
      hide SchedulerSound.Sound, Shape, AllRegular, AllSettled, CachesOk, PointersOk, AllQuiet, AllForetold, Begin,
           Decide, SchedulerModel.CheckWatchdogs, Refresh, Choose, Tightenable;
      SoundShape(env, core);
      Ordered(env, core, start, end);
      ghost var before := core.lastEnd;
      var changed := BeginBlock(start, end);
      CheckSound(env, core, end);
      MaybeCheckWatchdogs(end, before);
      RefreshAllSound(env, core, end);
      MaybeRefresh(changed, end);
      SoundShape(env, core);
      ChooseSound(env, core);
      ChooseCandidate();
      DecideSound(env, core, end);
      d := DecideBlock(end);
    }

    // ---- observing

    method TakeSender(i: nat, protocol: string, at: int, reanchor: bool)
      requires i < |core.senders| && PointersAt(core.lastEnd)
      modifies this`core, this`countStarts
      ensures var s := ObserveSender(env, old(core).senders[i], protocol, at, reanchor);
        core == old(core).(senders := old(core).senders[i := s])
      ensures PointersAt(core.lastEnd)
    {
      hide ObserveSender, Arrived, Trimmed, PointerOk;
      var s, from := core.senders[i], countStarts[i];
      TrimPointer(env, s, protocol, at, reanchor, from, core.lastEnd);
      var dropped := Trimmed(env, Arrived(env, s, protocol, at, reanchor), at);
      countStarts := countStarts[i := if from < dropped then 0 else from - dropped];
      core := core.(senders := core.senders[i := ObserveSender(env, s, protocol, at, reanchor)]);
    }

    method TakeEvidence(a: Arrival, i: nat, reanchor: bool)
      requires CachesAt(core.lastEnd) && forall k :: 0 <= k < |core.candidates| ==> i < |core.candidates[k].models|
      modifies this`core, this`caches
      ensures core == old(core).(candidates := core.candidates) && |core.candidates| == |old(core).candidates| &&
              CachesAt(core.lastEnd)
      ensures forall k :: 0 <= k < |core.candidates| ==>
              core.candidates[k] == ObserveCandidate(env, old(core).candidates[k], i, a, reanchor)
    {
      hide ObserveCandidate, CacheOk;
      var cs, ks := core.candidates, caches;
      for k := 0 to |core.candidates|
        invariant |cs| == |core.candidates| && CachesOk(ks, cs, core.lastEnd)
        invariant forall j :: 0 <= j < k ==> cs[j] == ObserveCandidate(env, core.candidates[j], i, a, reanchor)
        invariant forall j :: k <= j < |cs| ==> cs[j] == core.candidates[j]
        modifies {}
      {
        var c := ObserveCandidate(env, cs[k], i, a, reanchor);
        InvalidOk(ks[k], c.models, core.lastEnd);
        cs, ks := cs[k := c], ks[k := Invalidate(ks[k])];
      }
      core, caches := core.(candidates := cs), ks;
    }

    method Take(i: nat, a: Arrival)
      requires Consistent(core) && i < |core.senders| && CachesAt(core.lastEnd) && PointersAt(core.lastEnd)
      modifies this
      ensures core == TakeArrival(env, old(core), a, i) && nextWatchdogCheck == old(nextWatchdogCheck) && watchdogDirty
      ensures CachesAt(core.lastEnd) && PointersAt(core.lastEnd)
    {
      hide ObserveCandidate, ObserveSender, CachesOk, PointersOk, CountArrival;
      ghost var before := core;
      var reanchor := a.id in core.reanchorPending;
      TakeSender(i, a.protocol, a.at, reanchor);
      TakeEvidence(a, i, reanchor);
      core := core.(protocols := CountArrival(core.protocols, a.protocol),
                    reanchorPending := core.reanchorPending - {a.id});
      watchdogDirty := true;
      assert core.candidates == TakeArrival(env, before, a, i).candidates;
    }

    method Punish(a: Arrival)
      requires (core.selected.Some? ==> core.selected.value < |core.candidates|) && CachesAt(core.lastEnd)
      modifies this`core, this`caches
      ensures core == PunishEscape(env, old(core), a) && CachesAt(core.lastEnd)
      ensures core.senders == old(core).senders && core.lastEnd == old(core).lastEnd
    {
      hide SteadySleep, CacheOk, Distrust;
      if env.cfg.mode == Gated && core.selected.Some? {
        var c := core.candidates[core.selected.value];
        if a.escaped || (c.lastEligible && !c.lastAwake) {
          RecoverAtLeast(SteadySleep(c), a.at, core.lastEnd);
          EnterRecovery(core.lastEnd);
        }
      }
    }

    /** One arrival: what it adds to the evidence, and what it costs if it escaped. */
    method Observe(id: nat, protocol: string, at: int, escaped: bool)
      requires Sound()
      modifies this
      ensures Sound() && (old(Valid()) ==> Valid()) && (old(QuietAt(core.lastEnd)) ==> QuietAt(core.lastEnd))
      ensures Consistent(old(core)) &&
              core == SchedulerModel.Observe(env, old(core), Arrival(id, protocol, at, escaped))
    {
      hide AllRegular, SchedulerSound.Sound, CachesOk, PointersOk, AllQuiet, Consistent, TakeArrival, PunishEscape,
           Refresh, Choose;
      ghost var before := core;
      var a := Arrival(id, protocol, at, escaped);
      SoundShape(env, before);
      SoundUsable(env, before);
      ObserveSound(env, before, a);
      var found := Find(core.senders, id, |core.senders|);
      if found.None? { return; }
      var i := found.value;
      var s := core.senders[i];
      if at < 0 || (s.seen && at <= s.lastSeen) {
        if s.seen && at < s.lastSeen { EnterRecovery(core.lastEnd); }
      } else if s.protocol != "" && s.protocol != protocol {
        EnterRecovery(core.lastEnd);
      } else {
        Accept(i, a);
      }
    }

    /** An arrival that is taken. */
    method Accept(i: nat, a: Arrival)
      requires Shape(env, core) && Consistent(core) && i < |core.senders| && 0 <= a.at && CachesAt(core.lastEnd) &&
               PointersAt(core.lastEnd)
      modifies this
      ensures core == Choose(env, Refresh(env, PunishEscape(env, TakeArrival(env, old(core), a, i), a), a.at))
      ensures CachesAt(core.lastEnd) && PointersAt(core.lastEnd) && nextWatchdogCheck == old(nextWatchdogCheck) &&
              watchdogDirty
    {
      hide Shape, CachesOk, PointersOk, Consistent, TakeArrival, PunishEscape, Refresh, Choose;
      TakeSound(env, core, a, i);
      Take(i, a);
      InRange(env, core);
      PunishSound(env, core, a);
      Punish(a);
      RefreshAllSound(env, core, a.at);
      RefreshQualifications(a.at, core.lastEnd);
      SoundShape(env, core);
      ChooseSound(env, core);
      ChooseCandidate();
    }

    method PrepareResume()
      requires Sound()
      modifies this`core
      ensures Sound() && (old(Valid()) ==> Valid()) && core == SchedulerModel.PrepareResume(old(core))
      ensures core.lastEnd == old(core).lastEnd && (old(QuietAt(core.lastEnd)) ==> QuietAt(core.lastEnd))
    {
      hide AllRegular, SchedulerSound.Sound, CachesOk, PointersOk, AllQuiet;
      ResumeSound(env, core);
      var pending: set<nat> := {};
      for i := 0 to |core.senders|
        invariant pending == set j: nat | j < i && core.senders[j].seen :: core.senders[j].cfg.id
        modifies {}
      {
        if core.senders[i].seen { pending := pending + {core.senders[i].cfg.id}; }
      }
      core := core.(reanchorPending := pending, selected := None, quietActive := false, auditActive := false,
                    quietCandidate := "");
    }
  }
}
