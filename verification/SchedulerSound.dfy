/** The smaller invariant on which a skip rests: the parts are wired, windows have
    widths, and qualifications agree with the evidence.  Any scheduler has it after
    restoring any checkpoint that is accepted, and keeps it whatever happens. */
module SchedulerSound {
  import opened SchedulerModel
  import opened SchedulerInvariant
  import opened WakeCache

  ghost predicate SoundCandidate(env: Env, c: Candidate, i: nat, senders: nat)
    requires i < |env.cfg.candidates|
  {
    c.cfg == env.cfg.candidates[i] && |c.models| == senders && 0 <= c.promotionReady && 0 <= c.eligibleDuration &&
    WidthsOk(c.models)
  }

  ghost predicate SoundCandidates(env: Env, cs: seq<Candidate>, senders: nat)
  {
    |cs| == |env.cfg.candidates| && forall i :: 0 <= i < |cs| ==> SoundCandidate(env, cs[i], i, senders)
  }

  ghost predicate WiredSenders(env: Env, senders: seq<Sender>)
  {
    |senders| == |env.cfg.senders| && forall i :: 0 <= i < |senders| ==> senders[i].cfg == env.cfg.senders[i]
  }

  ghost predicate Shape(env: Env, s: Core)
  {
    && ValidConfig(env.cfg) && 0 <= s.lastEnd && (!s.started ==> s.lastEnd == 0) && SelectedOk(env, s)
    && WiredSenders(env, s.senders) && SoundCandidates(env, s.candidates, |s.senders|)
  }

  ghost predicate Sound(env: Env, s: Core)
  {
    Shape(env, s) && AllSettled(env, s.candidates)
  }

  /** What the watchdogs' schedule rests on: arrivals in order. */
  ghost predicate Regular(s: Sender)
  {
    (!s.seen ==> s.observations == []) && SortedUpTo(s.observations, s.lastSeen)
  }

  ghost predicate AllRegular(senders: seq<Sender>)
  {
    forall i :: 0 <= i < |senders| ==> Regular(senders[i])
  }

  /** One block, whether or not the watchdogs are checked in it. */
  ghost function SettleWith(env: Env, s: Core, start: int, end: int, check: bool): Core
    requires Tightenable(s)
  {
    var b := Begin(env, s, start, end);
    Choose(env, Refresh(env, if check then CheckWatchdogs(env, b, end) else b, end))
  }

  ghost function AdvanceWith(env: Env, s: Core, start: int, end: int, check: bool): (Core, Decision)
    requires Tightenable(s)
  {
    if Continues(s, start, end) then Decide(env, SettleWith(env, s, start, end, check), end)
    else Discontinuity(env, s, start, end)
  }

  lemma CheckedAdvance(env: Env, s: Core, start: int, end: int)
    requires Tightenable(s)
    ensures AdvanceWith(env, s, start, end, true) == Advance(env, s, start, end)
  {
    hide Decide, Discontinuity, Begin, CheckWatchdogs, Refresh, Choose, Tightenable;
  }

  // ---- the larger invariant implies it

  lemma CandidateIsSound(env: Env, c: Candidate, i: nat, senders: nat, lastEnd: int)
    requires i < |env.cfg.candidates| && CandidateOk(c, lastEnd) && c.cfg == env.cfg.candidates[i] &&
             |c.models| == senders
    ensures SoundCandidate(env, c, i, senders)
  {
    forall k | 0 <= k < |c.models| ensures WidthOk(c.models[k]) { assert ModelOk(c.models[k], c.cfg, lastEnd); }
  }

  lemma InvIsSound(env: Env, s: Core)
    requires Inv(env, s)
    ensures Sound(env, s) && AllRegular(s.senders)
  {
    InvIsParts(env, s);
    hide CandidateOk, SoundCandidate, AllSettled, Inv, ValidConfig;
    forall i | 0 <= i < |s.candidates| ensures SoundCandidate(env, s.candidates[i], i, |s.senders|) {
      CandidateIsSound(env, s.candidates[i], i, |s.senders|, s.lastEnd);
    }
  }

  lemma SoundUsable(env: Env, s: Core)
    requires Shape(env, s)
    ensures Tightenable(s) && Consistent(s)
  {
    hide WidthsOk, WiredSenders;
    forall i | 0 <= i < |s.candidates| ensures 1.0 < s.candidates[i].cfg.wakeScaleStep {
      assert SoundCandidate(env, s.candidates[i], i, |s.senders|) && ValidCandidate(env.cfg.candidates[i]);
    }
  }

  lemma NewSound(env: Env)
    requires ValidConfig(env.cfg)
    ensures Sound(env, NewCore(env)) && AllRegular(NewCore(env).senders)
  {
  }

  // ---- candidates

  /** A new epoch leaves no evidence and so nothing that could qualify. */
  lemma EpochSettles(env: Env, c: Candidate, now: int, widen: bool)
    ensures c.models != [] || c.invalid ==> Settled(env, BeginNewEpoch(c, now, widen))
  {
    hide ScaleDuration;
    if c.models != [] { assert BeginNewEpoch(c, now, widen).models[0].events == 0; }
  }

  lemma EpochSound(env: Env, c: Candidate, i: nat, senders: nat, now: int, widen: bool)
    requires i < |env.cfg.candidates| && SoundCandidate(env, c, i, senders)
    ensures SoundCandidate(env, BeginNewEpoch(c, now, widen), i, senders)
  {
    hide ScaleDuration;
    var e := BeginNewEpoch(c, now, widen);
    forall k | 0 <= k < |e.models| ensures WidthOk(e.models[k]) { assert WidthOk(c.models[k]); }
  }

  lemma TightenSound(env: Env, c: Candidate, i: nat, senders: nat, now: int)
    requires i < |env.cfg.candidates| && SoundCandidate(env, c, i, senders) && 1.0 < c.cfg.wakeScaleStep
    requires Settled(env, c) && c.models != []
    ensures SoundCandidate(env, TightenAfterRefresh(c, now), i, senders) && Settled(env, TightenAfterRefresh(c, now))
  {
    hide ScaleDuration, BeginNewEpoch, Tightened, Settled;
    if c.wakeScale > 1.0 {
      var scale := Tightened(c.wakeScale, c.cfg.wakeScaleStep);
      var ratio := scale / c.wakeScale;
      var narrowed := MapModels(c.models, (m: Model) =>
        if m.learned then m.(preWake := ScaleDuration(m.preWake, ratio), postWake := ScaleDuration(m.postWake, ratio))
        else m);
      var t := c.(wakeScale := scale, models := narrowed);
      forall k | 0 <= k < |narrowed| ensures WidthOk(narrowed[k]) { assert WidthOk(c.models[k]); }
      EpochSound(env, t, i, senders, now, false);
      EpochSettles(env, t, now, false);
    }
  }

  lemma DistrustSound(env: Env, c: Candidate, i: nat, senders: nat, skip: real, now: int)
    requires i < |env.cfg.candidates| && SoundCandidate(env, c, i, senders)
    ensures SoundCandidate(env, Distrust(env, c, skip, now), i, senders)
    ensures Settled(env, c) ==> Settled(env, Distrust(env, c, skip, now))
  {
    hide SteadySleep, WidthsOk, BeginNewEpoch;
    if SteadySleep(c) >= skip {
      EpochSound(env, c.(invalid := true), i, senders, now, true);
      EpochSettles(env, c.(invalid := true), now, true);
    }
  }

  lemma ScoreSound(env: Env, c: Candidate, i: nat, senders: nat, awake: bool, duration: int)
    requires 0 < duration && i < |env.cfg.candidates| && SoundCandidate(env, c, i, senders)
    ensures var r := Score(c, AllLearned(c.models), awake, duration);
      SoundCandidate(env, r.0, i, senders) && (Settled(env, c) && !r.1 ==> Settled(env, r.0))
  {
    hide MeetsBound, AllLearned, WidthsOk;
  }

  lemma RefreshSound(env: Env, c: Candidate, i: nat, senders: nat, now: int)
    requires ValidConfig(env.cfg) && i < |env.cfg.candidates| && SoundCandidate(env, c, i, senders) && 0 <= now
    ensures var r := RefreshCandidate(env, c, AllLearned(c.models), now);
      SoundCandidate(env, r, i, senders) && Settled(env, r) && !Due(r, now)
  {
    hide WidthsOk, RefreshCandidate, AllLearned, ValidConfig;
    RefreshSettles(env, c, now);
  }

  // ---- whole steps

  lemma {:induction false} PassWired(env: Env, s: Core, now: int, n: nat)
    requires n <= |s.senders| && WiredSenders(env, s.senders)
    ensures var p := PassOver(env, s, now, n);
      WiredSenders(env, p.senders) && (AllRegular(s.senders) ==> AllRegular(p.senders))
  {
    hide Judge, InWindow, Regular;
    if n > 0 {
      PassWired(env, s, now, n - 1);
      var t := PassOver(env, s, now, n - 1).senders[n - 1];
      JudgeRegular(env.cfg, t, now, InWindow(env.cfg, t, now));
    }
  }

  lemma JudgeRegular(cfg: Config, s: Sender, now: int, count: nat)
    ensures var r := Judge(cfg, s, now, count).sender;
      r.cfg == s.cfg && r.observations == s.observations && (Regular(s) ==> Regular(r))
  {
    hide SortedUpTo;
  }

  lemma RecoverSound(env: Env, s: Core, skip: real, now: int)
    requires Shape(env, s)
    ensures Shape(env, RecoverAtLeast(env, s, skip, now)) && RecoverAtLeast(env, s, skip, now).senders == s.senders
    ensures AllSettled(env, s.candidates) ==> AllSettled(env, RecoverAtLeast(env, s, skip, now).candidates)
  {
    hide Distrust, Settled, SoundCandidate, WiredSenders, ValidConfig;
    forall i | 0 <= i < |s.candidates|
      ensures var d := Distrust(env, s.candidates[i], skip, now);
        SoundCandidate(env, d, i, |s.senders|) && (Settled(env, s.candidates[i]) ==> Settled(env, d))
    {
      DistrustSound(env, s.candidates[i], i, |s.senders|, skip, now);
    }
  }

  lemma EnterSound(env: Env, s: Core, now: int)
    requires Shape(env, s)
    ensures var r := EnterRecovery(env, s, now);
      && Shape(env, r) && r.candidates == s.candidates && r.lastEnd == s.lastEnd &&
         r.discontinuities == s.discontinuities
      && r.started == s.started && r.senders == s.senders && r.recoveryUntil >= s.recoveryUntil &&
         r.recoveryUntil >= now + env.cfg.recoveryDuration
  {
    hide WiredSenders, SoundCandidates, ValidConfig;
  }

  lemma CheckSound(env: Env, s: Core, now: int)
    requires Shape(env, s)
    ensures s.selected.Some? ==> s.selected.value < |s.candidates|
    ensures var r := CheckWatchdogs(env, s, now);
      && Shape(env, r) && (AllSettled(env, s.candidates) ==> AllSettled(env, r.candidates))
      && r.recoveryUntil >= s.recoveryUntil && r.lastEnd == s.lastEnd && r.started == s.started
      && r.discontinuities == s.discontinuities && (AllRegular(s.senders) ==> AllRegular(r.senders))
  {
    hide WiredSenders, AllRegular, SoundCandidates, AllSettled, PassOver, RecoverAtLeast, EnterRecovery, SteadySleep,
         ValidConfig;
    PassWired(env, s, now, |s.senders|);
    var p := PassOver(env, s, now, |s.senders|);
    var s1 := Judged(s, p);
    if s.selected.Some? {
      var skip := SteadySleep(s.candidates[s.selected.value]);
      RecoverSound(env, s1, skip, now);
      RecoverFrame(env, s1, skip, now);
      EnterSound(env, RecoverAtLeast(env, s1, skip, now), now);
    }
  }

  lemma RefreshAllSound(env: Env, s: Core, now: int)
    requires Shape(env, s) && 0 <= now
    ensures Sound(env, Refresh(env, s, now)) && !AnyDue(Refresh(env, s, now).candidates, now)
    ensures Refresh(env, s, now) == s.(candidates := Refresh(env, s, now).candidates)
  {
    hide WiredSenders, SoundCandidate, RefreshCandidate, Settled, Due, ValidConfig;
    forall i | 0 <= i < |s.candidates|
      ensures var r := RefreshCandidate(env, s.candidates[i], AllLearned(s.candidates[i].models), now);
        SoundCandidate(env, r, i, |s.senders|) && Settled(env, r) && !Due(r, now)
    {
      RefreshSound(env, s.candidates[i], i, |s.senders|, now);
    }
  }

  lemma ChooseSound(env: Env, s: Core)
    requires Shape(env, s)
    ensures Shape(env, Choose(env, s)) && Choose(env, s) == s.(selected := Choose(env, s).selected)
    ensures var r := Choose(env, s);
      r.selected.Some? ==>
        MaySelect(env, s) && r.selected.value < |s.candidates| && s.candidates[r.selected.value].qualified
  {
    hide WiredSenders, SoundCandidates, WatchdogsReady, ValidConfig;
  }

  lemma HasModels(env: Env, s: Core, i: nat)
    requires Shape(env, s) && env.cfg.mode == Gated && i < |s.candidates|
    ensures s.candidates[i].models != []
  {
    hide WidthsOk;
  }

  lemma EndRefreshSound(env: Env, s: Core, start: int)
    requires Sound(env, s) && Tightenable(s)
    ensures Sound(env, EndRefresh(env, s, start))
    ensures var r := EndRefresh(env, s, start);
      r == s.(candidates := r.candidates, selected := r.selected, refreshUntil := r.refreshUntil,
              nextRefresh := r.nextRefresh)
  {
    hide WiredSenders, Settled, WidthsOk, TightenAfterRefresh, ValidConfig;
    if s.refreshUntil > 0 && start >= s.refreshUntil && s.selected.Some? {
      var i := s.selected.value;
      HasModels(env, s, i);
      TightenSound(env, s.candidates[i], i, |s.senders|, start);
    }
  }

  lemma ScoredSound(env: Env, c: Candidate, i: nat, senders: nat, start: int, end: int)
    requires start < end && i < |env.cfg.candidates| && SoundCandidate(env, c, i, senders)
    ensures SoundCandidate(env, Scored(c, start, end), i, senders)
    ensures Settled(env, c) && Begun(c) ==> Settled(env, Scored(c, start, end))
  {
    hide SoundCandidate, Settled, Score, Awake, AllLearned;
    ScoreSound(env, c, i, senders, Awake(c.models, start, end), end - start);
    FirstEligible(c, AllLearned(c.models), Awake(c.models, start, end), end - start);
  }

  lemma ScoreAllSound(env: Env, s: Core, start: int, end: int)
    requires Shape(env, s) && start < end
    ensures Shape(env, ScoreAll(s, start, end)) &&
            ScoreAll(s, start, end) == s.(candidates := ScoreAll(s, start, end).candidates)
    ensures AllSettled(env, s.candidates) && (forall i :: 0 <= i < |s.candidates| ==> Begun(s.candidates[i])) ==>
              AllSettled(env, ScoreAll(s, start, end).candidates)
  {
    hide WiredSenders, Settled, SoundCandidate, ValidConfig, Scored, Begun;
    forall i | 0 <= i < |s.candidates|
      ensures var c := s.candidates[i]; var r := Scored(c, start, end);
        SoundCandidate(env, r, i, |s.senders|) && (Settled(env, c) && Begun(c) ==> Settled(env, r))
    {
      ScoredSound(env, s.candidates[i], i, |s.senders|, start, end);
    }
  }

  lemma LaterSound(env: Env, s: Core, end: int)
    requires Sound(env, s) && 0 <= end
    ensures Sound(env, s.(started := true, lastEnd := end))
  {
    hide WiredSenders, SoundCandidate, Settled, ValidConfig;
  }

  lemma Ordered(env: Env, s: Core, start: int, end: int)
    requires Shape(env, s) && Continues(s, start, end)
    ensures s.lastEnd <= start < end
  {
  }

  lemma BeginSound(env: Env, s: Core, start: int, end: int)
    requires Sound(env, s) && Tightenable(s) && Continues(s, start, end)
    ensures var r := Begin(env, s, start, end);
      && Shape(env, r) && r.lastEnd == end && r.started && r.recoveryUntil == s.recoveryUntil
      && r.discontinuities == s.discontinuities && r.senders == s.senders
  {
    hide Sound, Shape, EndRefresh, ScoreAll, AllSettled;
    var s0 := s.(started := true, lastEnd := end);
    LaterSound(env, s, end);
    assert Tightenable(s0);
    EndRefreshSound(env, s0, start);
    SoundShape(env, EndRefresh(env, s0, start));
    ScoreAllSound(env, EndRefresh(env, s0, start), start, end);
  }

  lemma SoundShape(env: Env, s: Core)
    ensures Sound(env, s) <==> Shape(env, s) && AllSettled(env, s.candidates)
  {
  }

  lemma InRange(env: Env, s: Core)
    requires Shape(env, s)
    ensures s.selected.Some? ==> s.selected.value < |s.candidates|
  {
  }

  lemma SettleSound(env: Env, s: Core, start: int, end: int, check: bool)
    requires Sound(env, s) && Tightenable(s) && Continues(s, start, end)
    ensures var r := SettleWith(env, s, start, end, check);
      && Sound(env, r) && r.recoveryUntil >= s.recoveryUntil && r.lastEnd == end && r.started
      && r.discontinuities == s.discontinuities && !AnyDue(r.candidates, end) &&
         (AllRegular(s.senders) ==> AllRegular(r.senders))
      && (r.selected.Some? ==>
            MaySelect(env, r) && r.selected.value < |r.candidates| && r.candidates[r.selected.value].qualified)
  {
    hide Shape, Sound, AllSettled, AllRegular, Begin, CheckWatchdogs, Refresh, Choose, WatchdogsReady, AnyDue,
         Tightenable;
    BeginSound(env, s, start, end);
    var b := Begin(env, s, start, end);
    CheckSound(env, b, end);
    var c := if check then CheckWatchdogs(env, b, end) else b;
    RefreshAllSound(env, c, end);
    SoundShape(env, Refresh(env, c, end));
    ChooseSound(env, Refresh(env, c, end));
    SoundShape(env, SettleWith(env, s, start, end, check));
  }

  lemma DecideSound(env: Env, s: Core, end: int)
    requires Shape(env, s)
    ensures s.selected.Some? ==> s.selected.value < |s.candidates|
    ensures var r := Decide(env, s, end).0;
      && Shape(env, r) && r.candidates == s.candidates && r.senders == s.senders && r.selected == s.selected
      && r.recoveryUntil == s.recoveryUntil && r.lastEnd == s.lastEnd && r.reanchorPending == s.reanchorPending
      && r.discontinuities == s.discontinuities
  {
    hide UnitOf, XorShift, AuditFraction, RefreshPeriod, StateOf, PlanRefresh, WiredSenders, SoundCandidates,
         ValidConfig;
    PlanFrame(env, s, end);
  }

  lemma DiscontinuitySound(env: Env, s: Core, start: int, end: int)
    requires Sound(env, s)
    ensures var r := Discontinuity(env, s, start, end).0;
      && Sound(env, r) && r.recoveryUntil >= s.recoveryUntil && r.recoveryUntil >= r.lastEnd + env.cfg.recoveryDuration
      && AllRegular(r.senders)
  {
    hide StateOf, ValidConfig, EnterRecovery;
    var end' := if end > start && end >= 0 then end else s.lastEnd;
    var r0 := ResetLearning(s.(started := true, lastEnd := end')).(selected := None);
    forall i | 0 <= i < |r0.candidates|
      ensures SoundCandidate(env, r0.candidates[i], i, |r0.senders|) && Settled(env, r0.candidates[i])
    {
      assert SoundCandidate(env, s.candidates[i], i, |s.senders|);
    }
    EnterSound(env, r0, end');
    RecoveryIgnoresSelection(env, ResetLearning(s.(started := true, lastEnd := end')), end');
  }

  /** Every block keeps it, with or without a look at the watchdogs. */
  lemma AdvanceSound(env: Env, s: Core, start: int, end: int, check: bool)
    requires Sound(env, s) && Tightenable(s)
    ensures var r := AdvanceWith(env, s, start, end, check).0;
      Sound(env, r) && r.recoveryUntil >= s.recoveryUntil && (AllRegular(s.senders) ==> AllRegular(r.senders))
  {
    hide AllRegular, Sound, Shape, SettleWith, Decide, Discontinuity, AllSettled, Tightenable;
    if Continues(s, start, end) {
      SettleSound(env, s, start, end, check);
      var r := SettleWith(env, s, start, end, check);
      SoundShape(env, r);
      DecideSound(env, r, end);
      SoundShape(env, Decide(env, r, end).0);
    } else {
      DiscontinuitySound(env, s, start, end);
    }
  }

  // ---- observing

  lemma ObserveModelWidth(num: Numerics, m: Model, protocol: string, at: int, cfg: CandidateConfig, wakeScale: real)
    requires WidthOk(m)
    ensures WidthOk(ObserveModel(num, m, protocol, at, cfg, wakeScale).0)
  {
    hide Multiple, NextHistoryLimit, CompatibleHistory, IsR900, ScaleDuration;
  }

  lemma ObserveCandidateSound(env: Env, c: Candidate, i: nat, senders: nat, k: nat, a: Arrival, reanchor: bool)
    requires i < |env.cfg.candidates| && SoundCandidate(env, c, i, senders) && k < |c.models|
    ensures SoundCandidate(env, ObserveCandidate(env, c, k, a, reanchor), i, senders)
  {
    hide ObserveModel, BeginNewEpoch;
    var m := c.models[k];
    if !reanchor {
      var misses := if c.lastAwake then m.misses else m.misses + 1;
      var m1 := if c.lastEligible then m.(events := m.events + 1, misses := misses) else m;
      ObserveModelWidth(env.num, m1, a.protocol, a.at, c.cfg, c.wakeScale);
      var m2 := ObserveModel(env.num, m1, a.protocol, a.at, c.cfg, c.wakeScale).0;
      EpochSound(env, c.(models := c.models[k := m2]), i, senders, a.at, true);
    }
  }

  lemma ObserveRegular(env: Env, s: Sender, protocol: string, at: int, reanchor: bool)
    ensures ObserveSender(env, s, protocol, at, reanchor).cfg == s.cfg
    ensures Regular(s) && 0 <= at && (s.seen ==> s.lastSeen < at) ==>
            Regular(ObserveSender(env, s, protocol, at, reanchor))
  {
    hide Trimmed, Arrived;
    ArrivedFrame(env, s, protocol, at, reanchor);
  }

  lemma TakeSound(env: Env, s: Core, a: Arrival, i: nat)
    requires Shape(env, s) && Consistent(s) && i < |s.senders|
    ensures var r := TakeArrival(env, s, a, i);
      && Shape(env, r)
      && r == s.(senders := r.senders, protocols := r.protocols, candidates := r.candidates,
                 reanchorPending := r.reanchorPending)
      && (AllRegular(s.senders) && 0 <= a.at && (s.senders[i].seen ==> s.senders[i].lastSeen < a.at) ==>
          AllRegular(r.senders))
  {
    hide ObserveCandidate, ObserveSender, SoundCandidate, ValidConfig, Regular;
    var reanchor := a.id in s.reanchorPending;
    ObserveRegular(env, s.senders[i], a.protocol, a.at, reanchor);
    forall k | 0 <= k < |s.candidates|
      ensures SoundCandidate(env, ObserveCandidate(env, s.candidates[k], i, a, reanchor), k, |s.senders|)
    {
      ModelCount(env, s.candidates[k], k, |s.senders|);
      ObserveCandidateSound(env, s.candidates[k], k, |s.senders|, i, a, reanchor);
    }
  }

  lemma ModelCount(env: Env, c: Candidate, i: nat, senders: nat)
    requires i < |env.cfg.candidates| && SoundCandidate(env, c, i, senders)
    ensures |c.models| == senders
  {
  }

  lemma PunishSound(env: Env, s: Core, a: Arrival)
    requires Shape(env, s)
    ensures s.selected.Some? ==> s.selected.value < |s.candidates|
    ensures var r := PunishEscape(env, s, a);
      && Shape(env, r) && r.recoveryUntil >= s.recoveryUntil && r.lastEnd == s.lastEnd && r.senders == s.senders
      && (Escapes(env, s, a) ==> r.recoveryUntil >= s.lastEnd + env.cfg.recoveryDuration)
  {
    hide WiredSenders, SoundCandidates, RecoverAtLeast, EnterRecovery, SteadySleep, ValidConfig;
    if s.selected.Some? {
      var skip := SteadySleep(s.candidates[s.selected.value]);
      RecoverSound(env, s, skip, a.at);
      RecoverFrame(env, s, skip, a.at);
      EnterSound(env, RecoverAtLeast(env, s, skip, a.at), s.lastEnd);
    }
  }

  /** Every arrival keeps it, also one that is later than the last block. */
  lemma ObserveSound(env: Env, s: Core, a: Arrival)
    requires Sound(env, s) && Consistent(s)
    ensures var r := Observe(env, s, a); Sound(env, r) && r.recoveryUntil >= s.recoveryUntil && r.lastEnd == s.lastEnd
    ensures AllRegular(s.senders) ==> AllRegular(Observe(env, s, a).senders)
    ensures Admit(s, a).Fault? || (Admit(s, a).Taken? && Escapes(env, s, a)) ==>
              Observe(env, s, a).recoveryUntil >= s.lastEnd + env.cfg.recoveryDuration
  {
    hide Shape, Sound, AllRegular, AllSettled, TakeArrival, PunishEscape, Refresh, Choose, EnterRecovery, Escapes;
    SoundShape(env, s);
    match Admit(s, a)
    case Ignored =>
    case Fault =>
      EnterSound(env, s, s.lastEnd);
      SoundShape(env, Observe(env, s, a));
    case Taken(i) =>
      TakeSound(env, s, a, i);
      var s1 := TakeArrival(env, s, a, i);
      InRange(env, s1);
      if Escapes(env, s, a) { TakenEscapes(env, s, a, i); }
      PunishSound(env, s1, a);
      var s2 := PunishEscape(env, s1, a);
      RefreshAllSound(env, s2, a.at);
      SoundShape(env, Refresh(env, s2, a.at));
      ChooseSound(env, Refresh(env, s2, a.at));
      SoundShape(env, Observe(env, s, a));
  }

  /** Taking the arrival does not change whether it escaped. */
  lemma TakenEscapes(env: Env, s: Core, a: Arrival, i: nat)
    requires Consistent(s) && i < |s.senders| && Escapes(env, s, a)
    ensures var t := TakeArrival(env, s, a, i);
      (t.selected.Some? ==> t.selected.value < |t.candidates|) && Escapes(env, t, a) && t.lastEnd == s.lastEnd
  {
    hide ObserveSender, ObserveModel, CountArrival, ScaleDuration;
  }

  /** The larger invariant survives exactly the arrivals that are not taken or not
      later than the last block. */
  lemma ObserveInv(env: Env, s: Core, a: Arrival)
    requires Inv(env, s) && Consistent(s)
    ensures Inv(env, Observe(env, s, a)) <==> (Admit(s, a).Taken? ==> a.at <= s.lastEnd)
  {
    hide Inv, Shape, Sound, AllSettled, TakeArrival, PunishEscape, Refresh, Choose, EnterRecovery;
    if !Admit(s, a).Taken? || a.at <= s.lastEnd {
      ObserveKeeps(env, s, a);
    } else {
      var i := Admit(s, a).i;
      InvIsSound(env, s);
      SoundShape(env, s);
      TakeSound(env, s, a, i);
      var s1 := TakeArrival(env, s, a, i);
      TakenSeen(env, s, a, i);
      InRange(env, s1);
      PunishSound(env, s1, a);
      var s2 := PunishEscape(env, s1, a);
      RefreshAllSound(env, s2, a.at);
      SoundShape(env, Refresh(env, s2, a.at));
      ChooseSound(env, Refresh(env, s2, a.at));
      SeenInTime(env, Observe(env, s, a), i);
    }
  }

  lemma TakenSeen(env: Env, s: Core, a: Arrival, i: nat)
    requires Consistent(s) && i < |s.senders|
    ensures var r := TakeArrival(env, s, a, i); |r.senders| == |s.senders| && r.senders[i].lastSeen == a.at
  {
    hide ObserveCandidate, Trimmed, ScaleDuration;
  }

  lemma SeenInTime(env: Env, s: Core, i: nat)
    requires i < |s.senders|
    ensures Inv(env, s) ==> s.senders[i].lastSeen <= s.lastEnd
  {
    hide ValidConfig, CandidateOk, Settled;
    if Inv(env, s) { assert SenderOk(env, s.senders[i], s.lastEnd); }
  }

  lemma ResumeSound(env: Env, s: Core)
    requires Sound(env, s)
    ensures Sound(env, PrepareResume(s)) && PrepareResume(s).recoveryUntil == s.recoveryUntil &&
            PrepareResume(s).lastEnd == s.lastEnd
    ensures PrepareResume(s).senders == s.senders
  {
    hide WiredSenders, SoundCandidate, Settled, ValidConfig;
  }
}
