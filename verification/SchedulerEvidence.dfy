/** What the scheduler's evidence counts: time awake and asleep, events and misses. */
module SchedulerEvidence {
  import opened SchedulerModel
  import opened SchedulerInvariant
  import opened SchedulerSound
  import opened WatchdogVerdict
  import opened CadenceLearning

  // ---- blocks

  /** The times and the last block's verdicts are the same. */
  ghost predicate SameTimes(c: Candidate, d: Candidate)
  {
    && d.lastEligible == c.lastEligible && d.lastAwake == c.lastAwake
    && d.totalDuration == c.totalDuration && d.totalAwake == c.totalAwake
    && d.eligibleDuration == c.eligibleDuration && d.awakeDuration == c.awakeDuration
  }

  /** A block of the given length has been put down: eligible if every sender's cadence is
      learned, awake unless it is eligible and no window is open. */
  ghost predicate PutDown(c: Candidate, d: Candidate, models: seq<Model>, start: int, end: int)
  {
    var length := end - start;
    var asleep := AllLearned(models) && !Awake(models, start, end);
    && d.lastEligible == AllLearned(models) && d.lastAwake == !asleep
    && d.totalDuration == c.totalDuration + length
    && d.totalAwake == c.totalAwake + (if asleep then 0 else length)
    && d.eligibleDuration == c.eligibleDuration + (if AllLearned(models) then length else 0)
    && d.awakeDuration == c.awakeDuration + (if AllLearned(models) && !asleep then length else 0)
  }

  lemma ScoredPutsDown(c: Candidate, start: int, end: int)
    ensures PutDown(c, Scored(c, start, end), c.models, start, end)
  {
    hide AllLearned, Awake;
  }

  lemma DistrustSameTimes(env: Env, c: Candidate, skip: real, now: int)
    ensures SameTimes(c, Distrust(env, c, skip, now))
  {
    hide SteadySleep, ScaleDuration;
  }

  lemma TightenSameTimes(c: Candidate, now: int)
    requires 1.0 < c.cfg.wakeScaleStep
    ensures SameTimes(c, TightenAfterRefresh(c, now))
  {
    hide ScaleDuration;
  }

  lemma RefreshSameTimes(env: Env, c: Candidate, now: int)
    ensures SameTimes(c, RefreshCandidate(env, c, AllLearned(c.models), now))
  {
    hide AllLearned, QualifiesAt;
  }

  lemma CheckSameTimes(env: Env, s: Core, now: int, k: nat)
    requires (s.selected.Some? ==> s.selected.value < |s.candidates|) && k < |s.candidates|
    ensures var r := CheckWatchdogs(env, s, now);
      |r.candidates| == |s.candidates| && SameTimes(s.candidates[k], r.candidates[k])
  {
    hide PassOver, SteadySleep, Distrust;
    if s.selected.Some? {
      DistrustSameTimes(env, s.candidates[k], SteadySleep(s.candidates[s.selected.value]), now);
    }
  }

  /** The models candidate `k` goes by in a block that starts at `start`. */
  ghost function ModelsAt(env: Env, s: Core, start: int, k: nat): seq<Model>
    requires Tightenable(s) && k < |s.candidates|
  {
    EndRefresh(env, s, start).candidates[k].models
  }

  /** A candidate's models change at a block's start only if its refresh period is over;
      its windows then narrow as its scale does, and its evidence starts anew. */
  lemma ModelsAtMeans(env: Env, s: Core, start: int, k: nat)
    requires Tightenable(s) && k < |s.candidates|
    ensures var c, d := s.candidates[k], EndRefresh(env, s, start).candidates[k];
            var narrows := s.selected == Some(k) && 0 < s.refreshUntil <= start && c.wakeScale > 1.0;
      && SameTimes(c, d) && ModelsAt(env, s, start, k) == d.models
      && (!narrows ==> d == c) && (narrows ==> Tighter(c, d))
  {
    hide TightenAfterRefresh, Tighter, SameTimes;
    if s.selected == Some(k) {
      TightenMeans(s.candidates[k], start);
      TightenSameTimes(s.candidates[k], start);
    }
    SameTimesSelf(s.candidates[k]);
  }

  lemma SameTimesSelf(c: Candidate)
    ensures SameTimes(c, c)
  {
  }

  /** One step back to the plain scale, with the windows in proportion, and nothing counted
      that was counted with wider ones. */
  ghost predicate Tighter(c: Candidate, d: Candidate)
  {
    && 0.0 < c.wakeScale && !d.qualified && d.promotionReady == 0 && d.epoch == c.epoch + 1 && d.invalid == c.invalid
    && 1.0 <= d.wakeScale
    && (d.wakeScale * c.cfg.wakeScaleStep == c.wakeScale || (d.wakeScale == 1.0 && c.wakeScale < c.cfg.wakeScaleStep))
    && |d.models| == |c.models|
    && forall j :: 0 <= j < |c.models| ==> Narrowed(c.models[j], d.models[j], d.wakeScale / c.wakeScale)
  }

  lemma TightenMeans(c: Candidate, now: int)
    requires 1.0 < c.cfg.wakeScaleStep
    ensures var d := TightenAfterRefresh(c, now);
      if c.wakeScale > 1.0 then Tighter(c, d) && d.recoveryUntil == now else d == c
  {
    hide ScaleDuration, Tightened;
    if c.wakeScale > 1.0 { TightenedMeans(c.wakeScale, c.cfg.wakeScaleStep); }
  }

  ghost predicate Narrowed(m: Model, w: Model, ratio: real)
  {
    && w == m.(events := 0, misses := 0, preWake := w.preWake, postWake := w.postWake)
    && (m.learned ==> w.preWake == ScaleDuration(m.preWake, ratio) && w.postWake == ScaleDuration(m.postWake, ratio))
    && (!m.learned ==> w.preWake == m.preWake && w.postWake == m.postWake)
  }

  lemma TightenedMeans(scale: real, step: real)
    requires 1.0 < scale && 1.0 < step
    ensures var t := Tightened(scale, step); 1.0 <= t && (t * step == scale || (t == 1.0 && scale < step))
  {
    var q := scale / step;
    assert q * step == scale;
    if q < 1.0 {
      Sign(q - 1.0, step);
      assert (q - 1.0) * step == q * step - step;
    }
  }

  /** Every block that continues the stream is put down for every candidate, whether or not
      the watchdogs are looked at in it. */
  lemma BlockPutsDown(env: Env, s: Core, start: int, end: int, check: bool, k: nat)
    requires Sound(env, s) && Tightenable(s) && Continues(s, start, end) && k < |s.candidates|
    ensures var r := AdvanceWith(env, s, start, end, check).0;
      |r.candidates| == |s.candidates| &&
      PutDown(s.candidates[k], r.candidates[k], ModelsAt(env, s, start, k), start, end)
  {
    hide Sound, Shape, AllSettled, CheckWatchdogs, RefreshCandidate, Decide, AllRegular, AnyDue, Best, MaySelect,
         TightenAfterRefresh, Scored, PutDown;
    assert 1.0 < s.candidates[k].cfg.wakeScaleStep by { TightenableAt(s, k); }
    SameEndRefresh(env, s, start, end);
    var s1 := EndRefresh(env, s.(started := true, lastEnd := end), start);
    var c := s1.candidates[k];
    TightenSameTimes(s.candidates[k], start);
    assert SameTimes(s.candidates[k], c);
    ScoredPutsDown(c, start, end);
    BeginSound(env, s, start, end);
    var b := Begin(env, s, start, end);
    assert b.candidates[k] == Scored(c, start, end);
    InRange(env, b);
    CheckSameTimes(env, b, end, k);
    var w := if check then CheckWatchdogs(env, b, end) else b;
    RefreshSameTimes(env, w.candidates[k], end);
    SettleSound(env, s, start, end, check);
    SoundShape(env, SettleWith(env, s, start, end, check));
    DecideSound(env, SettleWith(env, s, start, end, check), end);
    PutDownSame(s.candidates[k], c, b.candidates[k], AdvanceWith(env, s, start, end, check).0.candidates[k], c.models,
                start, end);
  }

  lemma TightenableAt(s: Core, k: nat)
    requires Tightenable(s) && k < |s.candidates|
    ensures 1.0 < s.candidates[k].cfg.wakeScaleStep
  {
  }

  lemma SameEndRefresh(env: Env, s: Core, start: int, end: int)
    requires Tightenable(s)
    ensures var s0 := s.(started := true, lastEnd := end);
      Tightenable(s0) && EndRefresh(env, s0, start).candidates == EndRefresh(env, s, start).candidates &&
      |EndRefresh(env, s, start).candidates| == |s.candidates|
  {
    hide TightenAfterRefresh;
  }

  lemma PutDownSame(c0: Candidate, c: Candidate, d: Candidate, d0: Candidate, models: seq<Model>, start: int, end: int)
    requires SameTimes(c0, c) && PutDown(c, d, models, start, end) && SameTimes(d, d0)
    ensures PutDown(c0, d0, models, start, end)
  {
    hide AllLearned, Awake;
  }

  /** A block that does not continue the stream starts the times that count over. */
  lemma GapStartsOver(env: Env, s: Core, start: int, end: int, check: bool, k: nat)
    requires Tightenable(s) && !Continues(s, start, end) && k < |s.candidates|
    ensures var r := AdvanceWith(env, s, start, end, check).0;
      |r.candidates| == |s.candidates| &&
      var c, d := s.candidates[k], r.candidates[k];
      && d.eligibleDuration == 0 && d.awakeDuration == 0 && !d.lastEligible && d.lastAwake
      && d.totalDuration == c.totalDuration && d.totalAwake == c.totalAwake && d.epoch == c.epoch + 1
      && !d.invalid && !d.qualified && d.promotionReady == 0 && d.recoveryUntil == 0 && d.wakeScale == 1.0
      && d.cfg == c.cfg && |d.models| == |c.models| && forall j :: 0 <= j < |d.models| ==> d.models[j] == NEW_MODEL
  {
    hide StateOf;
  }

  // ---- arrivals

  /** The verdicts on the last block are those of these models. */
  ghost predicate Verdicts(c: Candidate, models: seq<Model>, start: int, end: int)
  {
    c.lastEligible == AllLearned(models) && c.lastAwake == !(AllLearned(models) && !Awake(models, start, end))
  }

  /** What an arrival of sender `i` puts down for one candidate: an event if the last block
      was one at which every cadence was learned, and a miss if in addition no window
      was open in it; an awaited arrival after a resume is neither.  With a change of
      cadence or an escape the count starts anew. */
  ghost predicate Counted(c: Candidate, d: Candidate, i: nat, awaited: bool, eligible: bool, asleep: bool)
  {
    && |d.models| == |c.models| && i < |c.models| && c.epoch <= d.epoch
    && (d.epoch == c.epoch ==>
          && (forall j :: 0 <= j < |c.models| && j != i ==> d.models[j] == c.models[j])
          && d.models[i].events == c.models[i].events + (if !awaited && eligible then 1 else 0)
          && d.models[i].misses == c.models[i].misses + (if !awaited && eligible && asleep then 1 else 0))
    && (d.epoch != c.epoch ==> forall j :: 0 <= j < |d.models| ==> d.models[j].events == 0 && d.models[j].misses == 0)
  }

  /** When the arrival makes the candidate start anew on its own account. */
  ghost predicate Changes(num: Numerics, c: Candidate, i: nat, a: Arrival)
    requires i < |c.models|
  {
    var m := c.models[i];
    Switches(m, a.protocol) || (Spaces(m, a.protocol, a.at) && Drifts(m, a.at - m.last, c.cfg))
  }

  /** What an arrival of sender `i` teaches the candidate's model of it. */
  function Taught(num: Numerics, c: Candidate, i: nat, a: Arrival, awaited: bool): Model
    requires i < |c.models|
  {
    if awaited then Reanchor(c.models[i], a.protocol, a.at)
    else ObserveModel(num, c.models[i], a.protocol, a.at, c.cfg, c.wakeScale).0
  }

  /** In the same epoch the model is what was taught; a new one, from the arrival on, has
      wider windows for every sender. */
  ghost predicate Follows(num: Numerics, c: Candidate, d: Candidate, i: nat, a: Arrival, awaited: bool)
  {
    && |d.models| == |c.models| && i < |c.models|
    && var m := Taught(num, c, i, a, awaited);
    if d.epoch == c.epoch then
      ButCounts(m, d.models[i]) && d.wakeScale == c.wakeScale
    else
      && Widened(m, d.models[i], c.cfg) && WiderScale(c, d) && d.recoveryUntil == a.at
      && forall j :: 0 <= j < |c.models| && j != i ==> Widened(c.models[j], d.models[j], c.cfg)
  }

  /** In the same epoch the model is what was taught. */
  ghost predicate Learns(num: Numerics, c: Candidate, d: Candidate, i: nat, a: Arrival, awaited: bool)
  {
    d.epoch == c.epoch ==>
      i < |c.models| && i < |d.models| && ButCounts(Taught(num, c, i, a, awaited), d.models[i])
  }

  lemma LearnsOn(num: Numerics, c: Candidate, d: Candidate, e: Candidate, i: nat, a: Arrival, awaited: bool)
    requires Follows(num, c, d, i, a, awaited) && c.epoch <= d.epoch && SameOrAnew(d, e)
    ensures Learns(num, c, e, i, a, awaited)
  {
    hide Taught, SameTimes, Widened, WiderScale;
  }

  lemma CountTaken(env: Env, c: Candidate, i: nat, a: Arrival, awaited: bool)
    requires i < |c.models|
    ensures var d := ObserveCandidate(env, c, i, a, awaited);
      && Counted(c, d, i, awaited, c.lastEligible, !c.lastAwake) && SameTimes(c, d)
      && (d.epoch == c.epoch <==> awaited || !Changes(env.num, c, i, a))
      && d.cfg == c.cfg && (d.epoch != c.epoch ==> d.epoch == c.epoch + 1 && !d.qualified && d.promotionReady == 0)
      && Follows(env.num, c, d, i, a, awaited)
  {
    hide ObserveModel, BeginNewEpoch, Drifts;
    var m := c.models[i];
    var misses := if c.lastAwake then m.misses else m.misses + 1;
    var m1 := if c.lastEligible then m.(events := m.events + 1, misses := misses) else m;
    ModelRemembers(env.num, m1, a.protocol, a.at, c.cfg, c.wakeScale);
    SameDrifts(m, m1, a.at - m.last, c.cfg);
    CountsApart(env.num, m, m1, a.protocol, a.at, c.cfg, c.wakeScale);
    EpochAnew(c.(models := c.models[i := ObserveModel(env.num, m1, a.protocol, a.at, c.cfg, c.wakeScale).0]), a.at);
  }

  lemma EpochAnew(c: Candidate, now: int)
    ensures var d := BeginNewEpoch(c, now, true);
      && d.epoch == c.epoch + 1 && !d.qualified && d.promotionReady == 0 && d.cfg == c.cfg && SameTimes(c, d)
      && d.recoveryUntil == now && WiderScale(c, d)
      && |d.models| == |c.models| && forall j :: 0 <= j < |c.models| ==> Widened(c.models[j], d.models[j], c.cfg)
  {
    hide ScaleDuration;
  }

  lemma SameDrifts(m: Model, m1: Model, delta: int, cfg: CandidateConfig)
    requires m1 == m.(events := m1.events, misses := m1.misses)
    ensures Drifts(m1, delta, cfg) == Drifts(m, delta, cfg)
  {
  }

  /** Arrivals that follow one another leave the last block's verdicts as they were, so each
      of them is counted by the windows that were in force in the block. */
  lemma ArrivalCounts(env: Env, s: Core, a: Arrival, i: nat, k: nat, models: seq<Model>, start: int, end: int)
    requires Shape(env, s) && Consistent(s) && Admit(s, a) == Taken(i) && k < |s.candidates|
    requires Verdicts(s.candidates[k], models, start, end)
    ensures var r := Observe(env, s, a);
      |r.candidates| == |s.candidates| &&
      var c, d := s.candidates[k], r.candidates[k];
      && Counted(c, d, i, a.id in s.reanchorPending, AllLearned(models), !Awake(models, start, end))
      && Learns(env.num, c, d, i, a, a.id in s.reanchorPending) && SameTimes(c, d) && Verdicts(d, models, start, end)
  {
    hide Shape, Observe, AllLearned, Awake, Learns;
    ArrivalCountsFlags(env, s, a, i, k);
  }

  ghost predicate SameOrAnew(c: Candidate, d: Candidate)
  {
    && |d.models| == |c.models| && SameTimes(c, d) && (d.epoch == c.epoch ==> d.models == c.models)
    && c.epoch <= d.epoch
    && (d.epoch != c.epoch ==> forall j :: 0 <= j < |d.models| ==> d.models[j].events == 0 && d.models[j].misses == 0)
  }

  lemma PunishCounts(env: Env, s: Core, a: Arrival, k: nat)
    requires (s.selected.Some? ==> s.selected.value < |s.candidates|) && k < |s.candidates|
    ensures |PunishEscape(env, s, a).candidates| == |s.candidates|
    ensures SameOrAnew(s.candidates[k], PunishEscape(env, s, a).candidates[k])
  {
    hide SteadySleep, Distrust;
    if s.selected.Some? {
      DistrustAnew(env, s.candidates[k], SteadySleep(s.candidates[s.selected.value]), a.at);
    }
  }

  lemma DistrustAnew(env: Env, c: Candidate, skip: real, now: int)
    ensures SameOrAnew(c, Distrust(env, c, skip, now))
  {
    hide SteadySleep, ScaleDuration;
  }

  lemma RefreshCounts(env: Env, c: Candidate, now: int)
    ensures var d := RefreshCandidate(env, c, AllLearned(c.models), now);
      d.models == c.models && d.epoch == c.epoch && SameTimes(c, d)
  {
    hide AllLearned, QualifiesAt;
  }

  lemma CountedOn(c: Candidate, d: Candidate, e: Candidate, i: nat, awaited: bool)
    requires Counted(c, d, i, awaited, c.lastEligible, !c.lastAwake) && SameOrAnew(d, e)
    ensures Counted(c, e, i, awaited, c.lastEligible, !c.lastAwake)
  {
  }

  /** Arrivals that are not taken, and a resume, count nothing. */
  lemma OthersCountNothing(env: Env, s: Core, a: Arrival)
    requires Consistent(s)
    ensures !Admit(s, a).Taken? ==> Observe(env, s, a).candidates == s.candidates
    ensures PrepareResume(s).candidates == s.candidates
  {
  }

  /** Between a block and the next all arrivals are judged by that block's windows: right
      after it, and, by `ArrivalCounts`, after each of them. */
  lemma BlockVerdicts(env: Env, s: Core, start: int, end: int, check: bool, k: nat)
    requires Sound(env, s) && Tightenable(s) && Continues(s, start, end) && k < |s.candidates|
    ensures var r := AdvanceWith(env, s, start, end, check).0;
      |r.candidates| == |s.candidates| && Verdicts(r.candidates[k], ModelsAt(env, s, start, k), start, end)
  {
    hide Sound, AdvanceWith, AllLearned, Awake, Tightenable, EndRefresh;
    BlockPutsDown(env, s, start, end, check, k);
  }

  /** The same, told from what the candidate remembers of the block. */
  lemma ArrivalCountsFlags(env: Env, s: Core, a: Arrival, i: nat, k: nat)
    requires Shape(env, s) && Consistent(s) && Admit(s, a) == Taken(i) && k < |s.candidates|
    ensures var r := Observe(env, s, a);
      |r.candidates| == |s.candidates| &&
      var c, d := s.candidates[k], r.candidates[k];
      && Counted(c, d, i, a.id in s.reanchorPending, c.lastEligible, !c.lastAwake) && SameTimes(c, d)
      && Learns(env.num, c, d, i, a, a.id in s.reanchorPending)
  {
    hide Shape, Observe, ObserveCandidate, RefreshCandidate, PunishEscape, TakeArrival, AllLearned, Counted, Changes,
         Follows, Learns, SameTimes;
    var c := s.candidates[k];
    var awaited := a.id in s.reanchorPending;
    CountTaken(env, c, i, a, awaited);
    TakenCandidate(env, s, a, i, k);
    var s1 := TakeArrival(env, s, a, i);
    PunishCounts(env, s1, a, k);
    var d, e := s1.candidates[k], PunishEscape(env, s1, a).candidates[k];
    RefreshCounts(env, e, a.at);
    CountedOn(c, d, e, i, awaited);
    CountedFollows(c, d, i, awaited);
    LearnsOn(env.num, c, d, e, i, a, awaited);
    RefreshedOn(env.num, c, d, e, RefreshCandidate(env, e, AllLearned(e.models), a.at), i, a, awaited);
  }

  lemma CountedFollows(c: Candidate, d: Candidate, i: nat, awaited: bool)
    requires Counted(c, d, i, awaited, c.lastEligible, !c.lastAwake)
    ensures c.epoch <= d.epoch
  {
  }

  /** The last step of an arrival changes no model. */
  lemma RefreshedOn(num: Numerics, c: Candidate, d: Candidate, e: Candidate, f: Candidate, i: nat, a: Arrival,
      awaited: bool)
    requires SameTimes(c, d) && SameTimes(d, e) && SameTimes(e, f) && f.models == e.models && f.epoch == e.epoch
    requires Counted(c, e, i, awaited, c.lastEligible, !c.lastAwake) && Learns(num, c, e, i, a, awaited)
    ensures Counted(c, f, i, awaited, c.lastEligible, !c.lastAwake) && Learns(num, c, f, i, a, awaited)
    ensures SameTimes(c, f)
  {
    hide Taught, ButCounts;
  }

  lemma TakenCandidate(env: Env, s: Core, a: Arrival, i: nat, k: nat)
    requires Shape(env, s) && Consistent(s) && Admit(s, a) == Taken(i) && k < |s.candidates|
    ensures var s1 := TakeArrival(env, s, a, i);
      && |s1.candidates| == |s.candidates| && (s1.selected.Some? ==> s1.selected.value < |s1.candidates|)
      && s1.candidates[k] == ObserveCandidate(env, s.candidates[k], i, a, a.id in s.reanchorPending)
      && var s2 := PunishEscape(env, s1, a); var r := Observe(env, s, a);
         && |s2.candidates| == |r.candidates| == |s.candidates|
         && r.candidates[k] == RefreshCandidate(env, s2.candidates[k], AllLearned(s2.candidates[k].models), a.at)
  {
    hide Shape, ObserveCandidate, RefreshCandidate, PunishEscape, CountArrival, ObserveSender, Best, MaySelect,
         AllLearned;
    TakeSound(env, s, a, i);
    InRange(env, TakeArrival(env, s, a, i));
    PunishCounts(env, TakeArrival(env, s, a, i), a, k);
    hide SameOrAnew;
  }

  /** Nobody has gained an event or a miss. */
  ghost predicate SameCounts(c: Candidate, d: Candidate)
  {
    && |d.models| == |c.models|
    && forall j :: 0 <= j < |c.models| ==>
         d.models[j].events == c.models[j].events && d.models[j].misses == c.models[j].misses
  }

  /** A block counts no arrivals. */
  lemma BlockCounts(env: Env, s: Core, start: int, end: int, check: bool, k: nat)
    requires Sound(env, s) && Tightenable(s) && Continues(s, start, end) && k < |s.candidates|
    ensures var r := AdvanceWith(env, s, start, end, check).0;
      |r.candidates| == |s.candidates| &&
      var c, d := s.candidates[k], r.candidates[k];
      c.epoch <= d.epoch && |d.models| == |c.models| && (d.epoch == c.epoch ==> SameCounts(c, d))
  {
    hide Sound, Shape, AllSettled, CheckWatchdogs, RefreshCandidate, Decide, AllRegular, AnyDue, Best, MaySelect,
         TightenAfterRefresh, Scored, SameTimes;
    SameEndRefresh(env, s, start, end);
    ModelsAtMeans(env, s, start, k);
    var c := EndRefresh(env, s.(started := true, lastEnd := end), start).candidates[k];
    ScoredCounts(c, start, end);
    BeginSound(env, s, start, end);
    var b := Begin(env, s, start, end);
    InRange(env, b);
    CheckCounts(env, b, end, k);
    var w := if check then CheckWatchdogs(env, b, end) else b;
    RefreshCounts(env, w.candidates[k], end);
    SettleSound(env, s, start, end, check);
    SoundShape(env, SettleWith(env, s, start, end, check));
    DecideSound(env, SettleWith(env, s, start, end, check), end);
  }

  lemma ScoredCounts(c: Candidate, start: int, end: int)
    ensures var d := Scored(c, start, end); d.models == c.models && d.epoch == c.epoch
  {
    hide AllLearned, Awake;
  }

  lemma CheckCounts(env: Env, s: Core, now: int, k: nat)
    requires (s.selected.Some? ==> s.selected.value < |s.candidates|) && k < |s.candidates|
    ensures var r := CheckWatchdogs(env, s, now);
      |r.candidates| == |s.candidates| && SameOrAnew(s.candidates[k], r.candidates[k])
  {
    hide PassOver, SteadySleep, Distrust;
    if s.selected.Some? { DistrustAnew(env, s.candidates[k], SteadySleep(s.candidates[s.selected.value]), now); }
  }
}
