/** Whole runs of the scheduler, across arrivals, blocks and restores: every skipped
    block is justified, and no block is skipped during a recovery. */
module SchedulerRuns {
  import opened SchedulerModel
  import opened SchedulerInvariant
  import opened SchedulerSound
  import opened Checkpoint
  import opened WatchdogVerdict

  /** What can happen to a scheduler.  `check` says whether the watchdogs' schedule had
      them looked at in the block.  Three events write a checkpoint and go on from it:
      under the same configuration, under another capture target, or promoted from
      shadow into gated mode.  The last restores a checkpoint of any origin. */
  datatype Event =
    | Block(start: int, end: int, check: bool)
    | Arrive(arrival: Arrival)
    | Resume
    | Restart(order: seq<nat>, names: seq<string>)
    | Retarget(order: seq<nat>, names: seq<string>, target: real)
    | Promote(order: seq<nat>, names: seq<string>)
    | Import(st: State, requalify: bool)

  function NextEnv(env: Env, e: Event): Env
  {
    match e
    case Retarget(_, _, target) => env.(cfg := env.cfg.(captureTarget := target))
    case Promote(_, _) => env.(cfg := env.cfg.(mode := Gated))
    case _ => env
  }

  /** The scheduler's own checkpoint, and one that a restore accepts. */
  ghost predicate Reads(env: Env, s: Core, order: seq<nat>, names: seq<string>, cfg: Config)
  {
    Writable(env, s, order, names) && Accepted(cfg, Export(env, s, order, names))
  }

  /** Anything goes that the program does not refuse: blocks and arrivals of any time,
      and every checkpoint that passes the checks. */
  ghost predicate Legal(env: Env, s: Core, e: Event)
  {
    match e
    case Restart(order, names) => Reads(env, s, order, names, env.cfg)
    case Retarget(order, names, target) =>
      0.0 < target < 1.0 && target + env.cfg.promotionMargin < 1.0 && Reads(env, s, order, names, NextEnv(env, e).cfg)
    case Promote(order, names) => env.cfg.mode == Shadow && Reads(env, s, order, names, NextEnv(env, e).cfg)
    case Import(st, _) => Accepted(env.cfg, st)
    case _ => true
  }

  ghost predicate Usable(s: Core)
  {
    Tightenable(s) && Consistent(s)
  }

  /** The state after one event, under `NextEnv`. */
  ghost function Next(env: Env, s: Core, e: Event): Core
    requires Usable(s) && Legal(env, s, e)
  {
    match e
    case Block(start, end, check) => AdvanceWith(env, s, start, end, check).0
    case Arrive(a) => Observe(env, s, a)
    case Resume => PrepareResume(s)
    case Restart(order, names) => Applied(env, Export(env, s, order, names))
    case Retarget(order, names, _) =>
      Requalified(NextEnv(env, e), Applied(NextEnv(env, e), Export(env, s, order, names)))
    case Promote(order, names) => Applied(NextEnv(env, e), Export(env, s, order, names))
    case Import(st, requalify) => if requalify then Requalified(env, Applied(env, st)) else Applied(env, st)
  }

  lemma ConfigKept(env: Env, s: Core, e: Event)
    requires ValidConfig(env.cfg) && Legal(env, s, e)
    ensures ValidConfig(NextEnv(env, e).cfg) && SameInventory(NextEnv(env, e).cfg, env.cfg)
    ensures NextEnv(env, e).cfg.recoveryDuration == env.cfg.recoveryDuration
  {
    hide Reads, Accepted, ValidCandidate;
  }

  /** Going on from a checkpoint keeps a recovery under way, and a gated scheduler
      begins another. */
  lemma ReadsSound(env: Env, s: Core, order: seq<nat>, names: seq<string>, env': Env)
    requires ValidConfig(env'.cfg) && Reads(env, s, order, names, env'.cfg) &&
             env'.cfg.recoveryDuration == env.cfg.recoveryDuration
    ensures |Export(env, s, order, names).candidates| == |env'.cfg.candidates|
    ensures var t := Applied(env', Export(env, s, order, names));
      && Sound(env', t) && Shape(env', t) && !AnyDue(t.candidates, t.lastEnd) && t.recoveryUntil >= s.recoveryUntil &&
         t.lastEnd == s.lastEnd
      && (env'.cfg.mode == Gated ==> t.recoveryUntil >= s.lastEnd + env.cfg.recoveryDuration)
  {
    hide SendersAccepted, ModelsAccepted, ProtocolsAccepted, CandidateAccepted, Applied, Writable, Sound, Shape,
         AnyDue, ValidConfig;
    RestoredSound(env', Export(env, s, order, names));
    SoundShape(env', Applied(env', Export(env, s, order, names)));
  }

  /** Every event keeps the smaller invariant, and only a foreign checkpoint can
      shorten a recovery. */
  lemma StepSound(env: Env, s: Core, e: Event)
    requires Sound(env, s) && Legal(env, s, e)
    ensures Usable(s) && Sound(NextEnv(env, e), Next(env, s, e))
    ensures !e.Import? ==> Next(env, s, e).recoveryUntil >= s.recoveryUntil
  {
    hide Sound, Shape, Writable, Accepted, Applied, Requalified, AdvanceWith, Observe, PrepareResume, ValidConfig,
         Tightenable, Consistent, AllSettled, AnyDue, AllRegular;
    SoundShape(env, s);
    SoundUsable(env, s);
    ShapeConfig(env, s);
    ConfigKept(env, s, e);
    match e
    case Block(start, end, check) => AdvanceSound(env, s, start, end, check);
    case Arrive(a) => ObserveSound(env, s, a);
    case Resume => ResumeSound(env, s);
    case Restart(order, names) => ReadsSound(env, s, order, names, env);
    case Retarget(order, names, _) =>
      ReadsSound(env, s, order, names, NextEnv(env, e));
      RequalifiedSound(NextEnv(env, e), Applied(NextEnv(env, e), Export(env, s, order, names)));
    case Promote(order, names) => ReadsSound(env, s, order, names, NextEnv(env, e));
    case Import(st, requalify) => ImportSound(env, st, requalify);
  }

  lemma ShapeConfig(env: Env, s: Core)
    requires Shape(env, s)
    ensures ValidConfig(env.cfg)
  {
  }

  lemma ImportSound(env: Env, st: State, requalify: bool)
    requires ValidConfig(env.cfg) && Accepted(env.cfg, st)
    ensures var t := if requalify then Requalified(env, Applied(env, st)) else Applied(env, st);
      && Sound(env, t) && !AnyDue(t.candidates, t.lastEnd)
      && (env.cfg.mode == Gated ==> t.recoveryUntil >= t.lastEnd + env.cfg.recoveryDuration)
  {
    hide SendersAccepted, ModelsAccepted, ProtocolsAccepted, CandidateAccepted, Applied, Requalified, Sound, Shape,
         AllSettled, AnyDue, ValidConfig;
    RestoredSound(env, st);
    SoundShape(env, Applied(env, st));
    RequalifiedSound(env, Applied(env, st));
  }

  // ---- runs

  ghost predicate LegalRun(env: Env, s: Core, es: seq<Event>)
    requires Sound(env, s)
    decreases |es|
  {
    es == [] ||
    (Legal(env, s, es[0]) && (StepSound(env, s, es[0]); LegalRun(NextEnv(env, es[0]), Next(env, s, es[0]), es[1..])))
  }

  ghost function After(env: Env, s: Core, es: seq<Event>): (Env, Core)
    requires Sound(env, s) && LegalRun(env, s, es)
    decreases |es|
  {
    if es == [] then (env, s)
    else StepSound(env, s, es[0]); After(NextEnv(env, es[0]), Next(env, s, es[0]), es[1..])
  }

  lemma {:induction false} RunSound(env: Env, s: Core, es: seq<Event>)
    requires Sound(env, s) && LegalRun(env, s, es)
    ensures var (env', t) := After(env, s, es);
      Sound(env', t) && ((forall i :: 0 <= i < |es| ==> !es[i].Import?) ==> t.recoveryUntil >= s.recoveryUntil)
    decreases |es|
  {
    hide Sound, Legal, Next, NextEnv;
    if es != [] {
      StepSound(env, s, es[0]);
      RunSound(NextEnv(env, es[0]), Next(env, s, es[0]), es[1..]);
    }
  }

  // ---- what a skip means

  /** For every sender the miss rate is, with the confidence asked for, low enough. */
  ghost predicate Captures(env: Env, models: seq<Model>, target: real)
  {
    forall j :: 0 <= j < |models| ==>
      && models[j].events > 0
      && env.num.upperMissBound(models[j].misses, models[j].events, 1.0 - env.cfg.confidence) <= 1.0 - target
  }

  /** Every sender's watchdog works: by configuration or by what it has learned. */
  ghost predicate Watched(senders: seq<Sender>)
  {
    forall i :: 0 <= i < |senders| ==>
      senders[i].watchdogLearned ||
      (senders[i].cfg.overdue > 0 && senders[i].cfg.countWindow > 0 && senders[i].cfg.minimumCount > 0)
  }

  /** Why a block may be skipped. */
  ghost predicate Justified(env: Env, s: Core, start: int, end: int)
  {
    && env.cfg.mode == Gated && end >= s.recoveryUntil && end >= s.refreshUntil && s.reanchorPending == {}
    && Watched(s.senders)
    && s.selected.Some? && s.selected.value < |s.candidates|
    && var c := s.candidates[s.selected.value];
       && c.qualified && !c.invalid && c.eligibleDuration > 0 && AllLearned(c.models)
       && Captures(env, c.models, env.cfg.captureTarget)
       && !Awake(c.models, start, end)
  }

  lemma CapturesIs(env: Env, c: Candidate)
    ensures QualifiesAt(env, c, AllLearned(c.models), env.cfg.captureTarget) <==>
            !c.invalid && c.eligibleDuration > 0 && AllLearned(c.models) &&
            Captures(env, c.models, env.cfg.captureTarget)
  {
    hide AllLearned;
  }

  lemma WatchedIs(senders: seq<Sender>)
    ensures WatchdogsReady(senders) <==> Watched(senders)
  {
  }

  lemma SkipNeedsSleep(env: Env, s: Core, end: int)
    requires s.selected.Some? ==> s.selected.value < |s.candidates|
    requires !Decide(env, s, end).1.decode
    ensures env.cfg.mode == Gated && s.selected.Some? && end >= s.recoveryUntil &&
            end >= Decide(env, s, end).0.refreshUntil
    ensures var c := s.candidates[s.selected.value]; c.lastEligible && !c.lastAwake
  {
    hide UnitOf, XorShift, AuditFraction, RefreshPeriod, StateOf, PlanRefresh;
    PlanFrame(env, s, end);
  }

  /** The scores say what the windows say. */
  ghost predicate ScoreAgrees(c: Candidate, start: int, end: int)
  {
    c.lastEligible == AllLearned(c.models) && c.lastAwake == (!c.lastEligible || Awake(c.models, start, end))
  }

  ghost predicate NoEvidence(c: Candidate)
  {
    forall j :: 0 <= j < |c.models| ==> c.models[j].events == 0
  }

  lemma DistrustedHasNoEvidence(env: Env, c: Candidate, skip: real, now: int)
    ensures Distrust(env, c, skip, now) == c || NoEvidence(Distrust(env, c, skip, now))
    ensures |Distrust(env, c, skip, now).models| == |c.models|
  {
    hide SteadySleep, ScaleDuration;
  }

  lemma CheckedCandidate(env: Env, s: Core, now: int, i: nat)
    requires (s.selected.Some? ==> s.selected.value < |s.candidates|) && i < |s.candidates|
    ensures var r := CheckWatchdogs(env, s, now);
      |r.candidates| == |s.candidates| && (r.candidates[i] == s.candidates[i] || NoEvidence(r.candidates[i])) &&
      |r.candidates[i].models| == |s.candidates[i].models|
  {
    hide PassOver, SteadySleep, Distrust, NoEvidence;
    if s.selected.Some? {
      DistrustedHasNoEvidence(env, s.candidates[i], SteadySleep(s.candidates[s.selected.value]), now);
    }
  }

  lemma RefreshedScore(env: Env, c: Candidate, now: int, start: int, end: int)
    ensures var r := RefreshCandidate(env, c, AllLearned(c.models), now);
      && r.models == c.models && (ScoreAgrees(c, start, end) ==> ScoreAgrees(r, start, end))
      && (NoEvidence(c) && c.models != [] ==> !r.qualified)
  {
    hide AllLearned, Awake;
    if NoEvidence(c) && c.models != [] {
      assert c.models[0].events == 0;
      assert forall target :: !MeetsBound(env, c.models, target);
    }
  }

  lemma BegunScores(env: Env, s: Core, start: int, end: int, i: nat)
    requires Tightenable(s)
    ensures var b := Begin(env, s, start, end); i < |b.candidates| ==> ScoreAgrees(b.candidates[i], start, end)
  {
    hide EndRefresh, ScoreAgrees, Awake, AllLearned, Score;
    var s1 := EndRefresh(env, s.(started := true, lastEnd := end), start);
    if i < |s1.candidates| { ScoreIsRight(s1.candidates[i], start, end); }
  }

  lemma ScoreIsRight(c: Candidate, start: int, end: int)
    ensures ScoreAgrees(Score(c, AllLearned(c.models), Awake(c.models, start, end), end - start).0, start, end)
  {
    hide AllLearned, Awake;
  }

  lemma SettledScores(env: Env, s: Core, start: int, end: int, check: bool, i: nat)
    requires Sound(env, s) && Tightenable(s) && Continues(s, start, end) && env.cfg.mode == Gated
    ensures var r := SettleWith(env, s, start, end, check);
      i < |r.candidates| && r.candidates[i].qualified ==> ScoreAgrees(r.candidates[i], start, end)
  {
    hide Sound, Shape, Begin, CheckWatchdogs, RefreshCandidate, ScoreAgrees, NoEvidence, AllLearned, WatchdogsReady,
         Tightenable;
    BeginSound(env, s, start, end);
    var b := Begin(env, s, start, end);
    InRange(env, b);
    var c := if check then CheckWatchdogs(env, b, end) else b;
    if i < |b.candidates| {
      BegunScores(env, s, start, end, i);
      CheckedCandidate(env, b, end, i);
      HasModels(env, b, i);
      RefreshedScore(env, c.candidates[i], end, start, end);
    } else {
      CheckSound(env, b, end);
      SameCount(env, b, c);
    }
  }

  lemma SameCount(env: Env, a: Core, b: Core)
    requires Shape(env, a) && Shape(env, b)
    ensures |a.candidates| == |b.candidates|
  {
  }

  lemma SettledMeaning(env: Env, s: Core, i: nat)
    requires AllSettled(env, s.candidates) && i < |s.candidates| && s.candidates[i].qualified
    ensures QualifiesAt(env, s.candidates[i], AllLearned(s.candidates[i].models), env.cfg.captureTarget)
  {
    hide QualifiesAt, AllLearned;
    assert Settled(env, s.candidates[i]);
  }

  /** A skipped block is a justified one. */
  lemma SkipIsJustified(env: Env, s: Core, start: int, end: int, check: bool)
    requires Sound(env, s) && Tightenable(s) && !AdvanceWith(env, s, start, end, check).1.decode
    ensures Justified(env, AdvanceWith(env, s, start, end, check).0, start, end)
  {
    hide Sound, Shape, SettleWith, Decide, QualifiesAt, AllLearned, AllSettled, Awake, WatchdogsReady, Tightenable,
         AnyDue, AllRegular, Captures, Watched;
    assert Continues(s, start, end);
    var r := SettleWith(env, s, start, end, check);
    SettleSound(env, s, start, end, check);
    SoundShape(env, r);
    InRange(env, r);
    SkipNeedsSleep(env, r, end);
    SettledScores(env, s, start, end, check, r.selected.value);
    DecideSound(env, r, end);
    SettledMeaning(env, r, r.selected.value);
    CapturesIs(env, r.candidates[r.selected.value]);
    WatchedIs(r.senders);
  }

  /** In every reachable state, also after restoring any accepted checkpoint, a skipped
      block is justified. */
  lemma SkipsAreJustified(env: Env, es: seq<Event>, start: int, end: int, check: bool)
    requires ValidConfig(env.cfg) && Sound(env, NewCore(env)) && LegalRun(env, NewCore(env), es)
    ensures var (env', s) := After(env, NewCore(env), es);
      Tightenable(s) &&
      (!AdvanceWith(env', s, start, end, check).1.decode ==>
       Justified(env', AdvanceWith(env', s, start, end, check).0, start, end))
  {
    hide Sound, LegalRun, After, Tightenable, AdvanceWith, Justified, Shape, AllSettled;
    RunSound(env, NewCore(env), es);
    var (env', s) := After(env, NewCore(env), es);
    SoundShape(env', s);
    SoundUsable(env', s);
    if !AdvanceWith(env', s, start, end, check).1.decode { SkipIsJustified(env', s, start, end, check); }
  }

  // ---- recoveries

  /** A candidate is selected, and no refresh period is over that was for it. */
  predicate StillSelected(s: Core, start: int)
  {
    s.selected.Some? && !(s.refreshUntil > 0 && start >= s.refreshUntil)
  }

  lemma BegunSelection(env: Env, s: Core, start: int, end: int)
    requires Tightenable(s)
    ensures Begin(env, s, start, end).selected == if StillSelected(s, start) then s.selected else None
  {
    hide TightenAfterRefresh, Scored;
  }

  /** What starts a recovery: a gap in the stream, an arrival out of order or under
      another protocol, an escape, a failed watchdog of a scheduler that sleeps, and
      any gated restore. */
  ghost predicate Alarms(env: Env, s: Core, e: Event)
    requires Usable(s)
  {
    match e
    case Block(start, end, check) =>
      !Continues(s, start, end) ||
      (check && env.cfg.mode == Gated && StillSelected(s, start) && end >= s.recoveryUntil &&
       Alarmed(env.cfg, s.senders, end))
    case Arrive(a) =>
      (match Admit(s, a)
       case Fault => true
       case Ignored => false
       case Taken(i) => Escapes(env, s, a))
    case Resume => false
    case Promote(_, _) => true
    case _ => env.cfg.mode == Gated
  }

  /** Every alarm starts a full recovery. */
  lemma AlarmRecovers(env: Env, s: Core, e: Event)
    requires Sound(env, s) && Usable(s) && Legal(env, s, e) && Alarms(env, s, e)
    ensures Next(env, s, e).recoveryUntil >= Next(env, s, e).lastEnd + env.cfg.recoveryDuration
  {
    hide Sound, Shape, Tightenable, Consistent, Applied, Requalified, Writable, Observe, CheckWatchdogs, Accepted,
         Begin, SettleWith, Decide, Discontinuity, AllSettled, Export, Escapes, AnyDue, AllRegular, ValidConfig,
         Alarmed;
    SoundShape(env, s);
    ShapeConfig(env, s);
    ConfigKept(env, s, e);
    match e
    case Block(start, end, check) =>
      if Continues(s, start, end) {
        BlockAlarm(env, s, start, end);
      } else {
        DiscontinuitySound(env, s, start, end);
      }
    case Arrive(a) => ObserveSound(env, s, a);
    case Restart(order, names) => ReadsSound(env, s, order, names, env);
    case Retarget(order, names, _) =>
      ReadsSound(env, s, order, names, NextEnv(env, e));
      RequalifiedSound(NextEnv(env, e), Applied(NextEnv(env, e), Export(env, s, order, names)));
    case Promote(order, names) => ReadsSound(env, s, order, names, NextEnv(env, e));
    case Import(st, requalify) => ImportSound(env, st, requalify);
    case Resume =>
  }

  lemma BlockAlarm(env: Env, s: Core, start: int, end: int)
    requires Sound(env, s) && Tightenable(s) && Continues(s, start, end)
    requires env.cfg.mode == Gated && StillSelected(s, start) && end >= s.recoveryUntil
    requires Alarmed(env.cfg, s.senders, end)
    ensures var r := Decide(env, SettleWith(env, s, start, end, true), end).0;
      r.recoveryUntil >= end + env.cfg.recoveryDuration && r.lastEnd == end
  {
    hide Sound, Shape, Tightenable, Begin, CheckWatchdogs, Decide, AllSettled, Refresh, Choose, AnyDue, AllRegular,
         Alarmed;
    BeginSound(env, s, start, end);
    BegunSelection(env, s, start, end);
    var b := Begin(env, s, start, end);
    InRange(env, b);
    CheckMeans(env, b, end);
    var c := CheckWatchdogs(env, b, end);
    CheckSound(env, b, end);
    RefreshAllSound(env, c, end);
    SoundShape(env, Refresh(env, c, end));
    ChooseSound(env, Refresh(env, c, end));
    DecideSound(env, SettleWith(env, s, start, end, true), end);
  }

  /** However the run goes on after an alarm, short of restoring some other checkpoint,
      nothing is skipped until a whole recovery duration has passed. */
  lemma NothingSkippedAfterAlarm(env: Env, s: Core, e: Event, es: seq<Event>, start: int, end: int, check: bool)
    requires Sound(env, s) && Usable(s) && Legal(env, s, e) && Alarms(env, s, e)
    requires Sound(NextEnv(env, e), Next(env, s, e)) && LegalRun(NextEnv(env, e), Next(env, s, e), es)
    requires forall i :: 0 <= i < |es| ==> !es[i].Import?
    ensures var (env', t) := After(NextEnv(env, e), Next(env, s, e), es);
      Tightenable(t) &&
      (end < Next(env, s, e).lastEnd + env.cfg.recoveryDuration ==> AdvanceWith(env', t, start, end, check).1.decode)
  {
    hide Sound, Shape, AllSettled, LegalRun, After, Tightenable, Consistent, AdvanceWith, Alarms, Next, Legal,
         NextEnv, AllRegular;
    AlarmRecovers(env, s, e);
    RunSound(NextEnv(env, e), Next(env, s, e), es);
    var (env', t) := After(NextEnv(env, e), Next(env, s, e), es);
    SoundShape(env', t);
    SoundUsable(env', t);
    if !AdvanceWith(env', t, start, end, check).1.decode {
      SkipIsJustified(env', t, start, end, check);
      AdvanceSound(env', t, start, end, check);
    }
  }

  // ---- a scheduler on its own

  /** Nothing from outside: arrivals of blocks that have been decided, no foreign
      checkpoint.  Records are then regular, and so the watchdogs' schedule shows
      no difference from checking them in every block. */
  predicate Own(s: Core, e: Event)
  {
    match e
    case Block(_, _, check) => check
    case Arrive(a) => a.at <= s.lastEnd
    case Import(_, _) => false
    case _ => true
  }

  ghost predicate OwnRun(env: Env, s: Core, es: seq<Event>)
    requires Sound(env, s) && LegalRun(env, s, es)
    decreases |es|
  {
    es == [] || (Own(s, es[0]) && (StepSound(env, s, es[0]); OwnRun(NextEnv(env, es[0]), Next(env, s, es[0]), es[1..])))
  }

  /** It always accepts the checkpoints it writes, also under another target or mode. */
  lemma OwnIsAccepted(env: Env, s: Core, order: seq<nat>, names: seq<string>, cfg: Config)
    requires Inv(env, s) && Writable(env, s, order, names) && SameInventory(cfg, env.cfg)
    ensures Reads(env, s, order, names, cfg)
  {
    hide Inv, Writable, Accepted, Export, SameInventory;
    ExportAccepted(env, s, order, names, cfg);
  }

  lemma RestoreKeeps(env: Env, s: Core, order: seq<nat>, names: seq<string>, env': Env)
    requires Inv(env, s) && Writable(env, s, order, names) && ConfigOk(env') && SameInventory(env'.cfg, env.cfg)
    ensures |Export(env, s, order, names).candidates| == |env'.cfg.candidates|
    ensures Inv(env', Applied(env', Export(env, s, order, names)))
  {
    hide Inv, Accepted, Coherent, Applied, Loaded, Writable, ConfigOk;
    ExportAccepted(env, s, order, names, env'.cfg);
    ExportShape(env, s, order, names);
    RestoredInv(env', Export(env, s, order, names));
  }

  /** On its own it keeps the larger invariant. */
  lemma StepKeeps(env: Env, s: Core, e: Event)
    requires Inv(env, s) && Usable(s) && Legal(env, s, e) && Own(s, e)
    ensures Inv(NextEnv(env, e), Next(env, s, e))
  {
    hide Inv, Writable, Accepted, Applied, Requalified, Advance, AdvanceWith, Observe, PrepareResume, Parts,
         AllSettled, ValidConfig, Tightenable, Consistent;
    InvIsParts(env, s);
    PartsConfig(env, s);
    ConfigKept(env, s, e);
    match e
    case Block(start, end, _) =>
      CheckedAdvance(env, s, start, end);
      AdvanceKeeps(env, s, start, end);
    case Arrive(a) => ObserveKeeps(env, s, a);
    case Resume => ResumeKeeps(env, s);
    case Restart(order, names) => RestoreKeeps(env, s, order, names, env);
    case Retarget(order, names, _) =>
      RestoreKeeps(env, s, order, names, NextEnv(env, e));
      RequalifiedKeeps(NextEnv(env, e), Applied(NextEnv(env, e), Export(env, s, order, names)));
    case Promote(order, names) => RestoreKeeps(env, s, order, names, NextEnv(env, e));
  }

  lemma PartsConfig(env: Env, s: Core)
    requires Parts(env, s)
    ensures ConfigOk(env)
  {
  }

  lemma {:induction false} RunKeeps(env: Env, s: Core, es: seq<Event>)
    requires Inv(env, s) && Sound(env, s) && LegalRun(env, s, es) && OwnRun(env, s, es)
    ensures var (env', t) := After(env, s, es); Inv(env', t)
    decreases |es|
  {
    hide Inv, Sound, Legal, Next, NextEnv, Own;
    if es != [] {
      StepSound(env, s, es[0]);
      StepKeeps(env, s, es[0]);
      RunKeeps(NextEnv(env, es[0]), Next(env, s, es[0]), es[1..]);
    }
  }

  // ---- punctual runs

  /** Every arrival is reported at the end of the last block. */
  ghost predicate Punctual(env: Env, s: Core, es: seq<Event>)
    requires Sound(env, s) && LegalRun(env, s, es)
    decreases |es|
  {
    es == [] ||
    ((es[0].Arrive? ==> es[0].arrival.at == s.lastEnd) &&
     (StepSound(env, s, es[0]); Punctual(NextEnv(env, es[0]), Next(env, s, es[0]), es[1..])))
  }

  ghost predicate NothingDue(s: Core)
  {
    !AnyDue(s.candidates, s.lastEnd)
  }

  lemma DiscontinuityDue(env: Env, s: Core, start: int, end: int)
    ensures NothingDue(Discontinuity(env, s, start, end).0)
  {
    hide StateOf;
  }

  lemma PunctualBlock(env: Env, s: Core, start: int, end: int, check: bool)
    requires Sound(env, s) && Tightenable(s)
    ensures NothingDue(AdvanceWith(env, s, start, end, check).0)
  {
    hide Sound, Shape, SettleWith, Decide, Discontinuity, AllSettled, AllRegular, AnyDue, Tightenable;
    if Continues(s, start, end) {
      SettleSound(env, s, start, end, check);
      SoundShape(env, SettleWith(env, s, start, end, check));
      DecideSound(env, SettleWith(env, s, start, end, check), end);
    } else {
      DiscontinuityDue(env, s, start, end);
    }
  }

  lemma PunctualArrival(env: Env, s: Core, a: Arrival)
    requires Sound(env, s) && Consistent(s) && a.at == s.lastEnd && NothingDue(s)
    ensures NothingDue(Observe(env, s, a))
  {
    hide Sound, Shape, AllSettled, TakeArrival, PunishEscape, Refresh, Choose, AnyDue, AllRegular;
    SoundShape(env, s);
    if Admit(s, a).Taken? {
      var i := Admit(s, a).i;
      TakeSound(env, s, a, i);
      var s1 := TakeArrival(env, s, a, i);
      InRange(env, s1);
      PunishSound(env, s1, a);
      var s2 := PunishEscape(env, s1, a);
      RefreshAllSound(env, s2, a.at);
      SoundShape(env, Refresh(env, s2, a.at));
      ChooseSound(env, Refresh(env, s2, a.at));
    }
  }

  lemma PunctualStep(env: Env, s: Core, e: Event)
    requires Sound(env, s) && Usable(s) && Legal(env, s, e) && NothingDue(s)
    requires e.Arrive? ==> e.arrival.at == s.lastEnd
    ensures NothingDue(Next(env, s, e))
  {
    hide Sound, Shape, Applied, Requalified, AdvanceWith, Observe, Writable, Export, Tightenable, Consistent, AnyDue,
         Accepted, AllSettled, ValidConfig;
    SoundShape(env, s);
    ShapeConfig(env, s);
    ConfigKept(env, s, e);
    match e
    case Block(start, end, check) => PunctualBlock(env, s, start, end, check);
    case Arrive(a) => PunctualArrival(env, s, a);
    case Resume =>
    case Restart(order, names) => ReadsSound(env, s, order, names, env);
    case Retarget(order, names, _) =>
      ReadsSound(env, s, order, names, NextEnv(env, e));
      RequalifiedSound(NextEnv(env, e), Applied(NextEnv(env, e), Export(env, s, order, names)));
    case Promote(order, names) => ReadsSound(env, s, order, names, NextEnv(env, e));
    case Import(st, requalify) => ImportSound(env, st, requalify);
  }

  lemma {:induction false} PunctualRun(env: Env, s: Core, es: seq<Event>)
    requires Sound(env, s) && LegalRun(env, s, es) && Punctual(env, s, es) && NothingDue(s)
    ensures NothingDue(After(env, s, es).1)
    decreases |es|
  {
    hide Sound, Legal, Next, NextEnv, NothingDue;
    if es != [] {
      StepSound(env, s, es[0]);
      PunctualStep(env, s, es[0]);
      PunctualRun(NextEnv(env, es[0]), Next(env, s, es[0]), es[1..]);
    }
  }

  /** A scheduler that is not gated and whose arrivals are reported punctually writes,
      after being restored from its checkpoint at any time, the very same checkpoint. */
  lemma ShadowCheckpointsRepeat(env: Env, es: seq<Event>, order: seq<nat>, names: seq<string>)
    requires ConfigOk(env) && Sound(env, NewCore(env))
    requires LegalRun(env, NewCore(env), es) && OwnRun(env, NewCore(env), es) && Punctual(env, NewCore(env), es)
    requires var (env', s) := After(env, NewCore(env), es); env'.cfg.mode != Gated && Writable(env', s, order, names)
    ensures var (env', s) := After(env, NewCore(env), es); var st := Export(env', s, order, names);
      && Accepted(env'.cfg, st)
      && Writable(env', Applied(env', st), order, names)
      && Export(env', Applied(env', st), order, names) == st
  {
    hide Inv, Sound, LegalRun, OwnRun, Punctual, After, Writable, Export, Applied, Accepted, Coherent, Loaded, AnyDue;
    NewKeeps(env);
    assert NothingDue(NewCore(env)) by { NewIsQuiet(env); }
    PunctualRun(env, NewCore(env), es);
    RunKeeps(env, NewCore(env), es);
    var (env', s) := After(env, NewCore(env), es);
    ExportAccepted(env', s, order, names, env'.cfg);
    RestoreIsIdentity(env', s, order, names);
  }

  lemma NewIsQuiet(env: Env)
    ensures !AnyDue(NewCore(env).candidates, NewCore(env).lastEnd)
  {
  }
}
