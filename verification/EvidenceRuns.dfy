/** Over whole runs: a candidate's times are those of the blocks put down, and its events
    and misses those of the arrivals. */
module EvidenceRuns {
  import opened SchedulerModel
  import opened SchedulerInvariant
  import opened SchedulerSound
  import opened SchedulerEvidence
  import opened SchedulerRuns
  import opened WatchdogVerdict

  /** Blocks that continue the stream, arrivals and resumes. */
  ghost predicate Unbroken(env: Env, s: Core, es: seq<Event>)
    requires Sound(env, s) && LegalRun(env, s, es)
    decreases |es|
  {
    es == [] ||
    (&& (es[0].Block? || es[0].Arrive? || es[0].Resume?)
     && (es[0].Block? ==> Continues(s, es[0].start, es[0].end))
     && (StepSound(env, s, es[0]); Unbroken(env, Next(env, s, es[0]), es[1..])))
  }

  /** Time in total, not asleep, eligible, and eligible and awake. */
  datatype Times = Times(total: int, notAsleep: int, eligible: int, awake: int)

  function Plus(a: Times, b: Times): Times
  {
    Times(a.total + b.total, a.notAsleep + b.notAsleep, a.eligible + b.eligible, a.awake + b.awake)
  }

  /** One block, judged by the models of the moment. */
  ghost function BlockTimes(models: seq<Model>, start: int, end: int): Times
  {
    var length := end - start;
    if !AllLearned(models) then Times(length, length, 0, 0)
    else if Awake(models, start, end) then Times(length, length, length, length)
    else Times(length, 0, length, 0)
  }

  /** All blocks of a run. */
  ghost function RunTimes(env: Env, s: Core, es: seq<Event>, k: nat): Times
    requires Sound(env, s) && LegalRun(env, s, es) && k < |s.candidates|
    decreases |es|
  {
    if es == [] then Times(0, 0, 0, 0)
    else
      StepSound(env, s, es[0]);
      SameCandidates(env, s, es[0]);
      Plus(if es[0].Block? then BlockTimes(ModelsAt(env, s, es[0].start, k), es[0].start, es[0].end)
           else Times(0, 0, 0, 0),
           RunTimes(NextEnv(env, es[0]), Next(env, s, es[0]), es[1..], k))
  }

  lemma SameCandidates(env: Env, s: Core, e: Event)
    requires Sound(env, s) && Legal(env, s, e)
    ensures Usable(s) && |Next(env, s, e).candidates| == |s.candidates|
  {
    hide Legal, Next, Usable, Shape, AllSettled;
    StepSound(env, s, e);
    SoundShape(env, s);
    SoundShape(NextEnv(env, e), Next(env, s, e));
    CandidateCount(env, s);
    CandidateCount(NextEnv(env, e), Next(env, s, e));
  }

  lemma CandidateCount(env: Env, s: Core)
    requires Shape(env, s)
    ensures |s.candidates| == |env.cfg.candidates|
  {
    hide ValidConfig, WiredSenders, SoundCandidate;
  }

  function TimesOf(c: Candidate): Times
  {
    Times(c.totalDuration, c.totalAwake, c.eligibleDuration, c.awakeDuration)
  }

  lemma StepTimes(env: Env, s: Core, e: Event, k: nat)
    requires Sound(env, s) && Legal(env, s, e) && Usable(s) && k < |s.candidates|
    requires (e.Block? && Continues(s, e.start, e.end)) || e.Arrive? || e.Resume?
    ensures |Next(env, s, e).candidates| == |s.candidates|
    ensures TimesOf(Next(env, s, e).candidates[k]) ==
            Plus(TimesOf(s.candidates[k]),
                 if e.Block? then BlockTimes(ModelsAt(env, s, e.start, k), e.start, e.end) else Times(0, 0, 0, 0))
  {
    hide Sound, Shape, AllSettled, AdvanceWith, Observe, AllLearned, Awake, Verdicts, EndRefresh;
    SameCandidates(env, s, e);
    SoundShape(env, s);
    match e
    case Block(start, end, check) => BlockPutsDown(env, s, start, end, check, k);
    case Arrive(a) => ArrivalStep(env, s, a, k);
    case Resume =>
  }

  lemma ArrivalStep(env: Env, s: Core, a: Arrival, k: nat)
    requires Shape(env, s) && Consistent(s) && k < |s.candidates|
    ensures |Observe(env, s, a).candidates| == |s.candidates|
    ensures var c, d := s.candidates[k], Observe(env, s, a).candidates[k];
      && SameTimes(c, d)
      && (Admit(s, a).Taken? ==>
            Counted(c, d, Admit(s, a).i, a.id in s.reanchorPending, c.lastEligible, !c.lastAwake))
      && (!Admit(s, a).Taken? ==> d == c)
  {
    hide Observe, Shape, Sound, AllLearned, Awake;
    OthersCountNothing(env, s, a);
    if Admit(s, a).Taken? { ArrivalCountsFlags(env, s, a, Admit(s, a).i, k); }
  }

  /** Over any unbroken run the times are those of its blocks; so the time slept is what
      the scheduler takes it for. */
  lemma {:induction false} TimesAddUp(env: Env, s: Core, es: seq<Event>, k: nat)
    requires Sound(env, s) && LegalRun(env, s, es) && Unbroken(env, s, es) && k < |s.candidates|
    ensures |After(env, s, es).1.candidates| == |s.candidates|
    ensures TimesOf(After(env, s, es).1.candidates[k]) == Plus(TimesOf(s.candidates[k]), RunTimes(env, s, es, k))
    decreases |es|
  {
    hide Sound, Legal, Next, NextEnv, BlockTimes, ModelsAt, Plus, TimesOf, Tightenable, Consistent;
    if es != [] {
      StepSound(env, s, es[0]);
      SameCandidates(env, s, es[0]);
      SameEnv(env, es[0]);
      StepTimes(env, s, es[0], k);
      var s' := Next(env, s, es[0]);
      TimesAddUp(env, s', es[1..], k);
      PlusInOrder(TimesOf(s.candidates[k]),
                  if es[0].Block? then BlockTimes(ModelsAt(env, s, es[0].start, k), es[0].start, es[0].end)
                  else Times(0, 0, 0, 0),
                  RunTimes(env, s', es[1..], k));
    } else {
      PlusNothing(TimesOf(s.candidates[k]));
    }
  }

  lemma PlusInOrder(a: Times, b: Times, c: Times)
    ensures Plus(Plus(a, b), c) == Plus(a, Plus(b, c))
  {
  }

  lemma PlusNothing(a: Times)
    ensures Plus(a, Times(0, 0, 0, 0)) == a
  {
  }

  lemma SameEnv(env: Env, e: Event)
    requires e.Block? || e.Arrive? || e.Resume?
    ensures NextEnv(env, e) == env
  {
  }

  /** From a state with no eligible time behind it, steady sleep is the fraction of the
      eligible time that was slept. */
  lemma SteadySleepMeans(env: Env, s: Core, es: seq<Event>, k: nat)
    requires Sound(env, s) && LegalRun(env, s, es) && Unbroken(env, s, es) && k < |s.candidates|
    requires s.candidates[k].eligibleDuration == 0 == s.candidates[k].awakeDuration
    ensures |After(env, s, es).1.candidates| == |s.candidates|
    ensures var t, sleep := RunTimes(env, s, es, k), SteadySleep(After(env, s, es).1.candidates[k]);
      if t.eligible > 0 then sleep == (t.eligible - t.awake) as real / t.eligible as real else sleep == 0.0
  {
    hide RunTimes, LegalRun, Unbroken, After, Sound;
    TimesAddUp(env, s, es, k);
    var t := RunTimes(env, s, es, k);
    if t.eligible > 0 { Fraction(t.awake as real, t.eligible as real); }
  }

  lemma Fraction(a: real, b: real)
    requires b > 0.0
    ensures 1.0 - a / b == (b - a) / b
  {
    var q := a / b;
    assert q * b == a;
    assert (1.0 - q) * b == b - a;
    var y := (b - a) / b;
    assert y * b == b - a;
    Cancel(y, 1.0 - q, b);
    Cancel(1.0 - q, y, b);
  }

  // ---- events and misses

  /** Events and misses of sender `j` that a run puts down for candidate `k`; `eligible` and
      `asleep` say what the last block before it was. */
  ghost function Tally(env: Env, s: Core, es: seq<Event>, k: nat, j: nat, eligible: bool, asleep: bool): (nat, nat)
    requires Sound(env, s) && LegalRun(env, s, es) && k < |s.candidates|
    decreases |es|
  {
    if es == [] then (0, 0)
    else
      StepSound(env, s, es[0]);
      SameCandidates(env, s, es[0]);
      var env', s', rest := NextEnv(env, es[0]), Next(env, s, es[0]), es[1..];
      match es[0]
      case Block(start, end, _) =>
        var models := ModelsAt(env, s, start, k);
        Tally(env', s', rest, k, j, AllLearned(models), AllLearned(models) && !Awake(models, start, end))
      case Arrive(a) =>
        var (events, misses) := Tally(env', s', rest, k, j, eligible, asleep);
        var counts := Admit(s, a) == Taken(j) && a.id !in s.reanchorPending && eligible;
        (events + (if counts then 1 else 0), misses + (if counts && asleep then 1 else 0))
      case _ => Tally(env', s', rest, k, j, eligible, asleep)
  }

  /** What the candidate remembers of the last block. */
  ghost predicate Remembers(c: Candidate, eligible: bool, asleep: bool)
  {
    c.lastEligible == eligible && c.lastAwake == !(eligible && asleep)
  }

  /** One step: a new epoch leaves nothing, otherwise only the arrival's sender gains. */
  lemma StepTallies(env: Env, s: Core, e: Event, k: nat)
    requires Sound(env, s) && Legal(env, s, e) && Usable(s) && k < |s.candidates|
    requires (e.Block? && Continues(s, e.start, e.end)) || e.Arrive? || e.Resume?
    ensures |Next(env, s, e).candidates| == |s.candidates|
    ensures var c, d := s.candidates[k], Next(env, s, e).candidates[k];
      && c.epoch <= d.epoch && |d.models| == |c.models|
      && (e.Block? ==> Remembers(d, AllLearned(ModelsAt(env, s, e.start, k)),
                                 !Awake(ModelsAt(env, s, e.start, k), e.start, e.end)))
      && (e.Block? && d.epoch == c.epoch ==> SameCounts(c, d))
      && (e.Arrive? ==>
            && SameTimes(c, d)
            && (Admit(s, e.arrival).Taken? ==>
                  Counted(c, d, Admit(s, e.arrival).i, e.arrival.id in s.reanchorPending, c.lastEligible, !c.lastAwake))
            && (!Admit(s, e.arrival).Taken? ==> d == c))
      && (e.Resume? ==> d == c)
  {
    hide Sound, Shape, AllSettled, AdvanceWith, Observe, AllLearned, Awake, EndRefresh, ModelsAt;
    SameCandidates(env, s, e);
    SoundShape(env, s);
    match e
    case Block(start, end, check) =>
      BlockPutsDown(env, s, start, end, check, k);
      BlockCounts(env, s, start, end, check, k);
    case Arrive(a) =>
      ArrivalStep(env, s, a, k);
      ModelCounts(env, s, k);
      StepSound(env, s, e);
      SoundShape(env, Next(env, s, e));
      ModelCounts(env, Next(env, s, e), k);
    case Resume =>
  }

  lemma ModelCounts(env: Env, s: Core, k: nat)
    requires Shape(env, s) && k < |s.candidates|
    ensures |s.candidates[k].models| == |env.cfg.senders|
  {
    hide ValidConfig;
    assert SoundCandidate(env, s.candidates[k], k, |s.senders|);
  }

  /** In an unbroken run during which the candidate's count has not started anew, it has
      gained exactly the events and misses of the arrivals, each judged by the windows
      in force in the block it came with. */
  lemma {:induction false} TalliesAddUp(env: Env, s: Core, es: seq<Event>, k: nat, j: nat, eligible: bool, asleep: bool)
    requires Sound(env, s) && LegalRun(env, s, es) && Unbroken(env, s, es) && k < |s.candidates|
    requires j < |s.candidates[k].models| && Remembers(s.candidates[k], eligible, asleep)
    ensures |After(env, s, es).1.candidates| == |s.candidates|
    ensures var c, d := s.candidates[k], After(env, s, es).1.candidates[k];
      && c.epoch <= d.epoch && |d.models| == |c.models|
      && (d.epoch == c.epoch ==>
            var (events, misses) := Tally(env, s, es, k, j, eligible, asleep);
            d.models[j].events == c.models[j].events + events && d.models[j].misses == c.models[j].misses + misses)
    decreases |es|
  {
    hide Sound, Legal, Next, NextEnv, Tightenable, Consistent, ModelsAt, AllLearned, Awake, Admit;
    if es != [] {
      StepSound(env, s, es[0]);
      SameCandidates(env, s, es[0]);
      SameEnv(env, es[0]);
      StepTallies(env, s, es[0], k);
      var s' := Next(env, s, es[0]);
      match es[0]
      case Block(start, end, _) =>
        var models := ModelsAt(env, s, start, k);
        TalliesAddUp(env, s', es[1..], k, j, AllLearned(models), AllLearned(models) && !Awake(models, start, end));
      case Arrive(a) => TalliesAddUp(env, s', es[1..], k, j, eligible, asleep);
      case Resume => TalliesAddUp(env, s', es[1..], k, j, eligible, asleep);
    }
  }
}
