/** What arrivals, gaps and refreshes do to the scheduler as a whole. */
module SchedulerLaws {
  import opened SchedulerModel
  import opened SchedulerInvariant
  import opened SchedulerSound
  import opened SchedulerEvidence
  import opened SchedulerRuns
  import opened WatchdogVerdict

  // ---- qualification

  ghost predicate Meets(env: Env, c: Candidate, target: real)
  {
    !c.invalid && c.eligibleDuration > 0 && AllLearned(c.models) && Captures(env, c.models, target)
  }

  /** A refresh: a candidate that lost trust regains it when its recovery is over; a
      qualified one stays so while it meets the target; another one has to meet the
      higher promotion target for a whole stability period first. */
  ghost predicate Refreshed(env: Env, c: Candidate, r: Candidate, now: int)
  {
    var cfg := env.cfg;
    && r == c.(invalid := r.invalid, qualified := r.qualified, promotionReady := r.promotionReady)
    && (r.invalid <==> c.invalid && now < c.recoveryUntil)
    && (c.qualified ==>
          (r.qualified <==> Meets(env, r, cfg.captureTarget)) &&
          r.promotionReady == (if r.qualified then c.promotionReady else 0))
    && (!c.qualified && !Meets(env, r, cfg.captureTarget + cfg.promotionMargin) ==>
          !r.qualified && r.promotionReady == 0)
    && (!c.qualified && Meets(env, r, cfg.captureTarget + cfg.promotionMargin) ==>
          && r.promotionReady == (if c.promotionReady == 0 then now + cfg.promotionStability else c.promotionReady)
          && (r.qualified <==> now >= r.promotionReady))
  }

  lemma RefreshMeans(env: Env, c: Candidate, now: int)
    ensures Refreshed(env, c, RefreshCandidate(env, c, AllLearned(c.models), now), now)
  {
    hide AllLearned;
    assert forall target :: MeetsBound(env, c.models, target) <==> Captures(env, c.models, target);
    hide MeetsBound, Captures;
  }

  // ---- a new scheduler

  /** A new scheduler knows nothing, trusts nobody and has counted nothing. */
  lemma NewMeans(env: Env)
    ensures var s, cfg := NewCore(env), env.cfg;
      && |s.senders| == |cfg.senders| && (forall i :: 0 <= i < |cfg.senders| ==> Unheard(s.senders[i], cfg.senders[i]))
      && |s.candidates| == |cfg.candidates|
      && (forall i :: 0 <= i < |cfg.candidates| ==> Unproved(s.candidates[i], cfg.candidates[i], |cfg.senders|))
      && s.selected == None && !s.quietActive && !s.auditActive && s.quietCandidate == "" && s.reanchorPending == {}
      && !s.started && s.lastEnd == 0 && s.recoveryUntil == 0 && s.refreshUntil == 0 && s.nextRefresh == 0
      && s.refreshes == 0 && s.deadlineDeficits == 0 && s.countDeficits == 0 && s.discontinuities == 0
      && s.protocols == map[] && s.rng != 0 && (cfg.randomSeed != 0 ==> s.rng == cfg.randomSeed)
  {
  }

  ghost predicate Unheard(s: Sender, cfg: SenderConfig)
  {
    && s.cfg == cfg && !s.seen && s.lastSeen == 0 && s.protocol == "" && s.observations == [] && s.gaps == []
    && !s.overdueOpen && !s.countOpen && !s.obligationOpen && s.obligationDue == 0
    && !s.watchdogLearned && s.learnedOverdue == 0 && s.learnedMinimumCount == 0
    && s.total == 0 && s.deadlineDeficits == 0 && s.countDeficits == 0
    && s.obligationsOpened == 0 && s.obligationsClosed == 0 && s.obligationDeficits == 0
  }

  ghost predicate Unproved(c: Candidate, cfg: CandidateConfig, senders: nat)
  {
    && c.cfg == cfg && |c.models| == senders && (forall j :: 0 <= j < senders ==> Blank(c.models[j]))
    && !c.lastEligible && !c.qualified && !c.invalid && c.promotionReady == 0 && c.recoveryUntil == 0
    && c.totalDuration == 0 && c.totalAwake == 0 && c.eligibleDuration == 0 && c.awakeDuration == 0
    && c.epoch == 1 && c.wakeScale == 1.0
  }

  ghost predicate Blank(m: Model)
  {
    && !m.seen && !m.learned && m.history == [] && m.events == 0 && m.misses == 0 && m.changePoints == 0
    && m.protocol == "" && m.last == 0 && m.effectiveHistory == 0 && m.stableIntervals == 0
  }

  // ---- admission

  ghost predicate Known(s: Core, id: nat, i: nat)
  {
    i < |s.senders| && s.senders[i].cfg.id == id
  }

  lemma {:induction false} FindIs(senders: seq<Sender>, id: nat, n: nat)
    requires n <= |senders|
    ensures Find(senders, id, n).None? <==> forall i :: 0 <= i < n ==> senders[i].cfg.id != id
  {
    if n > 0 { FindIs(senders, id, n - 1); }
  }

  lemma KnownOnce(env: Env, s: Core, id: nat, i: nat, j: nat)
    requires Shape(env, s) && Known(s, id, i) && Known(s, id, j)
    ensures i == j
  {
    hide SoundCandidates;
  }

  /** Whether an arrival is taken: its sender has to be known, and it has to be later than
      the last one and under the same protocol.  An earlier one or another protocol is
      a fault; everything else is ignored. */
  lemma AdmissionMeans(env: Env, s: Core, a: Arrival, i: nat)
    requires Shape(env, s)
    ensures (forall j :: 0 <= j < |s.senders| ==> s.senders[j].cfg.id != a.id) ==> Admit(s, a).Ignored?
    ensures Known(s, a.id, i) ==>
              var sender := s.senders[i];
              var late := 0 <= a.at && (sender.seen ==> sender.lastSeen < a.at);
              var same := sender.protocol == "" || sender.protocol == a.protocol;
              && (Admit(s, a) == Taken(i) <==> late && same)
              && (Admit(s, a).Fault? <==> (sender.seen && a.at < sender.lastSeen) || (late && !same))
  {
    hide SoundCandidates, ValidConfig;
    FindIs(s.senders, a.id, |s.senders|);
    var found := Find(s.senders, a.id, |s.senders|);
    if found.Some? && Known(s, a.id, i) { KnownOnce(env, s, a.id, i, found.value); }
  }

  // ---- arrivals

  /** Only the books of one protocol gain an observation. */
  ghost predicate Booked(before: map<string, Totals>, after: map<string, Totals>, protocol: string)
  {
    if protocol == "" then after == before
    else
      && after.Keys == before.Keys + {protocol}
      && (forall name :: name in before && name != protocol ==> after[name] == before[name])
      && after[protocol] == if protocol !in before then Totals(1, 0, 0, 0)
                            else before[protocol].(observations := before[protocol].observations + 1)
  }

  /** A scheduler that begins a recovery selects nobody and forgets what it was quiet for. */
  ghost predicate Recovering(env: Env, s: Core, r: Core, now: int)
  {
    && r.recoveryUntil in {s.recoveryUntil, now + env.cfg.recoveryDuration} && r.recoveryUntil >= s.recoveryUntil
    && r.recoveryUntil >= now + env.cfg.recoveryDuration
    && !r.quietActive && !r.auditActive && r.quietCandidate == "" && r.refreshUntil == 0 && r.nextRefresh == 0
  }

  /** A faulty arrival costs a recovery and nothing else; an ignored one costs nothing. */
  lemma NotTakenMeans(env: Env, s: Core, a: Arrival)
    requires Consistent(s)
    ensures Admit(s, a).Ignored? ==> Observe(env, s, a) == s
    ensures Admit(s, a).Fault? ==>
              var r := Observe(env, s, a);
              && r.selected == None && Recovering(env, s, r, s.lastEnd)
              && r == s.(recoveryUntil := r.recoveryUntil, selected := None, quietActive := false, auditActive := false,
                         quietCandidate := "", refreshUntil := 0, nextRefresh := 0)
  {
  }

  /** The arrival came while the scheduler was asleep, or in a block it had skipped. */
  predicate Escaped(env: Env, s: Core, a: Arrival)
    requires s.selected.Some? ==> s.selected.value < |s.candidates|
  {
    env.cfg.mode == Gated && s.selected.Some? &&
    (a.escaped || !(s.candidates[s.selected.value].lastEligible ==> s.candidates[s.selected.value].lastAwake))
  }

  /** An arrival that is taken: the sender's record, the books, what was awaited; an escape
      begins a recovery. */
  lemma TakenMeans(env: Env, s: Core, a: Arrival, i: nat)
    requires Shape(env, s) && Consistent(s) && Admit(s, a) == Taken(i)
    ensures var r := Observe(env, s, a); var awaited := a.id in s.reanchorPending;
      && (s.selected.Some? ==> s.selected.value < |s.candidates|)
      && r.senders == s.senders[i := ObserveSender(env, s.senders[i], a.protocol, a.at, awaited)]
      && Booked(s.protocols, r.protocols, a.protocol) && r.reanchorPending == s.reanchorPending - {a.id}
      && r.deadlineDeficits == s.deadlineDeficits && r.countDeficits == s.countDeficits
      && r.discontinuities == s.discontinuities && r.lastEnd == s.lastEnd && r.started == s.started && r.rng == s.rng
      && r.refreshes == s.refreshes && |r.candidates| == |s.candidates|
      && (Escaped(env, s, a) ==> Recovering(env, s, r, s.lastEnd))
      && (!Escaped(env, s, a) ==>
            && r.recoveryUntil == s.recoveryUntil && r.quietActive == s.quietActive && r.auditActive == s.auditActive
            && r.quietCandidate == s.quietCandidate
            && r.refreshUntil == s.refreshUntil && r.nextRefresh == s.nextRefresh)
  {
    hide Shape, ObserveCandidate, ObserveSender, Escapes, Escaped, PunishEscape, Booked, CountArrival, Refresh, Choose,
         Recovering, SameTimes;
    TakeSound(env, s, a, i);
    var s1 := TakeArrival(env, s, a, i);
    InRange(env, s);
    InRange(env, s1);
    PunishFrame(env, s1, a);
    ChoiceFrame(env, PunishEscape(env, s1, a), a.at);
    BookedOne(s.protocols, a.protocol);
    EscapedIs(env, s, a, i);
    RecoveringFrame(env, s, s1, PunishEscape(env, s1, a), Observe(env, s, a), s.lastEnd);
  }

  lemma BookedOne(protocols: map<string, Totals>, protocol: string)
    ensures Booked(protocols, CountArrival(protocols, protocol), protocol)
  {
  }

  lemma PunishFrame(env: Env, s: Core, a: Arrival)
    requires s.selected.Some? ==> s.selected.value < |s.candidates|
    ensures var r := PunishEscape(env, s, a);
      && |r.candidates| == |s.candidates|
      && r == s.(candidates := r.candidates, recoveryUntil := r.recoveryUntil, selected := r.selected,
                 quietActive := r.quietActive, auditActive := r.auditActive, quietCandidate := r.quietCandidate,
                 refreshUntil := r.refreshUntil, nextRefresh := r.nextRefresh)
      && (if Escapes(env, s, a) then Recovering(env, s, r, s.lastEnd) else r == s)
  {
    hide Distrust, SteadySleep, RecoverAtLeast;
    if Escapes(env, s, a) {
      RecoverFrame(env, s, SteadySleep(s.candidates[s.selected.value]), a.at);
    }
  }

  lemma ChoiceFrame(env: Env, s: Core, now: int)
    ensures var r := Choose(env, Refresh(env, s, now));
      |r.candidates| == |s.candidates| && r == s.(candidates := r.candidates, selected := r.selected)
  {
    hide MaySelect, Best, RefreshCandidate, AllLearned;
  }

  lemma EscapedIs(env: Env, s: Core, a: Arrival, i: nat)
    requires Shape(env, s) && Consistent(s) && i < |s.senders|
    requires s.selected.Some? ==> s.selected.value < |s.candidates|
    ensures Escapes(env, TakeArrival(env, s, a, i), a) <==> Escaped(env, s, a)
  {
    hide Shape, ObserveCandidate, ObserveSender, CountArrival;
    if s.selected.Some? {
      CountTaken(env, s.candidates[s.selected.value], i, a, a.id in s.reanchorPending);
      hide Counted, Changes, Follows;
    }
  }

  lemma RecoveringFrame(env: Env, s: Core, s1: Core, r1: Core, r: Core, now: int)
    requires s1.recoveryUntil == s.recoveryUntil && r == r1.(candidates := r.candidates, selected := r.selected)
    ensures Recovering(env, s1, r1, now) ==> Recovering(env, s, r, now)
  {
  }

  /** After an escape the candidate that slept, and every one that sleeps as much, is out for
      a whole recovery duration; no other is. */
  lemma EscapeMeans(env: Env, s: Core, a: Arrival, i: nat, k: nat)
    requires Shape(env, s) && Consistent(s) && Admit(s, a) == Taken(i) && k < |s.candidates|
    requires (s.selected.Some? ==> s.selected.value < |s.candidates|) && Escaped(env, s, a)
    requires 0 < env.cfg.recoveryDuration
    ensures |Observe(env, s, a).candidates| == |s.candidates|
    ensures var c, d := s.candidates[k], Observe(env, s, a).candidates[k];
      && (SteadySleep(c) >= SteadySleep(s.candidates[s.selected.value]) ==>
            && d.invalid && !d.qualified && d.recoveryUntil == a.at + env.cfg.recoveryDuration && c.epoch < d.epoch)
      && (SteadySleep(c) < SteadySleep(s.candidates[s.selected.value]) ==>
            (d.epoch == c.epoch ==> d.recoveryUntil == c.recoveryUntil) && (d.invalid ==> c.invalid))
  {
    hide Shape, ObserveCandidate, ObserveSender, AllLearned, QualifiesAt, Best, MaySelect, CountArrival, Counted,
         RefreshCandidate, Changes, Escapes, Follows;
    EscapedIs(env, s, a, i);
    TakeSound(env, s, a, i);
    var s1 := TakeArrival(env, s, a, i);
    InRange(env, s1);
    var awaited := a.id in s.reanchorPending;
    var z := s.selected.value;
    CountTaken(env, s.candidates[k], i, a, awaited);
    CountTaken(env, s.candidates[z], i, a, awaited);
    TakenTrust(env, s.candidates[k], i, a, awaited);
    SameSleep(s.candidates[k], s1.candidates[k]);
    SameSleep(s.candidates[z], s1.candidates[z]);
    hide SteadySleep;
    var skip := SteadySleep(s1.candidates[z]);
    DistrustMeans(env, s1.candidates[k], skip, a.at);
    hide Distrust;
    EpochCounted(s.candidates[k], s1.candidates[k], i, awaited);
    var d := Distrust(env, s1.candidates[k], skip, a.at);
    DistrustedOut(env, s1.candidates[k], d, a.at);
    StaysOut(env, d, a.at);
  }

  /** A refresh restores no trust before its time. */
  lemma StaysOut(env: Env, c: Candidate, now: int)
    ensures var r := RefreshCandidate(env, c, AllLearned(c.models), now);
      && r.epoch == c.epoch && r.recoveryUntil == c.recoveryUntil && (r.invalid ==> c.invalid)
      && (c.invalid && !c.qualified && now < c.recoveryUntil ==> r.invalid && !r.qualified)
  {
    hide AllLearned, MeetsBound;
  }

  lemma EpochCounted(c: Candidate, d: Candidate, i: nat, awaited: bool)
    ensures Counted(c, d, i, awaited, c.lastEligible, !c.lastAwake) ==> c.epoch <= d.epoch
  {
  }

  lemma DistrustedOut(env: Env, c: Candidate, d: Candidate, now: int)
    ensures Distrusted(env, c, d, now) ==>
              d.invalid && !d.qualified && d.recoveryUntil == now + env.cfg.recoveryDuration && d.epoch == c.epoch + 1
  {
  }

  lemma TakenTrust(env: Env, c: Candidate, i: nat, a: Arrival, awaited: bool)
    requires i < |c.models|
    ensures var d := ObserveCandidate(env, c, i, a, awaited);
      d.invalid == c.invalid && (d.epoch == c.epoch ==> d.recoveryUntil == c.recoveryUntil)
  {
    hide ObserveModel, ScaleDuration;
  }

  lemma SameSleep(c: Candidate, d: Candidate)
    requires SameTimes(c, d)
    ensures SteadySleep(d) == SteadySleep(c)
  {
  }

  // ---- gaps and resumes

  /** What a sender's record keeps across a gap in the stream: what was counted. */
  ghost predicate StartedOver(s: Sender, r: Sender)
  {
    r == NewSender(s.cfg).(total := s.total, deadlineDeficits := s.deadlineDeficits, countDeficits := s.countDeficits,
                           obligationsOpened := s.obligationsOpened, obligationsClosed := s.obligationsClosed,
                           obligationDeficits := s.obligationDeficits)
  }

  /** A block that does not continue the stream is decoded; all that was learned is gone, the
      books stay, and a recovery begins. */
  lemma GapMeans(env: Env, s: Core, start: int, end: int)
    ensures var (r, d) := Discontinuity(env, s, start, end);
      && d.decode && !d.audit && !d.refresh && d.selected == "" && d.state == StateOf(env, r)
      && r.lastEnd == (if start < end && 0 <= end then end else s.lastEnd) && r.started
      && r.discontinuities == s.discontinuities + 1 && r.selected == None && Recovering(env, s, r, r.lastEnd)
      && |r.senders| == |s.senders| && (forall i :: 0 <= i < |s.senders| ==> StartedOver(s.senders[i], r.senders[i]))
      && r == s.(lastEnd := r.lastEnd, started := true, discontinuities := r.discontinuities, selected := None,
                 recoveryUntil := r.recoveryUntil, quietActive := false, auditActive := false, quietCandidate := "",
                 refreshUntil := 0, nextRefresh := 0, senders := r.senders, candidates := r.candidates)
  {
    hide StateOf, ResetCandidate;
  }

  /** A resume awaits every sender that had been seen, and selects nobody until they are
      heard again. */
  lemma ResumeMeans(s: Core)
    ensures var r := PrepareResume(s);
      && (forall id: nat :: id in r.reanchorPending <==> exists i: nat :: Known(s, id, i) && s.senders[i].seen)
      && r == s.(reanchorPending := r.reanchorPending, selected := None, quietActive := false, auditActive := false,
                 quietCandidate := "")
  {
    var r := PrepareResume(s);
    forall id: nat ensures id in r.reanchorPending <==> exists i: nat :: Known(s, id, i) && s.senders[i].seen {
      if i: nat :| Known(s, id, i) && s.senders[i].seen { assert s.senders[i].cfg.id in r.reanchorPending; }
      if id in r.reanchorPending {
        var i: nat :| i < |s.senders| && s.senders[i].seen && s.senders[i].cfg.id == id;
        assert Known(s, id, i);
      }
    }
  }
}
