/** A checkpoint field by field: what is written of a scheduler, what is read back, and
    that reading and writing again loses nothing. */
module CheckpointRecords {
  import opened SchedulerModel
  import opened SchedulerInvariant
  import opened SchedulerSound
  import opened SchedulerLaws
  import opened Checkpoint

  /** The record of a sender says what the sender is. */
  ghost predicate SenderIs(r: SenderState, s: Sender)
  {
    && r.id == s.cfg.id && r.protocol == s.protocol && r.seen == s.seen && r.lastSeen == s.lastSeen
    && r.observations == s.observations && r.total == s.total && r.gaps == s.gaps
    && r.overdueOpen == s.overdueOpen && r.deadlineDeficits == s.deadlineDeficits
    && r.countOpen == s.countOpen && r.countDeficits == s.countDeficits
    && r.watchdogLearned == s.watchdogLearned && r.learnedOverdue == s.learnedOverdue
    && r.learnedMinimumCount == s.learnedMinimumCount
    && r.obligationOpen == s.obligationOpen && r.obligationDue == s.obligationDue
    && r.obligationsOpened == s.obligationsOpened && r.obligationsClosed == s.obligationsClosed
    && r.obligationDeficits == s.obligationDeficits
  }

  ghost predicate ModelIs(r: ModelState, id: nat, m: Model)
  {
    && r.id == id && r.protocol == m.protocol && r.seen == m.seen && r.last == m.last && r.history == m.history
    && r.learned == m.learned && r.period == m.period && r.anchor == m.anchor
    && r.preWake == m.preWake && r.postWake == m.postWake && r.events == m.events && r.misses == m.misses
    && r.effectiveHistory == m.effectiveHistory && r.stableIntervals == m.stableIntervals
    && r.changePoints == m.changePoints
  }

  /** The record of a candidate, its models aside. */
  ghost predicate CandidateIs(r: CandidateState, c: Candidate)
  {
    && r.name == c.cfg.name && r.lastEligible == c.lastEligible && r.lastAwake == c.lastAwake
    && r.totalDuration == c.totalDuration && r.totalAwake == c.totalAwake
    && r.eligibleDuration == c.eligibleDuration && r.awakeDuration == c.awakeDuration
    && r.invalid == c.invalid && r.recoveryUntil == c.recoveryUntil
    && r.qualified == c.qualified && r.promotionReady == c.promotionReady
    && r.epoch == c.epoch && r.wakeScale == c.wakeScale
  }

  ghost predicate CoreIs(st: State, s: Core)
  {
    && st.started == s.started && st.lastEnd == s.lastEnd && st.recoveryUntil == s.recoveryUntil
    && st.deadlineDeficits == s.deadlineDeficits && st.countDeficits == s.countDeficits
    && st.discontinuities == s.discontinuities && st.rng == s.rng && st.refreshes == s.refreshes
    && st.refreshUntil == s.refreshUntil && st.nextRefresh == s.nextRefresh
  }

  // ---- writing

  /** Everything is written under its own name, in the order of the listings. */
  lemma ExportMeans(env: Env, s: Core, order: seq<nat>, names: seq<string>)
    requires Writable(env, s, order, names)
    ensures var st := Export(env, s, order, names); var n := |s.senders|;
      && st.config == env.cfg && CoreIs(st, s)
      && |st.senders| == n && (forall k :: 0 <= k < n ==> SenderIs(st.senders[k], s.senders[order[k]]))
      && |st.candidates| == |s.candidates|
      && (forall i :: 0 <= i < |s.candidates| ==> CandidateIs(st.candidates[i], s.candidates[i]))
      && (forall i :: 0 <= i < |s.candidates| ==> |st.candidates[i].models| == n)
      && (forall i, k :: 0 <= i < |s.candidates| && 0 <= k < n ==>
            ModelIs(st.candidates[i].models[k], env.cfg.senders[order[k]].id, s.candidates[i].models[order[k]]))
      && |st.protocols| == |names|
      && (forall k :: 0 <= k < |names| ==> st.protocols[k] == ProtocolState(names[k], s.protocols[names[k]]))
  {
  }

  // ---- reading

  lemma LoadedSender(cfg: SenderConfig, r: SenderState)
    requires r.id == cfg.id && 0 <= r.learnedMinimumCount
    ensures SenderIs(r, LoadSender(cfg, r)) && LoadSender(cfg, r).cfg == cfg
  {
  }

  lemma LoadedModel(r: ModelState)
    requires 0 <= r.effectiveHistory && 0 <= r.stableIntervals
    ensures ModelIs(r, r.id, LoadModel(r))
  {
  }

  /** Among as many different positions as there are, every one occurs. */
  lemma AllOccur(order: seq<nat>)
    requires forall k :: 0 <= k < |order| ==> order[k] < |order|
    requires forall j, k :: 0 <= j < k < |order| ==> order[j] != order[k]
    ensures forall i :: 0 <= i < |order| ==> i in order
  {
    UsedIs(order);
    BelowIs(|order|);
    SubsetIsAll(Used(order), Below(|order|));
  }

  ghost function Used(order: seq<nat>): set<nat>
  {
    if order == [] then {} else Used(order[..|order| - 1]) + {order[|order| - 1]}
  }

  lemma {:induction false} UsedIs(order: seq<nat>)
    requires forall j, k :: 0 <= j < k < |order| ==> order[j] != order[k]
    ensures |Used(order)| == |order| && forall i: nat :: i in Used(order) <==> i in order
  {
    if order != [] {
      var n := |order| - 1;
      UsedIs(order[..n]);
      assert order[n] !in order[..n];
    }
  }

  ghost function Below(n: nat): set<nat>
  {
    if n == 0 then {} else Below(n - 1) + {n - 1}
  }

  lemma {:induction false} BelowIs(n: nat)
    ensures |Below(n)| == n && forall i: nat :: i in Below(n) <==> i < n
  {
    if n > 0 { BelowIs(n - 1); }
  }

  lemma SubsetIsAll(a: set<nat>, b: set<nat>)
    requires a <= b && |a| == |b|
    ensures a == b
  {
    assert |b - a| == |b| - |a|;
  }

  /** The positions the listed identities belong to. */
  ghost function Positions(cfg: Config, ids: seq<nat>): (order: seq<nat>)
    ensures |order| == |ids|
    ensures forall k :: 0 <= k < |ids| && Index(cfg.senders, ids[k]).Some? ==>
              order[k] == Index(cfg.senders, ids[k]).value
  {
    seq(|ids|, k requires 0 <= k < |ids| => var i := Index(cfg.senders, ids[k]); if i.Some? then i.value else 0)
  }

  /** As many different configured identities as there are senders name each sender. */
  lemma PositionsOrder(cfg: Config, ids: seq<nat>)
    requires |ids| == |cfg.senders| && (forall k :: 0 <= k < |ids| ==> Configured(cfg, ids[k]))
    requires forall j, k :: 0 <= j < k < |ids| ==> ids[j] != ids[k]
    ensures Order(Positions(cfg, ids), |ids|)
    ensures forall k :: 0 <= k < |ids| ==> cfg.senders[Positions(cfg, ids)[k]].id == ids[k]
  {
    hide Configured, Index;
    forall k | 0 <= k < |ids| ensures Index(cfg.senders, ids[k]) == Some(Positions(cfg, ids)[k]) {
      ConfiguredIs(cfg, ids[k]);
    }
    AllOccur(Positions(cfg, ids));
  }

  ghost function SenderIds(ss: seq<SenderState>): (ids: seq<nat>)
    ensures |ids| == |ss| && forall k :: 0 <= k < |ss| ==> ids[k] == ss[k].id
  {
    seq(|ss|, k requires 0 <= k < |ss| => ss[k].id)
  }

  ghost function ModelIds(ms: seq<ModelState>): (ids: seq<nat>)
    ensures |ids| == |ms| && forall k :: 0 <= k < |ms| ==> ids[k] == ms[k].id
  {
    seq(|ms|, k requires 0 <= k < |ms| => ms[k].id)
  }

  /** Each record is read by the sender it names, and each sender has one. */
  lemma SendersRead(cfg: Config, ss: seq<SenderState>, lastEnd: int) returns (order: seq<nat>)
    requires DistinctIds(cfg.senders) && SendersAccepted(cfg, ss, lastEnd) && |ss| == |cfg.senders|
    ensures Order(order, |ss|)
    ensures var r := Fill(cfg.senders, NewSenders(cfg), SenderItems(cfg, ss));
      forall k :: 0 <= k < |ss| ==> SenderIs(ss[k], r[order[k]]) && r[order[k]].cfg == cfg.senders[order[k]]
  {
    hide Fill, LoadSender, Configured, SenderIs;
    order := Positions(cfg, SenderIds(ss));
    PositionsOrder(cfg, SenderIds(ss));
    forall k | 0 <= k < |ss|
      ensures var r := Fill(cfg.senders, NewSenders(cfg), SenderItems(cfg, ss));
        SenderIs(ss[k], r[order[k]]) && r[order[k]].cfg == cfg.senders[order[k]]
    {
      FillKeeps(cfg.senders, NewSenders(cfg), SenderItems(cfg, ss), k, order[k]);
      assert 0 <= ss[k].learnedMinimumCount;
      LoadedSender(cfg.senders[order[k]], ss[k]);
    }
  }

  lemma ModelsRead(cfg: Config, ms: seq<ModelState>, candidate: CandidateConfig, lastEnd: int) returns (order: seq<nat>)
    requires DistinctIds(cfg.senders) && ModelsAccepted(cfg, ms, candidate, lastEnd)
    ensures Order(order, |ms|)
    ensures var r := Fill(cfg.senders, NewModels(cfg), ModelItems(ms));
      forall k :: 0 <= k < |ms| ==> ModelIs(ms[k], cfg.senders[order[k]].id, r[order[k]])
  {
    hide Fill, LoadModel, Configured, ModelIs;
    order := Positions(cfg, ModelIds(ms));
    PositionsOrder(cfg, ModelIds(ms));
    forall k | 0 <= k < |ms|
      ensures ModelIs(ms[k], cfg.senders[order[k]].id, Fill(cfg.senders, NewModels(cfg), ModelItems(ms))[order[k]])
    {
      FillKeeps(cfg.senders, NewModels(cfg), ModelItems(ms), k, order[k]);
      assert 0 <= ms[k].effectiveHistory && 0 <= ms[k].stableIntervals;
      LoadedModel(ms[k]);
    }
  }

  /** The identities in the listing's order: of the senders and, candidate by candidate, of
      the models. */
  datatype Orders = Orders(senders: seq<nat>, models: seq<seq<nat>>)

  ghost predicate CandidateRead(cfg: Config, r: CandidateState, c: Candidate, order: seq<nat>)
  {
    && CandidateIs(r, c) && |r.models| == |c.models| == |cfg.senders| && Order(order, |r.models|)
    && forall k :: 0 <= k < |r.models| ==> ModelIs(r.models[k], cfg.senders[order[k]].id, c.models[order[k]])
  }

  ghost predicate SendersAre(ss: seq<SenderState>, senders: seq<Sender>, order: seq<nat>)
  {
    && |ss| == |senders| && Order(order, |ss|) && forall k :: 0 <= k < |ss| ==> SenderIs(ss[k], senders[order[k]])
  }

  ghost predicate ProtocolsAre(ps: seq<ProtocolState>, protocols: map<string, Totals>)
  {
    && (forall k :: 0 <= k < |ps| ==> ps[k].name in protocols && protocols[ps[k].name] == ps[k].totals)
    && forall name :: name in protocols ==> exists k :: 0 <= k < |ps| && ps[k].name == name
  }

  lemma CandidateIsRead(cfg: Config, r: CandidateState, candidate: CandidateConfig, lastEnd: int)
      returns (order: seq<nat>)
    requires DistinctIds(cfg.senders) && CandidateAccepted(r, candidate)
    requires ModelsAccepted(cfg, r.models, candidate, lastEnd)
    ensures CandidateRead(cfg, r, LoadCandidate(cfg, candidate, r), order)
  {
    hide Fill, ModelAccepted, Configured, ModelIs;
    order := ModelsRead(cfg, r.models, candidate, lastEnd);
  }

  /** Every accepted checkpoint is read field by field, each record by the sender it names,
      and no sender or model is left out; nothing is selected, quiet or awaited. */
  lemma LoadMeans(env: Env, st: State) returns (o: Orders)
    requires ValidConfig(env.cfg) && Accepted(env.cfg, st)
    ensures var s := Loaded(env.cfg, st);
      && CoreIs(st, s) && SendersAre(st.senders, s.senders, o.senders) && ProtocolsAre(st.protocols, s.protocols)
      && |o.models| == |st.candidates| == |s.candidates|
      && (forall i :: 0 <= i < |st.candidates| ==>
            CandidateRead(env.cfg, st.candidates[i], s.candidates[i], o.models[i]))
      && Wired(env, s) && s.selected == None && !s.quietActive && !s.auditActive && s.quietCandidate == ""
      && s.reanchorPending == {}
  {
    hide Fill, ValidConfig, SendersAccepted, ModelsAccepted, ProtocolsAccepted, CandidateAccepted, LoadProtocols,
         LoadCandidate, CandidateRead, Order, SenderIs;
    UniqueIds(env);
    var order := SendersRead(env.cfg, st.senders, st.lastEnd);
    ProtocolsLoaded(st.protocols);
    var models: seq<seq<nat>> := [];
    for i := 0 to |st.candidates|
      invariant |models| == i
      invariant forall j :: 0 <= j < i ==>
        CandidateRead(env.cfg, st.candidates[j], LoadCandidate(env.cfg, env.cfg.candidates[j], st.candidates[j]),
                      models[j])
    {
      var next := CandidateIsRead(env.cfg, st.candidates[i], env.cfg.candidates[i], st.lastEnd);
      models := models + [next];
    }
    o := Orders(order, models);
    LoadedWired(env, st);
  }

  lemma LoadedWired(env: Env, st: State)
    requires ValidConfig(env.cfg) && Accepted(env.cfg, st)
    ensures Wired(env, Loaded(env.cfg, st))
  {
    hide Loaded, SendersAccepted, ModelsAccepted, ProtocolsAccepted, CandidateAccepted;
    LoadedShape(env, st);
    ShapeWired(env, Loaded(env.cfg, st));
  }

  lemma ShapeWired(env: Env, s: Core)
    requires Shape(env, s)
    ensures Wired(env, s)
  {
  }

  /** Reading is the inverse of writing from this side, too: what was read of an accepted
      checkpoint can be written as the very same records. */
  lemma RecordsReread(env: Env, st: State) returns (o: Orders)
    requires ValidConfig(env.cfg) && Accepted(env.cfg, st)
    ensures var s := Loaded(env.cfg, st);
      && Order(o.senders, |s.senders|) && ExportSenders(s.senders, o.senders) == st.senders
      && |o.models| == |s.candidates| == |st.candidates|
      && (forall i :: 0 <= i < |s.candidates| ==>
            && Order(o.models[i], |s.candidates[i].models|) && |s.candidates[i].models| == |env.cfg.senders|
            && ExportCandidate(env.cfg, s.candidates[i], o.models[i]) == st.candidates[i])
  {
    hide Loaded, SendersAccepted, ModelsAccepted, ProtocolsAccepted, CandidateAccepted,
         SenderIs, ExportSender, ExportCandidate, CandidateRead, Wired;
    o := LoadMeans(env, st);
    var s := Loaded(env.cfg, st);
    forall k | 0 <= k < |st.senders| ensures st.senders[k] == ExportSender(s.senders[o.senders[k]]) {
      SameSender(st.senders[k], s.senders[o.senders[k]]);
    }
    forall i | 0 <= i < |s.candidates|
      ensures Order(o.models[i], |s.candidates[i].models|) && |s.candidates[i].models| == |env.cfg.senders|
      ensures ExportCandidate(env.cfg, s.candidates[i], o.models[i]) == st.candidates[i]
    {
      SameCandidate(env.cfg, st.candidates[i], s.candidates[i], o.models[i]);
    }
  }

  lemma SameSender(r: SenderState, s: Sender)
    requires SenderIs(r, s)
    ensures r == ExportSender(s)
  {
  }

  lemma SameModel(r: ModelState, id: nat, m: Model)
    requires ModelIs(r, id, m)
    ensures r == ExportModel(id, m)
  {
  }

  lemma SameCandidate(cfg: Config, r: CandidateState, c: Candidate, order: seq<nat>)
    requires CandidateRead(cfg, r, c, order)
    ensures Order(order, |c.models|) && |c.models| == |cfg.senders| && ExportCandidate(cfg, c, order) == r
  {
    hide ModelIs, ExportModel;
    forall k | 0 <= k < |r.models|
      ensures r.models[k] == ExportModel(cfg.senders[order[k]].id, c.models[order[k]])
    {
      SameModel(r.models[k], cfg.senders[order[k]].id, c.models[order[k]]);
    }
    assert ExportCandidate(cfg, c, order).models == r.models;
  }

  // ---- restoring

  /** A restore leaves what was read as it is, but for a gated scheduler's recovery and one
      refresh of every qualification. */
  lemma RestoreMeans(env: Env, st: State)
    requires ValidConfig(env.cfg) && Accepted(env.cfg, st)
    ensures var s, r := Loaded(env.cfg, st), Applied(env, st); var until := s.lastEnd + env.cfg.recoveryDuration;
      && r == s.(recoveryUntil := r.recoveryUntil, refreshUntil := r.refreshUntil, nextRefresh := r.nextRefresh,
                 selected := r.selected, candidates := r.candidates)
      && |r.candidates| == |s.candidates|
      && (forall i :: 0 <= i < |s.candidates| ==> Refreshed(env, s.candidates[i], r.candidates[i], s.lastEnd))
      && (env.cfg.mode == Gated ==>
            && r.recoveryUntil in {s.recoveryUntil, until} && r.recoveryUntil >= until
            && r.recoveryUntil >= s.recoveryUntil && r.refreshUntil == 0 && r.nextRefresh == 0)
      && (env.cfg.mode != Gated ==>
            && r.recoveryUntil == s.recoveryUntil && r.refreshUntil == s.refreshUntil
            && r.nextRefresh == s.nextRefresh)
      && (env.cfg.mode != Gated || 0 < env.cfg.recoveryDuration ==> r.selected == None)
  {
    hide Loaded, SendersAccepted, ModelsAccepted, ProtocolsAccepted, CandidateAccepted,
         Refreshed, RefreshCandidate, AllLearned, WatchdogsReady, Best, ValidConfig;
    var s := Loaded(env.cfg, st);
    LoadedSelectsNone(env, st);
    forall i | 0 <= i < |s.candidates|
      ensures Refreshed(env, s.candidates[i],
                RefreshCandidate(env, s.candidates[i], AllLearned(s.candidates[i].models), s.lastEnd), s.lastEnd)
    {
      RefreshMeans(env, s.candidates[i], s.lastEnd);
    }
  }

  lemma LoadedSelectsNone(env: Env, st: State)
    requires Accepted(env.cfg, st)
    ensures var s := Loaded(env.cfg, st);
      s.selected == None && !s.quietActive && !s.auditActive && s.quietCandidate == ""
  {
  }

  /** Another capture target: qualification starts over, and nothing else does. */
  lemma RequalifiedMeans(env: Env, s: Core)
    ensures var r := Requalified(env, s);
      && r == s.(candidates := r.candidates, selected := r.selected, quietActive := false, auditActive := false,
                 quietCandidate := "")
      && |r.candidates| == |s.candidates|
      && forall i :: 0 <= i < |s.candidates| ==>
           Refreshed(env, s.candidates[i].(qualified := false, promotionReady := 0), r.candidates[i], s.lastEnd)
  {
    hide Refreshed, RefreshCandidate, AllLearned, WatchdogsReady, Best;
    forall c | c in s.candidates
      ensures var d := c.(qualified := false, promotionReady := 0);
        Refreshed(env, d, RefreshCandidate(env, d, AllLearned(d.models), s.lastEnd), s.lastEnd)
    {
      RefreshMeans(env, c.(qualified := false, promotionReady := 0), s.lastEnd);
    }
  }
}
