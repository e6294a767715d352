/** Checkpoints: the state a scheduler exports, the checks a restore makes, and what
    the restored scheduler is. */
module Checkpoint {
  import opened SchedulerModel
  import opened SchedulerInvariant
  import opened SchedulerSound
  import opened WakeCache
  import opened WatchdogSchedule
  import opened Scheduler

  datatype SenderState = SenderState(
    id: nat, protocol: string, lastSeen: int, seen: bool, observations: seq<int>, total: nat, overdueOpen: bool,
    countOpen: bool, deadlineDeficits: nat, countDeficits: nat, gaps: seq<int>, learnedOverdue: int,
    learnedMinimumCount: int, watchdogLearned: bool, obligationDue: int, obligationOpen: bool, obligationsOpened: nat,
    obligationsClosed: nat, obligationDeficits: nat)

  datatype ModelState = ModelState(
    id: nat, protocol: string, history: seq<int>, last: int, seen: bool, learned: bool, period: int, anchor: int,
    preWake: int, postWake: int, events: nat, misses: nat, effectiveHistory: int, stableIntervals: int,
    changePoints: nat)

  datatype CandidateState = CandidateState(
    name: string, lastEligible: bool, lastAwake: bool, totalDuration: int, totalAwake: int, eligibleDuration: int,
    awakeDuration: int, invalid: bool, qualified: bool, epoch: nat, wakeScale: real, promotionReady: int,
    recoveryUntil: int, models: seq<ModelState>)

  datatype ProtocolState = ProtocolState(name: string, totals: Totals)

  /** `config` stands for the configuration's fingerprint. */
  datatype State = State(
    config: Config, lastEnd: int, started: bool, recoveryUntil: int, deadlineDeficits: nat, countDeficits: nat,
    discontinuities: nat, refreshUntil: int, nextRefresh: int, refreshes: nat, rng: bv64,
    senders: seq<SenderState>, candidates: seq<CandidateState>, protocols: seq<ProtocolState>)

  // ---- exporting

  /** An order in which the senders are written: each of the `n` exactly once. */
  ghost predicate Order(order: seq<nat>, n: nat)
  {
    && |order| == n && (forall k :: 0 <= k < n ==> order[k] < n)
    && (forall j, k :: 0 <= j < k < n ==> order[j] != order[k]) && (forall i :: 0 <= i < n ==> i in order)
  }

  /** An order in which the protocols are written. */
  ghost predicate Listing(names: seq<string>, protocols: map<string, Totals>)
  {
    && (forall k :: 0 <= k < |names| ==> names[k] in protocols)
    && (forall j, k :: 0 <= j < k < |names| ==> names[j] != names[k]) && (forall p :: p in protocols ==> p in names)
  }

  function ExportSender(s: Sender): SenderState
  {
    SenderState(s.cfg.id, s.protocol, s.lastSeen, s.seen, s.observations, s.total, s.overdueOpen, s.countOpen,
                s.deadlineDeficits, s.countDeficits, s.gaps, s.learnedOverdue, s.learnedMinimumCount,
                s.watchdogLearned, s.obligationDue, s.obligationOpen, s.obligationsOpened, s.obligationsClosed,
                s.obligationDeficits)
  }

  function ExportModel(id: nat, m: Model): ModelState
  {
    ModelState(id, m.protocol, m.history, m.last, m.seen, m.learned, m.period, m.anchor, m.preWake, m.postWake,
               m.events, m.misses, m.effectiveHistory, m.stableIntervals, m.changePoints)
  }

  function ExportCandidate(cfg: Config, c: Candidate, order: seq<nat>): CandidateState
    requires forall k :: 0 <= k < |order| ==> order[k] < |cfg.senders| && order[k] < |c.models|
  {
    CandidateState(c.cfg.name, c.lastEligible, c.lastAwake, c.totalDuration, c.totalAwake, c.eligibleDuration,
                   c.awakeDuration, c.invalid, c.qualified, c.epoch, c.wakeScale, c.promotionReady, c.recoveryUntil,
                   seq(|order|, k requires 0 <= k < |order| =>
                         ExportModel(cfg.senders[order[k]].id, c.models[order[k]])))
  }

  function ExportSenders(senders: seq<Sender>, order: seq<nat>): (r: seq<SenderState>)
    requires forall k :: 0 <= k < |order| ==> order[k] < |senders|
    ensures |r| == |order| && forall k :: 0 <= k < |order| ==> r[k] == ExportSender(senders[order[k]])
  {
    seq(|order|, k requires 0 <= k < |order| => ExportSender(senders[order[k]]))
  }

  function ExportProtocols(protocols: map<string, Totals>, names: seq<string>): (r: seq<ProtocolState>)
    requires forall k :: 0 <= k < |names| ==> names[k] in protocols
    ensures |r| == |names| && forall k :: 0 <= k < |names| ==> r[k] == ProtocolState(names[k], protocols[names[k]])
  {
    seq(|names|, k requires 0 <= k < |names| => ProtocolState(names[k], protocols[names[k]]))
  }

  ghost predicate Writable(env: Env, s: Core, order: seq<nat>, names: seq<string>)
  {
    Wired(env, s) && Order(order, |s.senders|) && Listing(names, s.protocols)
  }

  ghost function Export(env: Env, s: Core, order: seq<nat>, names: seq<string>): State
    requires Writable(env, s, order, names)
  {
    State(env.cfg, s.lastEnd, s.started, s.recoveryUntil, s.deadlineDeficits, s.countDeficits, s.discontinuities,
          s.refreshUntil, s.nextRefresh, s.refreshes, s.rng,
          ExportSenders(s.senders, order),
          seq(|s.candidates|, i requires 0 <= i < |s.candidates| => ExportCandidate(env.cfg, s.candidates[i], order)),
          ExportProtocols(s.protocols, names))
  }

  // ---- what a restore checks

  predicate ClockAccepted(st: State)
  {
    0 <= st.lastEnd && 0 <= st.recoveryUntil && 0 <= st.refreshUntil && 0 <= st.nextRefresh &&
    (st.started || st.lastEnd == 0) && st.rng != 0
  }

  predicate SenderAccepted(cfg: Config, s: SenderState, lastEnd: int)
  {
    && 0 <= s.lastSeen && (s.seen ==> s.lastSeen <= lastEnd) && (!s.seen ==> s.lastSeen == 0 && s.protocol == "")
    && |s.observations| <= s.total && SortedUpTo(s.observations, lastEnd)
    && 0 <= s.learnedOverdue && 0 <= s.learnedMinimumCount && 0 <= s.obligationDue
    && s.obligationsClosed <= s.obligationsOpened && s.obligationDeficits <= s.obligationsOpened
    && |s.gaps| <= cfg.watchdogHistory && forall i :: 0 <= i < |s.gaps| ==> 0 < s.gaps[i]
  }

  predicate ModelAccepted(m: ModelState, cfg: CandidateConfig, lastEnd: int)
  {
    && 0 <= m.last <= lastEnd && 0 <= m.period && 0 <= m.anchor && 0 <= m.preWake && 0 <= m.postWake &&
       m.misses <= m.events
    && 0 <= m.effectiveHistory <= |m.history| <= cfg.historyLimit && 0 <= m.stableIntervals
    && (!m.seen ==> m.last == 0 && m.protocol == "" && !m.learned)
    && (forall i :: 0 <= i < |m.history| ==> 0 < m.history[i])
    && (m.learned ==>
          m.seen && 0 < m.period && cfg.warmupIntervals <= |m.history| && cfg.warmupIntervals <= m.effectiveHistory)
  }

  predicate CandidateAccepted(c: CandidateState, cfg: CandidateConfig)
  {
    && c.name == cfg.name
    && 0 <= c.totalDuration && 0 <= c.totalAwake <= c.totalDuration && 0 <= c.eligibleDuration <= c.totalDuration
    && 0 <= c.awakeDuration <= c.eligibleDuration
    && c.epoch != 0 && 1.0 <= c.wakeScale <= cfg.maxWakeScale && 0 <= c.promotionReady && 0 <= c.recoveryUntil
  }

  predicate Configured(cfg: Config, id: nat)
  {
    exists i :: 0 <= i < |cfg.senders| && cfg.senders[i].id == id
  }

  ghost predicate SendersAccepted(cfg: Config, ss: seq<SenderState>, lastEnd: int)
  {
    && (forall k :: 0 <= k < |ss| ==> Configured(cfg, ss[k].id) && SenderAccepted(cfg, ss[k], lastEnd))
    && forall j, k :: 0 <= j < k < |ss| ==> ss[j].id != ss[k].id
  }

  ghost predicate ModelsAccepted(cfg: Config, ms: seq<ModelState>, candidate: CandidateConfig, lastEnd: int)
  {
    && |ms| == |cfg.senders| &&
       (forall k :: 0 <= k < |ms| ==> Configured(cfg, ms[k].id) && ModelAccepted(ms[k], candidate, lastEnd))
    && forall j, k :: 0 <= j < k < |ms| ==> ms[j].id != ms[k].id
  }

  ghost predicate ProtocolsAccepted(ps: seq<ProtocolState>)
  {
    (forall k :: 0 <= k < |ps| ==> ps[k].name != "") && forall j, k :: 0 <= j < k < |ps| ==> ps[j].name != ps[k].name
  }

  ghost predicate Accepted(cfg: Config, st: State)
  {
    && ClockAccepted(st) && |st.senders| == |cfg.senders| && |st.candidates| == |cfg.candidates|
    && SendersAccepted(cfg, st.senders, st.lastEnd) && ProtocolsAccepted(st.protocols)
    && forall i :: 0 <= i < |st.candidates| ==>
         CandidateAccepted(st.candidates[i], cfg.candidates[i]) &&
         ModelsAccepted(cfg, st.candidates[i].models, cfg.candidates[i], st.lastEnd)
  }

  // ---- loading

  /** The sender the identity belongs to. */
  function Index(senders: seq<SenderConfig>, id: nat): (i: Option<nat>)
    ensures i.Some? ==> i.value < |senders| && senders[i.value].id == id
    ensures i.None? ==> forall j :: 0 <= j < |senders| ==> senders[j].id != id
  {
    if senders == [] then None
    else if senders[|senders| - 1].id == id then Some(|senders| - 1) else Index(senders[..|senders| - 1], id)
  }

  ghost predicate DistinctIds(senders: seq<SenderConfig>)
  {
    forall i, j :: 0 <= i < j < |senders| ==> senders[i].id != senders[j].id
  }

  /** Each item replaces the entry of the sender it names. */
  function Fill<T>(senders: seq<SenderConfig>, base: seq<T>, items: seq<(nat, T)>): (r: seq<T>)
    requires |base| == |senders|
    ensures |r| == |base|
  {
    if items == [] then base
    else
      var n := |items| - 1;
      var r := Fill(senders, base, items[..n]);
      var i := Index(senders, items[n].0);
      if i.None? then r else r[i.value := items[n].1]
  }

  ghost predicate DistinctItems<T>(items: seq<(nat, T)>)
  {
    forall j, k :: 0 <= j < k < |items| ==> items[j].0 != items[k].0
  }

  /** No item is lost: the sender it names ends up with it. */
  lemma {:induction false} FillKeeps<T>(senders: seq<SenderConfig>, base: seq<T>, items: seq<(nat, T)>, k: nat, i: nat)
    requires |base| == |senders| && DistinctIds(senders) && DistinctItems(items)
    requires k < |items| && i < |senders| && items[k].0 == senders[i].id
    ensures Fill(senders, base, items)[i] == items[k].1
  {
    var n := |items| - 1;
    var found := Index(senders, items[n].0);
    if k < n {
      assert items[..n][k] == items[k];
      FillKeeps(senders, base, items[..n], k, i);
    } else {
      assert found.value == i;
    }
  }

  /** Nothing is made up: an entry is an item of its own sender or what it was. */
  lemma {:induction false} FillAdds<T>(senders: seq<SenderConfig>, base: seq<T>, items: seq<(nat, T)>, i: nat)
    requires |base| == |senders| && i < |senders|
    ensures Fill(senders, base, items)[i] == base[i] ||
            exists k :: 0 <= k < |items| && items[k].0 == senders[i].id && items[k].1 == Fill(senders, base, items)[i]
  {
    if items != [] {
      var n := |items| - 1;
      FillAdds(senders, base, items[..n], i);
      if Fill(senders, base, items)[i] != base[i] &&
          Fill(senders, base, items)[i] == Fill(senders, base, items[..n])[i] {
        var k :| 0 <= k < n && items[..n][k].0 == senders[i].id &&
            items[..n][k].1 == Fill(senders, base, items[..n])[i];
        assert items[k] == items[..n][k];
      }
    }
  }

  /** Negative counts are refused before they are read. */
  function Natural(x: int): nat
  {
    if x < 0 then 0 else x
  }

  function ConfigOf(senders: seq<SenderConfig>, id: nat): SenderConfig
  {
    var i := Index(senders, id);
    if i.None? then SenderConfig(id, 0, 0, 0) else senders[i.value]
  }

  function LoadSender(cfg: SenderConfig, s: SenderState): Sender
  {
    Sender(cfg, s.protocol, s.lastSeen, s.seen, s.observations, s.total, s.overdueOpen, s.countOpen,
           s.deadlineDeficits, s.countDeficits, s.gaps, s.learnedOverdue, Natural(s.learnedMinimumCount),
           s.watchdogLearned, s.obligationDue, s.obligationOpen, s.obligationsOpened, s.obligationsClosed,
           s.obligationDeficits)
  }

  function LoadModel(m: ModelState): Model
  {
    Model(m.protocol, m.history, m.last, m.seen, m.learned, m.period, m.anchor, m.preWake, m.postWake, m.events,
          m.misses, Natural(m.effectiveHistory), Natural(m.stableIntervals), m.changePoints)
  }

  function SenderItems(cfg: Config, ss: seq<SenderState>): (r: seq<(nat, Sender)>)
    ensures |r| == |ss| && forall k :: 0 <= k < |ss| ==>
            r[k] == (ss[k].id, LoadSender(ConfigOf(cfg.senders, ss[k].id), ss[k]))
  {
    seq(|ss|, k requires 0 <= k < |ss| => (ss[k].id, LoadSender(ConfigOf(cfg.senders, ss[k].id), ss[k])))
  }

  function ModelItems(ms: seq<ModelState>): (r: seq<(nat, Model)>)
    ensures |r| == |ms| && forall k :: 0 <= k < |ms| ==> r[k] == (ms[k].id, LoadModel(ms[k]))
  {
    seq(|ms|, k requires 0 <= k < |ms| => (ms[k].id, LoadModel(ms[k])))
  }

  function NewSenders(cfg: Config): (r: seq<Sender>)
    ensures |r| == |cfg.senders| && forall i :: 0 <= i < |r| ==> r[i] == NewSender(cfg.senders[i])
  {
    seq(|cfg.senders|, i requires 0 <= i < |cfg.senders| => NewSender(cfg.senders[i]))
  }

  function NewModels(cfg: Config): (r: seq<Model>)
    ensures |r| == |cfg.senders| && forall i :: 0 <= i < |r| ==> r[i] == NEW_MODEL
  {
    seq(|cfg.senders|, _ => NEW_MODEL)
  }

  function LoadCandidate(cfg: Config, candidate: CandidateConfig, c: CandidateState): (r: Candidate)
    ensures |r.models| == |cfg.senders|
  {
    Candidate(candidate, Fill(cfg.senders, NewModels(cfg), ModelItems(c.models)), c.lastEligible, c.lastAwake,
              c.totalDuration, c.totalAwake, c.eligibleDuration, c.awakeDuration, c.invalid, c.qualified, c.epoch,
              c.wakeScale, c.promotionReady, c.recoveryUntil)
  }

  function LoadProtocols(ps: seq<ProtocolState>): map<string, Totals>
  {
    if ps == [] then map[]
    else LoadProtocols(ps[..|ps| - 1])[ps[|ps| - 1].name := ps[|ps| - 1].totals]
  }

  function LoadCandidates(cfg: Config, cs: seq<CandidateState>): (r: seq<Candidate>)
    requires |cs| <= |cfg.candidates|
    ensures |r| == |cs| && forall i :: 0 <= i < |cs| ==> r[i] == LoadCandidate(cfg, cfg.candidates[i], cs[i])
  {
    seq(|cs|, i requires 0 <= i < |cs| => LoadCandidate(cfg, cfg.candidates[i], cs[i]))
  }

  /** The fields as they are read. */
  ghost function Loaded(cfg: Config, st: State): Core
    requires |st.candidates| == |cfg.candidates|
  {
    Core(LoadCandidates(cfg, st.candidates), Fill(cfg.senders, NewSenders(cfg), SenderItems(cfg, st.senders)), None,
         st.lastEnd, st.started, st.recoveryUntil, st.deadlineDeficits, st.countDeficits, st.discontinuities, st.rng,
         false, false, "", st.refreshUntil, st.nextRefresh, st.refreshes, LoadProtocols(st.protocols), {})
  }

  /** A gated restore begins with a recovery; qualifications are refreshed at once. */
  ghost function Applied(env: Env, st: State): Core
    requires |st.candidates| == |env.cfg.candidates|
  {
    var s := Loaded(env.cfg, st);
    Choose(env, Refresh(env, if env.cfg.mode == Gated then EnterRecovery(env, s, s.lastEnd) else s, s.lastEnd))
  }

  // ---- the restore itself

  method ObservationsAccepted(observations: seq<int>, lastEnd: int) returns (ok: bool)
    ensures ok <==> SortedUpTo(observations, lastEnd)
  {
    var previous := -1;
    for k := 0 to |observations|
      invariant SortedUpTo(observations[..k], lastEnd)
      invariant previous == if k == 0 then -1 else observations[k - 1]
    {
      var observed := observations[k];
      if observed < 0 || observed <= previous || observed > lastEnd { return false; }
      previous := observed;
    }
    ok := true;
    assert observations[..|observations|] == observations;
  }

  lemma NoItems<T>(senders: seq<SenderConfig>, base: seq<T>, items: seq<(nat, T)>)
    requires |base| == |senders| && items == []
    ensures Fill(senders, base, items) == base
  {
  }

  /** One more sender read. */
  lemma OneSender(cfg: Config, ss: seq<SenderState>, k: nat, i: nat)
    requires k < |ss| && Index(cfg.senders, ss[k].id) == Some(i)
    ensures Fill(cfg.senders, NewSenders(cfg), SenderItems(cfg, ss[..k + 1]))
         == Fill(cfg.senders, NewSenders(cfg), SenderItems(cfg, ss[..k]))[i := LoadSender(cfg.senders[i], ss[k])]
  {
    hide LoadSender;
    assert SenderItems(cfg, ss[..k + 1])[..k] == SenderItems(cfg, ss[..k]);
  }

  /** One more model read. */
  lemma OneModel(cfg: Config, ms: seq<ModelState>, k: nat, i: nat)
    requires k < |ms| && Index(cfg.senders, ms[k].id) == Some(i)
    ensures Fill(cfg.senders, NewModels(cfg), ModelItems(ms[..k + 1]))
         == Fill(cfg.senders, NewModels(cfg), ModelItems(ms[..k]))[i := LoadModel(ms[k])]
  {
    hide LoadModel;
    assert ModelItems(ms[..k + 1])[..k] == ModelItems(ms[..k]);
  }

  method RestoreSenders(cfg: Config, ss: seq<SenderState>, lastEnd: int) returns (r: Option<seq<Sender>>)
    ensures r.Some? <==> SendersAccepted(cfg, ss, lastEnd)
    ensures r.Some? ==> r.value == Fill(cfg.senders, NewSenders(cfg), SenderItems(cfg, ss))
  {
    hide LoadSender, SenderAccepted, Configured, Fill, SenderItems;
    assert Fill(cfg.senders, NewSenders(cfg), SenderItems(cfg, ss[..0])) == NewSenders(cfg) by {
      NoItems(cfg.senders, NewSenders(cfg), SenderItems(cfg, ss[..0]));
    }
    var senders, seen: set<nat> := NewSenders(cfg), {};
    for k := 0 to |ss|
      invariant SendersAccepted(cfg, ss[..k], lastEnd) && seen == set j: nat | j < k :: ss[j].id
      invariant senders == Fill(cfg.senders, NewSenders(cfg), SenderItems(cfg, ss[..k]))
    {
      var s := ss[k];
      var i := Index(cfg.senders, s.id);
      ConfiguredIs(cfg, s.id);
      if i.None? || s.id in seen { return None; }
      var ok := CheckSenderState(cfg, s, lastEnd);
      if !ok { return None; }
      OneSender(cfg, ss, k, i.value);
      seen := seen + {s.id};
      senders := senders[i.value := LoadSender(cfg.senders[i.value], s)];
    }
    assert ss[..|ss|] == ss;
    r := Some(senders);
  }

  lemma ConfiguredIs(cfg: Config, id: nat)
    ensures Configured(cfg, id) <==> Index(cfg.senders, id).Some?
  {
  }

  method CheckSenderState(cfg: Config, s: SenderState, lastEnd: int) returns (ok: bool)
    ensures ok <==> SenderAccepted(cfg, s, lastEnd)
  {
    hide SortedUpTo;
    var sorted := ObservationsAccepted(s.observations, lastEnd);
    if s.lastSeen < 0 || (s.seen && s.lastSeen > lastEnd) || (!s.seen && (s.lastSeen != 0 || s.protocol != "")) {
      return false;
    }
    if s.total < |s.observations| || !sorted { return false; }
    if s.learnedOverdue < 0 || s.learnedMinimumCount < 0 || s.obligationDue < 0 ||
       s.obligationsClosed > s.obligationsOpened || s.obligationDeficits > s.obligationsOpened { return false; }
    for k := 0 to |s.gaps|
      invariant k <= cfg.watchdogHistory && forall i :: 0 <= i < k ==> 0 < s.gaps[i]
    {
      if s.gaps[k] <= 0 || k >= cfg.watchdogHistory { return false; }
    }
    ok := true;
  }

  method RestoreModels(cfg: Config, ms: seq<ModelState>, candidate: CandidateConfig, lastEnd: int)
      returns (r: Option<seq<Model>>)
    ensures r.Some? <==> ModelsAccepted(cfg, ms, candidate, lastEnd)
    ensures r.Some? ==> r.value == Fill(cfg.senders, NewModels(cfg), ModelItems(ms))
  {
    hide LoadModel, ModelAccepted, Configured, Fill, ModelItems;
    assert Fill(cfg.senders, NewModels(cfg), ModelItems(ms[..0])) == NewModels(cfg) by {
      NoItems(cfg.senders, NewModels(cfg), ModelItems(ms[..0]));
    }
    if |ms| != |cfg.senders| { return None; }
    var models, seen: set<nat> := NewModels(cfg), {};
    for k := 0 to |ms|
      invariant forall j :: 0 <= j < k ==> Configured(cfg, ms[j].id) && ModelAccepted(ms[j], candidate, lastEnd)
      invariant (forall i, j :: 0 <= i < j < k ==> ms[i].id != ms[j].id) && seen == set j: nat | j < k :: ms[j].id
      invariant models == Fill(cfg.senders, NewModels(cfg), ModelItems(ms[..k]))
    {
      var m := ms[k];
      var i := Index(cfg.senders, m.id);
      ConfiguredIs(cfg, m.id);
      if i.None? || m.id in seen || !ModelAccepted(m, candidate, lastEnd) { return None; }
      OneModel(cfg, ms, k, i.value);
      seen := seen + {m.id};
      models := models[i.value := LoadModel(m)];
    }
    assert ms[..|ms|] == ms;
    r := Some(models);
  }

  method RestoreProtocols(ps: seq<ProtocolState>) returns (r: Option<map<string, Totals>>)
    ensures r.Some? <==> ProtocolsAccepted(ps)
    ensures r.Some? ==> r.value == LoadProtocols(ps)
  {
    var protocols: map<string, Totals>, seen: set<string> := map[], {};
    for k := 0 to |ps|
      invariant ProtocolsAccepted(ps[..k]) && protocols == LoadProtocols(ps[..k])
      invariant seen == set j: nat | j < k :: ps[j].name
    {
      if ps[k].name == "" || ps[k].name in seen { return None; }
      assert ps[..k + 1][..k] == ps[..k];
      seen := seen + {ps[k].name};
      protocols := protocols[ps[k].name := ps[k].totals];
    }
    assert ps[..|ps|] == ps;
    r := Some(protocols);
  }

  method ApplyState(env: Env, st: State) returns (r: Option<Core>)
    ensures r.Some? <==> Accepted(env.cfg, st)
    ensures r.Some? ==> r.value == Applied(env, st)
  {
    hide SendersAccepted, ModelsAccepted, ProtocolsAccepted, CandidateAccepted, Fill, Refresh, Choose,
         SchedulerModel.EnterRecovery;
    var cfg := env.cfg;
    if !ClockAccepted(st) || |st.senders| != |cfg.senders| || |st.candidates| != |cfg.candidates| { return None; }
    var senders := RestoreSenders(cfg, st.senders, st.lastEnd);
    if senders.None? { return None; }
    var protocols := RestoreProtocols(st.protocols);
    if protocols.None? { return None; }
    var candidates: seq<Candidate> := [];
    for i := 0 to |st.candidates|
      invariant |candidates| == i
      invariant forall j :: 0 <= j < i ==> candidates[j] == LoadCandidate(cfg, cfg.candidates[j], st.candidates[j])
      invariant forall j :: 0 <= j < i ==>
        CandidateAccepted(st.candidates[j], cfg.candidates[j]) &&
        ModelsAccepted(cfg, st.candidates[j].models, cfg.candidates[j], st.lastEnd)
    {
      var c := st.candidates[i];
      var models := RestoreModels(cfg, c.models, cfg.candidates[i], st.lastEnd);
      if !CandidateAccepted(c, cfg.candidates[i]) || models.None? { return None; }
      var loaded := Candidate(cfg.candidates[i], models.value, c.lastEligible, c.lastAwake, c.totalDuration,
                              c.totalAwake, c.eligibleDuration, c.awakeDuration, c.invalid, c.qualified, c.epoch,
                              c.wakeScale, c.promotionReady, c.recoveryUntil);
      candidates := candidates + [loaded];
    }
    assert candidates == LoadCandidates(cfg, st.candidates);
    var s := Core(candidates, senders.value, None, st.lastEnd, st.started, st.recoveryUntil, st.deadlineDeficits,
                  st.countDeficits, st.discontinuities, st.rng, false, false, "", st.refreshUntil, st.nextRefresh,
                  st.refreshes, protocols.value, {});
    assert s == Loaded(cfg, st);
    EnterRecoveryFrame(env, s, s.lastEnd);
    if cfg.mode == Gated { s := SchedulerModel.EnterRecovery(env, s, s.lastEnd); }
    r := Some(Choose(env, Refresh(env, s, s.lastEnd)));
  }

  /** Restores a checkpoint of the same configuration; a refused one changes nothing. */
  method RestoreState(s: Scheduler, st: State) returns (ok: bool)
    requires ValidConfig(s.env.cfg)
    modifies s
    ensures ok <==> st.config == s.env.cfg && Accepted(s.env.cfg, st)
    ensures ok ==> s.core == Applied(s.env, st)
    ensures ok ==> s.Sound() && s.QuietAt(s.core.lastEnd) && (s.Valid() <==> RecordsRegular(st.senders))
    ensures !ok ==> s.core == old(s.core) && (old(s.Sound()) ==> s.Sound()) && (old(s.Valid()) ==> s.Valid())
  {
    hide Accepted, RecordsRegular, AllRegular, SchedulerSound.Sound;
    if st.config != s.env.cfg { return false; }
    var restored := ApplyState(s.env, st);
    if restored.None? { return false; }
    RestoredSound(s.env, st);
    s.Adopt(restored.value);
    ok := true;
  }

  /** Promotes a shadow checkpoint into gated mode. */
  method RestoreShadowState(s: Scheduler, st: State) returns (ok: bool)
    requires ValidConfig(s.env.cfg)
    modifies s
    ensures ok <==> s.env.cfg.mode == Gated && st.config == s.env.cfg.(mode := Shadow) && Accepted(s.env.cfg, st)
    ensures ok ==> s.core == Applied(s.env, st)
    ensures ok ==> s.Sound() && s.QuietAt(s.core.lastEnd) && (s.Valid() <==> RecordsRegular(st.senders))
    ensures !ok ==> s.core == old(s.core) && (old(s.Sound()) ==> s.Sound()) && (old(s.Valid()) ==> s.Valid())
  {
    hide Accepted, RecordsRegular, AllRegular, SchedulerSound.Sound;
    if s.env.cfg.mode != Gated || st.config != s.env.cfg.(mode := Shadow) { return false; }
    var restored := ApplyState(s.env, st);
    if restored.None? { return false; }
    RestoredSound(s.env, st);
    s.Adopt(restored.value);
    ok := true;
  }

  /** Qualification starts over under the present capture target. */
  function Requalified(env: Env, s: Core): Core
  {
    var cleared := MapCandidates(s.candidates, (c: Candidate) => c.(qualified := false, promotionReady := 0));
    Choose(env, Refresh(env, Wake(s.(candidates := cleared, selected := None)), s.lastEnd))
  }

  /** Restores a checkpoint whose configuration differs in the capture target. */
  method RestoreCaptureTargetState(s: Scheduler, st: State, previous: real) returns (ok: bool)
    requires ValidConfig(s.env.cfg)
    modifies s
    ensures ok <==> 0.0 < previous < 1.0 && previous + s.env.cfg.promotionMargin < 1.0 &&
                    st.config == s.env.cfg.(captureTarget := previous) && Accepted(s.env.cfg, st)
    ensures ok ==> s.core == Requalified(s.env, Applied(s.env, st))
    ensures ok ==> s.Sound() && s.QuietAt(s.core.lastEnd) && (s.Valid() <==> RecordsRegular(st.senders))
    ensures !ok ==> s.core == old(s.core) && (old(s.Sound()) ==> s.Sound()) && (old(s.Valid()) ==> s.Valid())
  {
    hide Accepted, RecordsRegular, AllRegular, SchedulerSound.Sound, Requalified;
    if !(0.0 < previous < 1.0 && previous + s.env.cfg.promotionMargin < 1.0) ||
        st.config != s.env.cfg.(captureTarget := previous) {
      return false;
    }
    var restored := ApplyState(s.env, st);
    if restored.None? { return false; }
    RestoredSound(s.env, st);
    SoundShape(s.env, restored.value);
    RequalifiedSound(s.env, restored.value);
    s.Adopt(Requalified(s.env, restored.value));
    ok := true;
  }

  // ---- what a restored scheduler is

  /** What the watchdogs' schedule needs of a record. */
  ghost predicate RecordRegular(s: SenderState)
  {
    (!s.seen ==> s.observations == []) && SortedUpTo(s.observations, s.lastSeen)
  }

  ghost predicate RecordsRegular(ss: seq<SenderState>)
  {
    forall k :: 0 <= k < |ss| ==> RecordRegular(ss[k])
  }

  /** What an exported state has beyond what a restore checks. */
  ghost predicate SenderCoherent(s: SenderState)
  {
    && RecordRegular(s) && !(s.overdueOpen && s.obligationOpen)
    && s.obligationsClosed + s.obligationDeficits + (if s.obligationOpen then 1 else 0) <= s.obligationsOpened
  }

  ghost predicate ModelCoherent(m: ModelState, cfg: CandidateConfig)
  {
    m.effectiveHistory == 0 || cfg.warmupIntervals <= m.effectiveHistory
  }

  ghost predicate Coherent(cfg: Config, st: State)
  {
    && (forall k :: 0 <= k < |st.senders| ==> SenderCoherent(st.senders[k]))
    && |st.candidates| == |cfg.candidates|
    && forall i :: 0 <= i < |st.candidates| ==> ModelsCoherent(st.candidates[i].models, cfg.candidates[i])
  }

  ghost predicate ModelsCoherent(ms: seq<ModelState>, cfg: CandidateConfig)
  {
    forall k :: 0 <= k < |ms| ==> ModelCoherent(ms[k], cfg)
  }

  lemma LoadSenderOk(env: Env, cfg: SenderConfig, s: SenderState, lastEnd: int)
    requires SenderAccepted(env.cfg, s, lastEnd) && 0 <= lastEnd
    ensures SenderOk(env, LoadSender(cfg, s), lastEnd) <==> SenderCoherent(s)
  {
    hide SortedUpTo;
  }

  lemma LoadModelOk(m: ModelState, cfg: CandidateConfig, lastEnd: int)
    requires ModelAccepted(m, cfg, lastEnd)
    ensures ModelOk(LoadModel(m), cfg, lastEnd) && (HistoryOk(LoadModel(m), cfg) <==> ModelCoherent(m, cfg))
  {
  }

  lemma SendersRestored(env: Env, ss: seq<SenderState>, lastEnd: int)
    requires ValidConfig(env.cfg) && SendersAccepted(env.cfg, ss, lastEnd) && 0 <= lastEnd
    ensures SendersOk(env, Fill(env.cfg.senders, NewSenders(env.cfg), SenderItems(env.cfg, ss)), lastEnd) <==>
            forall k :: 0 <= k < |ss| ==> SenderCoherent(ss[k])
  {
    hide Fill, SenderAccepted, SenderOk, SenderCoherent, LoadSender, ValidConfig, Configured;
    var cfg := env.cfg;
    var items := SenderItems(cfg, ss);
    var r := Fill(cfg.senders, NewSenders(cfg), items);
    assert DistinctIds(cfg.senders) by { UniqueIds(env); }
    forall k | 0 <= k < |ss| ensures SendersOk(env, r, lastEnd) ==> SenderCoherent(ss[k]) {
      ConfiguredIs(cfg, ss[k].id);
      var i := Index(cfg.senders, ss[k].id).value;
      FillKeeps(cfg.senders, NewSenders(cfg), items, k, i);
      LoadSenderOk(env, cfg.senders[i], ss[k], lastEnd);
    }
    forall i | 0 <= i < |r|
      ensures (forall k :: 0 <= k < |ss| ==> SenderCoherent(ss[k])) ==> SenderOk(env, r[i], lastEnd)
      ensures r[i].cfg == cfg.senders[i]
    {
      FillAdds(cfg.senders, NewSenders(cfg), items, i);
      if r[i] == NewSenders(cfg)[i] {
        NewSenderOk(env, cfg.senders[i], lastEnd);
      } else {
        var k :| 0 <= k < |items| && items[k].0 == cfg.senders[i].id && items[k].1 == r[i];
        assert Index(cfg.senders, ss[k].id).value == i;
        LoadSenderOk(env, cfg.senders[i], ss[k], lastEnd);
        LoadSenderCfg(cfg.senders[i], ss[k]);
      }
    }
  }

  lemma ConfigIsValid(env: Env)
    requires ConfigOk(env)
    ensures ValidConfig(env.cfg)
  {
  }

  lemma UniqueIds(env: Env)
    requires ValidConfig(env.cfg)
    ensures DistinctIds(env.cfg.senders)
  {
  }

  lemma NewSenderOk(env: Env, cfg: SenderConfig, lastEnd: int)
    requires 0 <= lastEnd
    ensures SenderOk(env, NewSender(cfg), lastEnd) && NewSender(cfg).cfg == cfg
  {
  }

  lemma LoadSenderCfg(cfg: SenderConfig, s: SenderState)
    ensures LoadSender(cfg, s).cfg == cfg
  {
  }

  lemma ModelsRestored(env: Env, ms: seq<ModelState>, candidate: CandidateConfig, lastEnd: int)
    requires ValidConfig(env.cfg) && ModelsAccepted(env.cfg, ms, candidate, lastEnd) && 0 <= lastEnd
    ensures var r := Fill(env.cfg.senders, NewModels(env.cfg), ModelItems(ms));
      && (forall i :: 0 <= i < |r| ==> ModelOk(r[i], candidate, lastEnd))
      && ((forall i :: 0 <= i < |r| ==> HistoryOk(r[i], candidate)) <==> ModelsCoherent(ms, candidate))
  {
    hide Fill, ModelAccepted, ModelOk, HistoryOk, ModelCoherent, LoadModel, ValidConfig, Configured;
    var senders := env.cfg.senders;
    var items := ModelItems(ms);
    var r := Fill(senders, NewModels(env.cfg), items);
    UniqueIds(env);
    forall k | 0 <= k < |ms| ensures exists i :: 0 <= i < |r| && r[i] == LoadModel(ms[k]) {
      ConfiguredIs(env.cfg, ms[k].id);
      FillKeeps(senders, NewModels(env.cfg), items, k, Index(senders, ms[k].id).value);
    }
    forall k | 0 <= k < |ms|
      ensures (forall i :: 0 <= i < |r| ==> HistoryOk(r[i], candidate)) ==> ModelCoherent(ms[k], candidate)
    {
      LoadModelOk(ms[k], candidate, lastEnd);
    }
    forall i | 0 <= i < |r|
      ensures ModelOk(r[i], candidate, lastEnd) && (ModelsCoherent(ms, candidate) ==> HistoryOk(r[i], candidate))
    {
      FillAdds(senders, NewModels(env.cfg), items, i);
      if r[i] == NewModels(env.cfg)[i] {
        NewModelOk(candidate, lastEnd);
      } else {
        var k :| 0 <= k < |items| && items[k].0 == senders[i].id && items[k].1 == r[i];
        LoadModelOk(ms[k], candidate, lastEnd);
      }
    }
  }

  lemma NewModelOk(cfg: CandidateConfig, lastEnd: int)
    requires 0 <= lastEnd
    ensures ModelOk(NEW_MODEL, cfg, lastEnd) && HistoryOk(NEW_MODEL, cfg)
  {
  }

  lemma {:induction false} ProtocolKept(ps: seq<ProtocolState>, k: nat)
    requires ProtocolsAccepted(ps) && k < |ps|
    ensures ps[k].name in LoadProtocols(ps) && LoadProtocols(ps)[ps[k].name] == ps[k].totals
  {
    var n := |ps| - 1;
    if k < n { ProtocolKept(ps[..n], k); }
  }

  lemma {:induction false} ProtocolFrom(ps: seq<ProtocolState>, name: string) returns (k: nat)
    requires name in LoadProtocols(ps)
    ensures k < |ps| && ps[k].name == name
  {
    k := |ps| - 1;
    if ps[k].name != name { k := ProtocolFrom(ps[..k], name); }
  }

  lemma ProtocolsLoaded(ps: seq<ProtocolState>)
    requires ProtocolsAccepted(ps)
    ensures "" !in LoadProtocols(ps)
    ensures forall k :: 0 <= k < |ps| ==>
             ps[k].name in LoadProtocols(ps) && LoadProtocols(ps)[ps[k].name] == ps[k].totals
    ensures forall p :: p in LoadProtocols(ps) ==> exists k :: 0 <= k < |ps| && ps[k].name == p
  {
    hide LoadProtocols;
    forall k | 0 <= k < |ps| ensures ps[k].name in LoadProtocols(ps) && LoadProtocols(ps)[ps[k].name] == ps[k].totals {
      ProtocolKept(ps, k);
    }
    forall p | p in LoadProtocols(ps) ensures exists k :: 0 <= k < |ps| && ps[k].name == p {
      var k := ProtocolFrom(ps, p);
    }
  }

  lemma CandidateRestored(env: Env, c: CandidateState, i: nat, lastEnd: int)
    requires ValidConfig(env.cfg) && i < |env.cfg.candidates| && 0 <= lastEnd
    requires CandidateAccepted(c, env.cfg.candidates[i]) &&
             ModelsAccepted(env.cfg, c.models, env.cfg.candidates[i], lastEnd)
    ensures CandidateOk(LoadCandidate(env.cfg, env.cfg.candidates[i], c), lastEnd) <==>
            ModelsCoherent(c.models, env.cfg.candidates[i])
  {
    hide Fill, ModelsAccepted, ModelsCoherent, ModelOk, HistoryOk;
    ModelsRestored(env, c.models, env.cfg.candidates[i], lastEnd);
    assert ValidCandidate(env.cfg.candidates[i]);
  }

  lemma LoadedParts(env: Env, st: State)
    requires ConfigOk(env) && Accepted(env.cfg, st)
    ensures Parts(env, Loaded(env.cfg, st)) <==> Coherent(env.cfg, st)
  {
    hide Fill, SendersAccepted, ModelsAccepted, ProtocolsAccepted, CandidateAccepted, SendersOk, CandidateOk,
         ConfigOk, ModelsCoherent, SenderCoherent, LoadCandidate;
    ConfigIsValid(env);
    SendersRestored(env, st.senders, st.lastEnd);
    ProtocolsLoaded(st.protocols);
    forall i | 0 <= i < |st.candidates|
      ensures CandidateOk(LoadCandidate(env.cfg, env.cfg.candidates[i], st.candidates[i]), st.lastEnd) <==>
              ModelsCoherent(st.candidates[i].models, env.cfg.candidates[i])
      ensures LoadCandidate(env.cfg, env.cfg.candidates[i], st.candidates[i]).cfg == env.cfg.candidates[i]
    {
      CandidateRestored(env, st.candidates[i], i, st.lastEnd);
      LoadCandidateCfg(env.cfg, env.cfg.candidates[i], st.candidates[i]);
    }
    var s := Loaded(env.cfg, st);
    assert Coherent(env.cfg, st) ==> CandidatesOk(env, s.candidates, |s.senders|, s.lastEnd);
    if CandidatesOk(env, s.candidates, |s.senders|, s.lastEnd) {
      forall i | 0 <= i < |st.candidates| ensures ModelsCoherent(st.candidates[i].models, env.cfg.candidates[i]) {
        assert CandidateOk(s.candidates[i], s.lastEnd);
      }
    }
  }

  lemma LoadCandidateCfg(cfg: Config, candidate: CandidateConfig, c: CandidateState)
    ensures LoadCandidate(cfg, candidate, c).cfg == candidate
  {
  }

  lemma AppliedKeeps(env: Env, st: State)
    requires ConfigOk(env) && |st.candidates| == |env.cfg.candidates| && Accepted(env.cfg, st) &&
             Parts(env, Loaded(env.cfg, st))
    ensures Inv(env, Applied(env, st))
  {
    hide Loaded, Parts, Accepted, Refresh, Choose, SchedulerModel.EnterRecovery, Inv, AllSettled;
    var s := Loaded(env.cfg, st);
    LastEndNonnegative(env, s);
    EnterRecoveryKeeps(env, s, s.lastEnd);
    var s1 := if env.cfg.mode == Gated then SchedulerModel.EnterRecovery(env, s, s.lastEnd) else s;
    assert s1.lastEnd == s.lastEnd by { EnterRecoveryFrame(env, s, s.lastEnd); }
    RefreshKeeps(env, s1, s.lastEnd);
    ChooseKeeps(env, Refresh(env, s1, s.lastEnd));
    InvIsParts(env, Applied(env, st));
  }

  ghost predicate SameEvidence(a: Candidate, b: Candidate)
  {
    b == a.(invalid := b.invalid, qualified := b.qualified, promotionReady := b.promotionReady)
  }

  /** The steps after loading touch no evidence. */
  lemma AppliedFrame(env: Env, st: State)
    requires |st.candidates| == |env.cfg.candidates|
    ensures var s := Loaded(env.cfg, st); var t := Applied(env, st);
      && t.senders == s.senders && t.lastEnd == s.lastEnd && |t.candidates| == |s.candidates|
      && forall i :: 0 <= i < |s.candidates| ==> SameEvidence(s.candidates[i], t.candidates[i])
  {
    hide Loaded, QualifiesAt, AllLearned, WatchdogsReady;
    var s := Loaded(env.cfg, st);
    EnterRecoveryFrame(env, s, s.lastEnd);
  }

  lemma EvidenceOk(a: Candidate, b: Candidate, lastEnd: int)
    requires SameEvidence(a, b) && CandidateOk(b, lastEnd) && 0 <= a.promotionReady
    ensures CandidateOk(a, lastEnd) && a.cfg == b.cfg && |a.models| == |b.models|
  {
    hide ModelOk, HistoryOk, ValidCandidate;
  }

  /** A restored scheduler satisfies the invariant of every run exactly when its
      checkpoint is coherent; the checks a restore makes do not imply that. */
  lemma RestoredInv(env: Env, st: State)
    requires ConfigOk(env) && Accepted(env.cfg, st)
    ensures Inv(env, Applied(env, st)) <==> Coherent(env.cfg, st)
  {
    hide Loaded, Applied, Coherent, SendersOk, CandidateOk, SameEvidence, ConfigOk, SendersAccepted, ModelsAccepted,
         ProtocolsAccepted, Inv;
    LoadedParts(env, st);
    if Coherent(env.cfg, st) { AppliedKeeps(env, st); }
    var s, t := Loaded(env.cfg, st), Applied(env, st);
    if Inv(env, t) {
      InvIsParts(env, t);
      AppliedFrame(env, st);
      LoadedClock(env, st);
      forall i | 0 <= i < |s.candidates|
        ensures CandidateOk(s.candidates[i], s.lastEnd) && s.candidates[i].cfg == t.candidates[i].cfg &&
                |s.candidates[i].models| == |t.candidates[i].models|
      {
        EvidenceOk(s.candidates[i], t.candidates[i], s.lastEnd);
      }
    }
  }

  lemma LoadedClock(env: Env, st: State)
    requires Accepted(env.cfg, st)
    ensures var s := Loaded(env.cfg, st);
      ClockOk(s) && s.selected == None && forall i :: 0 <= i < |s.candidates| ==> 0 <= s.candidates[i].promotionReady
  {
    hide Fill, SendersAccepted, ModelsAccepted, ProtocolsAccepted;
    ProtocolsLoaded(st.protocols);
  }

  lemma RecordKept(cfg: SenderConfig, s: SenderState)
    ensures Regular(LoadSender(cfg, s)) <==> RecordRegular(s)
    ensures LoadSender(cfg, s).cfg == cfg
  {
    hide SortedUpTo;
  }

  /** Every sender is wired, and the records are regular exactly as they were written. */
  lemma SendersLoaded(env: Env, ss: seq<SenderState>, lastEnd: int)
    requires ValidConfig(env.cfg) && SendersAccepted(env.cfg, ss, lastEnd)
    ensures var r := Fill(env.cfg.senders, NewSenders(env.cfg), SenderItems(env.cfg, ss));
      WiredSenders(env, r) && (AllRegular(r) <==> RecordsRegular(ss))
  {
    hide Fill, SenderAccepted, Regular, RecordRegular, LoadSender, ValidConfig, Configured;
    var cfg := env.cfg;
    var items := SenderItems(cfg, ss);
    var r := Fill(cfg.senders, NewSenders(cfg), items);
    UniqueIds(env);
    forall k | 0 <= k < |ss| ensures AllRegular(r) ==> RecordRegular(ss[k]) {
      ConfiguredIs(cfg, ss[k].id);
      var i := Index(cfg.senders, ss[k].id).value;
      FillKeeps(cfg.senders, NewSenders(cfg), items, k, i);
      RecordKept(cfg.senders[i], ss[k]);
    }
    forall i | 0 <= i < |r| ensures (RecordsRegular(ss) ==> Regular(r[i])) && r[i].cfg == cfg.senders[i] {
      FillAdds(cfg.senders, NewSenders(cfg), items, i);
      if r[i] == NewSenders(cfg)[i] {
        NewRegular(cfg.senders[i]);
      } else {
        var k :| 0 <= k < |items| && items[k].0 == cfg.senders[i].id && items[k].1 == r[i];
        assert Index(cfg.senders, ss[k].id).value == i;
        RecordKept(cfg.senders[i], ss[k]);
      }
    }
  }

  lemma NewRegular(cfg: SenderConfig)
    ensures Regular(NewSender(cfg)) && NewSender(cfg).cfg == cfg
  {
  }

  lemma CandidateLoaded(env: Env, c: CandidateState, i: nat, lastEnd: int)
    requires ValidConfig(env.cfg) && i < |env.cfg.candidates| && 0 <= lastEnd
    requires CandidateAccepted(c, env.cfg.candidates[i]) &&
             ModelsAccepted(env.cfg, c.models, env.cfg.candidates[i], lastEnd)
    ensures SoundCandidate(env, LoadCandidate(env.cfg, env.cfg.candidates[i], c), i, |env.cfg.senders|)
  {
    hide Fill, ModelsAccepted, ModelsCoherent, HistoryOk, ValidConfig;
    ModelsRestored(env, c.models, env.cfg.candidates[i], lastEnd);
    var r := LoadCandidate(env.cfg, env.cfg.candidates[i], c);
    forall k | 0 <= k < |r.models| ensures WidthOk(r.models[k]) {
      assert ModelOk(r.models[k], env.cfg.candidates[i], lastEnd);
    }
  }

  lemma LoadedShape(env: Env, st: State)
    requires ValidConfig(env.cfg) && Accepted(env.cfg, st)
    ensures var s := Loaded(env.cfg, st);
      Shape(env, s) && s.lastEnd == st.lastEnd && s.recoveryUntil == st.recoveryUntil &&
      (AllRegular(s.senders) <==> RecordsRegular(st.senders))
  {
    hide Fill, SendersAccepted, ModelsAccepted, ProtocolsAccepted, CandidateAccepted, WiredSenders, SoundCandidate,
         ValidConfig, RecordsRegular, AllRegular, LoadCandidate;
    SendersLoaded(env, st.senders, st.lastEnd);
    forall i | 0 <= i < |st.candidates|
      ensures SoundCandidate(env, LoadCandidate(env.cfg, env.cfg.candidates[i], st.candidates[i]), i, |env.cfg.senders|)
    {
      CandidateLoaded(env, st.candidates[i], i, st.lastEnd);
    }
  }

  /** Whatever checkpoint was accepted, coherent or not: the restored scheduler has
      the smaller invariant, nothing is due, a gated one has a whole recovery before
      it, and its records are regular exactly when the checkpoint's are. */
  lemma RestoredSound(env: Env, st: State)
    requires ValidConfig(env.cfg) && Accepted(env.cfg, st)
    ensures var s := Applied(env, st);
      && SchedulerSound.Sound(env, s) && !AnyDue(s.candidates, s.lastEnd) && s.lastEnd == st.lastEnd &&
         s.recoveryUntil >= st.recoveryUntil
      && (AllRegular(s.senders) <==> RecordsRegular(st.senders))
      && (env.cfg.mode == Gated ==> s.recoveryUntil >= st.lastEnd + env.cfg.recoveryDuration)
  {
    hide Loaded, SendersAccepted, ModelsAccepted, ProtocolsAccepted, CandidateAccepted, Shape, AllSettled, Refresh,
         Choose, SchedulerModel.EnterRecovery, AllRegular, RecordsRegular, AnyDue;
    var s := Loaded(env.cfg, st);
    LoadedShape(env, st);
    EnterSound(env, s, s.lastEnd);
    var s1 := if env.cfg.mode == Gated then SchedulerModel.EnterRecovery(env, s, s.lastEnd) else s;
    ClockStarted(env, s);
    RefreshAllSound(env, s1, s.lastEnd);
    SoundShape(env, Refresh(env, s1, s.lastEnd));
    ChooseSound(env, Refresh(env, s1, s.lastEnd));
    SoundShape(env, Applied(env, st));
  }

  /** Starting qualification over needs no more. */
  lemma RequalifiedSound(env: Env, s: Core)
    requires Shape(env, s)
    ensures var r := Requalified(env, s);
      && SchedulerSound.Sound(env, r) && r.recoveryUntil == s.recoveryUntil && r.lastEnd == s.lastEnd &&
         r.senders == s.senders
      && !AnyDue(r.candidates, r.lastEnd)
  {
    hide WiredSenders, AllSettled, WidthsOk, Refresh, Choose, ValidConfig, AnyDue;
    var cleared := MapCandidates(s.candidates, (c: Candidate) => c.(qualified := false, promotionReady := 0));
    var s1 := Wake(s.(candidates := cleared, selected := None));
    forall i | 0 <= i < |cleared| ensures SoundCandidate(env, cleared[i], i, |s.senders|) {
      assert SoundCandidate(env, s.candidates[i], i, |s.senders|);
    }
    RefreshAllSound(env, s1, s1.lastEnd);
    SoundShape(env, Refresh(env, s1, s1.lastEnd));
    ChooseSound(env, Refresh(env, s1, s1.lastEnd));
    SoundShape(env, Requalified(env, s));
  }

  lemma RequalifiedKeeps(env: Env, s: Core)
    requires Inv(env, s)
    ensures Inv(env, Requalified(env, s)) && Requalified(env, s).recoveryUntil == s.recoveryUntil &&
            Requalified(env, s).lastEnd == s.lastEnd
  {
    hide Inv, SendersOk, AllSettled, CandidateOk, Refresh, Choose, ConfigOk;
    InvIsParts(env, s);
    var cleared := MapCandidates(s.candidates, (c: Candidate) => c.(qualified := false, promotionReady := 0));
    var s1 := Wake(s.(candidates := cleared, selected := None));
    forall i | 0 <= i < |cleared| ensures CandidateOk(cleared[i], s.lastEnd) { ClearedOk(s.candidates[i], s.lastEnd); }
    RefreshKeeps(env, s1, s1.lastEnd);
    ChooseKeeps(env, Refresh(env, s1, s1.lastEnd));
    InvIsParts(env, Requalified(env, s));
  }

  lemma ClearedOk(c: Candidate, lastEnd: int)
    requires CandidateOk(c, lastEnd)
    ensures CandidateOk(c.(qualified := false, promotionReady := 0), lastEnd)
  {
    hide ModelOk, HistoryOk, ValidCandidate;
  }

  /** After a change of target nothing is qualified: even a candidate that meets the new
      promotion target at once has its stability period before it. */
  lemma RequalifiedAnew(env: Env, s: Core, i: nat)
    requires ValidConfig(env.cfg) && i < |s.candidates|
    ensures i < |Requalified(env, s).candidates| && !Requalified(env, s).candidates[i].qualified
    ensures var c := Requalified(env, s).candidates[i];
      c.promotionReady == if QualifiesAt(env, c, AllLearned(c.models), env.cfg.captureTarget + env.cfg.promotionMargin)
                          then s.lastEnd + env.cfg.promotionStability else 0
  {
    hide MeetsBound, AllLearned, WatchdogsReady, ValidCandidate;
  }

  // ---- a reachable scheduler's own checkpoints

  /** The parts of a configuration that a checkpoint is read against. */
  ghost predicate SameInventory(a: Config, b: Config)
  {
    a.senders == b.senders && a.candidates == b.candidates && a.watchdogHistory == b.watchdogHistory
  }

  lemma ExportedSender(env: Env, s: Sender, lastEnd: int)
    requires SenderOk(env, s, lastEnd)
    ensures SenderAccepted(env.cfg, ExportSender(s), lastEnd) && SenderCoherent(ExportSender(s))
    ensures LoadSender(s.cfg, ExportSender(s)) == s
  {
  }

  lemma ExportedModel(id: nat, m: Model, cfg: CandidateConfig, lastEnd: int)
    requires ModelOk(m, cfg, lastEnd) && HistoryOk(m, cfg)
    ensures ModelAccepted(ExportModel(id, m), cfg, lastEnd) && ModelCoherent(ExportModel(id, m), cfg)
    ensures LoadModel(ExportModel(id, m)) == m
  {
  }

  lemma ItemSender(env: Env, senders: seq<Sender>, order: seq<nat>, k: nat)
    requires ValidConfig(env.cfg) && WiredSenders(env, senders) && Order(order, |senders|) && k < |order|
    ensures var st := ExportSender(senders[order[k]]);
      && st.id == env.cfg.senders[order[k]].id && Configured(env.cfg, st.id)
      && Index(env.cfg.senders, st.id) == Some(order[k]) && ConfigOf(env.cfg.senders, st.id) == senders[order[k]].cfg
  {
    hide ValidConfig;
    UniqueIds(env);
  }

  /** Whatever the order, every sender is read back as it was. */
  lemma SendersExported(env: Env, senders: seq<Sender>, order: seq<nat>, cfg: Config, lastEnd: int)
    requires ValidConfig(env.cfg) && SendersOk(env, senders, lastEnd) && Order(order, |senders|) &&
             SameInventory(cfg, env.cfg)
    ensures var ss := ExportSenders(senders, order);
      && SendersAccepted(cfg, ss, lastEnd) && (forall k :: 0 <= k < |ss| ==> SenderCoherent(ss[k]))
      && Fill(cfg.senders, NewSenders(cfg), SenderItems(cfg, ss)) == senders
  {
    hide SenderOk, SenderAccepted, SenderCoherent, ExportSender, LoadSender, Fill, Configured, ValidConfig;
    var ss := ExportSenders(senders, order);
    UniqueIds(env);
    forall k | 0 <= k < |ss|
      ensures Configured(cfg, ss[k].id) && SenderAccepted(cfg, ss[k], lastEnd) && SenderCoherent(ss[k])
      ensures ss[k].id == env.cfg.senders[order[k]].id
      ensures SenderItems(cfg, ss)[k] == (ss[k].id, senders[order[k]])
    {
      ItemSender(env, senders, order, k);
      ConfiguredIs(env.cfg, ss[k].id);
      ConfiguredIs(cfg, ss[k].id);
      ExportedSender(env, senders[order[k]], lastEnd);
      AcceptedSame(env.cfg, cfg, ss[k], lastEnd);
    }
    hide SenderItems, ExportSenders, SendersOk;
    Refilled(cfg.senders, NewSenders(cfg), SenderItems(cfg, ss), senders, order);
  }

  /** Items that name every position once, in whatever order, fill in all of them. */
  lemma Refilled<T>(configs: seq<SenderConfig>, base: seq<T>, items: seq<(nat, T)>, values: seq<T>, order: seq<nat>)
    requires |base| == |configs| == |values| && DistinctIds(configs) && Order(order, |values|) && |items| == |order|
    requires forall k :: 0 <= k < |order| ==> items[k] == (configs[order[k]].id, values[order[k]])
    ensures Fill(configs, base, items) == values
  {
    hide Fill;
    forall j, k | 0 <= j < k < |items| ensures items[j].0 != items[k].0 {
      if order[j] < order[k] { assert configs[order[j]].id != configs[order[k]].id; }
      else { assert configs[order[k]].id != configs[order[j]].id; }
    }
    var r := Fill(configs, base, items);
    forall i | 0 <= i < |values| ensures r[i] == values[i] {
      assert i in order;
      var k :| 0 <= k < |order| && order[k] == i;
      FillKeeps(configs, base, items, k, i);
    }
  }

  lemma AcceptedSame(a: Config, b: Config, s: SenderState, lastEnd: int)
    requires SameInventory(b, a)
    ensures SenderAccepted(a, s, lastEnd) <==> SenderAccepted(b, s, lastEnd)
  {
    hide SortedUpTo;
  }

  lemma CandidateExported(env: Env, c: Candidate, order: seq<nat>, cfg: Config, lastEnd: int)
    requires ConfigOk(env) && SameInventory(cfg, env.cfg) && CandidateOk(c, lastEnd)
    requires Order(order, |cfg.senders|) && |c.models| == |cfg.senders|
    ensures var st := ExportCandidate(env.cfg, c, order);
      && CandidateAccepted(st, c.cfg) && ModelsAccepted(cfg, st.models, c.cfg, lastEnd) &&
         ModelsCoherent(st.models, c.cfg)
      && LoadCandidate(cfg, c.cfg, st) == c
  {
    hide ModelOk, HistoryOk, ModelAccepted, ModelCoherent, ExportModel, LoadModel, Fill, ConfigOk, ValidCandidate,
         Configured;
    var ms := ExportCandidate(env.cfg, c, order).models;
    ConfigIsValid(env);
    UniqueIds(env);
    forall k | 0 <= k < |ms|
      ensures Configured(cfg, ms[k].id) && ModelAccepted(ms[k], c.cfg, lastEnd) && ModelCoherent(ms[k], c.cfg)
      ensures ms[k].id == cfg.senders[order[k]].id && ModelItems(ms)[k] == (ms[k].id, c.models[order[k]])
    {
      ExportedModel(cfg.senders[order[k]].id, c.models[order[k]], c.cfg, lastEnd);
      ExportedId(cfg.senders[order[k]].id, c.models[order[k]]);
      ConfiguredIs(cfg, ms[k].id);
    }
    hide ModelItems;
    Refilled(cfg.senders, NewModels(cfg), ModelItems(ms), c.models, order);
  }

  lemma ExportedId(id: nat, m: Model)
    ensures ExportModel(id, m).id == id
  {
  }

  lemma ProtocolsExported(protocols: map<string, Totals>, names: seq<string>)
    requires Listing(names, protocols) && "" !in protocols
    ensures var ps := ExportProtocols(protocols, names); ProtocolsAccepted(ps) && LoadProtocols(ps) == protocols
  {
    hide LoadProtocols;
    var ps := ExportProtocols(protocols, names);
    ProtocolsLoaded(ps);
    forall p | p in protocols ensures p in LoadProtocols(ps) && LoadProtocols(ps)[p] == protocols[p] {
      var k :| 0 <= k < |names| && names[k] == p;
      assert ps[k].name == p;
    }
    assert LoadProtocols(ps) == protocols;
  }

  /** What a checkpoint leaves out: the selection and what hangs on it, and the
      arrivals awaited after an earlier resume. */
  function Forgotten(s: Core): Core
  {
    Wake(s.(selected := None, reanchorPending := {}))
  }

  /** Every checkpoint a scheduler exports is accepted, is coherent, and loads back
      field by field, also under another mode or capture target. */
  lemma ExportAccepted(env: Env, s: Core, order: seq<nat>, names: seq<string>, cfg: Config)
    requires Inv(env, s) && Writable(env, s, order, names) && SameInventory(cfg, env.cfg)
    ensures var st := Export(env, s, order, names);
      Accepted(cfg, st) && Coherent(cfg, st) && Loaded(cfg, st) == Forgotten(s)
  {
    hide Inv, SendersOk, CandidateOk, AllSettled, ConfigOk, SendersAccepted, ModelsAccepted, CandidateAccepted,
         ProtocolsAccepted, SenderCoherent, ModelsCoherent, ExportCandidate, LoadCandidate, Fill, Wired, ExportSender;
    InvIsParts(env, s);
    ConfigIsValid(env);
    SendersExported(env, s.senders, order, cfg, s.lastEnd);
    ProtocolsExported(s.protocols, names);
    var st := Export(env, s, order, names);
    forall i | 0 <= i < |st.candidates|
      ensures CandidateAccepted(st.candidates[i], cfg.candidates[i]) &&
              ModelsAccepted(cfg, st.candidates[i].models, cfg.candidates[i], st.lastEnd)
      ensures ModelsCoherent(st.candidates[i].models, cfg.candidates[i]) &&
              LoadCandidate(cfg, cfg.candidates[i], st.candidates[i]) == s.candidates[i]
    {
      CandidateExported(env, s.candidates[i], order, cfg, s.lastEnd);
    }
    assert LoadCandidates(cfg, st.candidates) == s.candidates;
  }

  lemma DueChanges(env: Env, c: Candidate, now: int)
    requires ValidConfig(env.cfg) && Settled(env, c) && Due(c, now)
    ensures var r := RefreshCandidate(env, c, AllLearned(c.models), now);
            r.invalid != c.invalid || r.qualified != c.qualified
  {
    hide MeetsBound, AllLearned;
  }

  lemma ForgottenKeeps(env: Env, s: Core)
    requires Inv(env, s)
    ensures Parts(env, Forgotten(s)) && AllSettled(env, Forgotten(s).candidates) && ConfigOk(env)
    ensures Forgotten(s).candidates == s.candidates && Forgotten(s).lastEnd == s.lastEnd &&
            Forgotten(s).selected == None
  {
    hide SendersOk, CandidatesOk, AllSettled, ConfigOk, Inv;
    InvIsParts(env, s);
  }

  /** Some qualification flag changed. */
  ghost predicate Requalifies(before: seq<Candidate>, after: seq<Candidate>)
  {
    exists i :: 0 <= i < |before| && i < |after| &&
        (after[i].invalid != before[i].invalid || after[i].qualified != before[i].qualified)
  }

  lemma WiredParts(env: Env, s: Core)
    requires Parts(env, s)
    ensures Wired(env, s) && 0 <= s.lastEnd
  {
    hide ClockOk, SenderOk, CandidateOk, ConfigOk;
    LastEndNonnegative(env, s);
  }

  /** Refreshing at the clock's own time is the identity exactly when nothing is due. */
  lemma RefreshIsIdentity(env: Env, s: Core)
    requires Parts(env, s) && AllSettled(env, s.candidates)
    ensures var t := Refresh(env, s, s.lastEnd);
      && (!AnyDue(s.candidates, s.lastEnd) ==> t == s)
      && (AnyDue(s.candidates, s.lastEnd) ==> Requalifies(s.candidates, t.candidates))
  {
    hide RefreshCandidate, Settled, Due, SendersOk, CandidatesOk;
    if !AnyDue(s.candidates, s.lastEnd) {
      InvIsParts(env, s);
      InvIsSound(env, s);
      IdleRefresh(env, s, s.lastEnd);
    } else {
      var i :| 0 <= i < |s.candidates| && Due(s.candidates[i], s.lastEnd);
      DueChanges(env, s.candidates[i], s.lastEnd);
      assert Refresh(env, s, s.lastEnd).candidates[i] ==
             RefreshCandidate(env, s.candidates[i], AllLearned(s.candidates[i].models), s.lastEnd);
    }
  }

  lemma ChooseNone(env: Env, s: Core)
    requires env.cfg.mode != Gated && s.selected == None
    ensures Choose(env, s) == s
  {
  }

  lemma UngatedApplied(env: Env, s: Core, order: seq<nat>, names: seq<string>)
    requires Inv(env, s) && Writable(env, s, order, names) && env.cfg.mode != Gated
    ensures Applied(env, Export(env, s, order, names)) == Refresh(env, Forgotten(s), s.lastEnd)
  {
    hide Inv, Writable, Export, Loaded, Forgotten, Choose, Accepted, Coherent;
    ExportAccepted(env, s, order, names, env.cfg);
    ForgottenKeeps(env, s);
    ExportShape(env, s, order, names);
    ChooseNone(env, Refresh(env, Forgotten(s), s.lastEnd));
  }

  lemma ExportShape(env: Env, s: Core, order: seq<nat>, names: seq<string>)
    requires Writable(env, s, order, names)
    ensures |Export(env, s, order, names).candidates| == |env.cfg.candidates|
  {
  }

  /** Outside gated mode a restored checkpoint is the scheduler that wrote it, and so
      writes the same checkpoint again, exactly when no qualification was overdue
      for a refresh. */
  lemma RestoreIsIdentity(env: Env, s: Core, order: seq<nat>, names: seq<string>)
    requires Inv(env, s) && Writable(env, s, order, names) && env.cfg.mode != Gated
    ensures |Export(env, s, order, names).candidates| == |env.cfg.candidates|
    ensures var t := Applied(env, Export(env, s, order, names));
      && Writable(env, t, order, names)
      && (t == Forgotten(s) <==> !AnyDue(s.candidates, s.lastEnd))
      && (Export(env, t, order, names) == Export(env, s, order, names) <==> !AnyDue(s.candidates, s.lastEnd))
  {
    hide Inv, Export, Applied, Refresh, Parts, AllSettled, AnyDue, Order, Listing, Wired, Requalifies;
    ExportShape(env, s, order, names);
    UngatedApplied(env, s, order, names);
    ForgottenKeeps(env, s);
    WiredParts(env, Forgotten(s));
    RefreshIsIdentity(env, Forgotten(s));
    RefreshKeeps(env, Forgotten(s), s.lastEnd);
    WiredParts(env, Refresh(env, Forgotten(s), s.lastEnd));
    var t := Applied(env, Export(env, s, order, names));
    if AnyDue(s.candidates, s.lastEnd) {
      ExportsDiffer(env, s, t, order, names);
    } else {
      ExportsAgree(env, s, order, names);
    }
  }

  lemma ExportsDiffer(env: Env, s: Core, t: Core, order: seq<nat>, names: seq<string>)
    requires Writable(env, s, order, names) && Writable(env, t, order, names)
    requires Requalifies(s.candidates, t.candidates)
    ensures Export(env, t, order, names) != Export(env, s, order, names)
  {
    var i :| 0 <= i < |s.candidates| && i < |t.candidates| &&
             (t.candidates[i].invalid != s.candidates[i].invalid ||
              t.candidates[i].qualified != s.candidates[i].qualified);
    assert Export(env, t, order, names).candidates[i] != Export(env, s, order, names).candidates[i];
  }

  lemma ExportsAgree(env: Env, s: Core, order: seq<nat>, names: seq<string>)
    requires Writable(env, s, order, names)
    ensures Writable(env, Forgotten(s), order, names) &&
            Export(env, Forgotten(s), order, names) == Export(env, s, order, names)
  {
  }

  // ---- where the checks and the invariant part

  /** An accepted checkpoint stays accepted when a sender's retained arrivals are
      replaced by one later than the sender was last seen, but is then incoherent. */
  lemma CoherenceIsNotChecked(cfg: Config, st: State, k: nat)
    requires Accepted(cfg, st) && k < |st.senders| && st.senders[k].lastSeen < st.lastEnd
    ensures var s := st.senders[k];
            var t := st.(senders := st.senders[k := s.(observations := [st.lastEnd], total := s.total + 1)]);
      Accepted(cfg, t) && !Coherent(cfg, t) && !RecordsRegular(t.senders)
  {
    hide ModelsAccepted, CandidateAccepted, ProtocolsAccepted;
    var s := st.senders[k];
    var t := st.(senders := st.senders[k := s.(observations := [st.lastEnd], total := s.total + 1)]);
    assert SenderAccepted(cfg, t.senders[k], st.lastEnd);
    assert t.senders[k].observations[0] == st.lastEnd;
  }

  /** A record of an arrival at 100 whose sender was last seen at 5. */
  function Disordered(id: nat): SenderState
  {
    SenderState(id, "p", 5, true, [100], 1, false, false, 0, 0, [], 0, 0, false, 0, false, 0, 0, 0)
  }

  /** The sender after an arrival at 50. */
  function DisorderedSender(env: Env, id: nat, reanchor: bool): Sender
  {
    ObserveSender(env, LoadSender(SenderConfig(id, 0, 10, 1), Disordered(id)), "p", 50, reanchor)
  }

  lemma DisorderedRecord(env: Env, id: nat, reanchor: bool)
    requires 2 <= env.cfg.watchdogMinIntervals <= env.cfg.watchdogHistory
    ensures SenderAccepted(env.cfg, Disordered(id), 100)
    ensures var s := DisorderedSender(env, id, reanchor);
      && s.observations == [100, 50] && EffectiveCountWindow(env.cfg, s) == 10 && EffectiveMinimumCount(s) == 1
      && s.seen && !s.countOpen && !s.obligationOpen
  {
    CountBeforeIs([100, 50], 30, 0);
  }

  /** A check at 105 asks for no other, although the count has fallen at 115. */
  lemma DisorderOverlooked(env: Env, id: nat, reanchor: bool)
    requires 2 <= env.cfg.watchdogMinIntervals <= env.cfg.watchdogHistory
    ensures var s := DisorderedSender(env, id, reanchor);
            var r := Judge(env.cfg, s, 105, InWindow(env.cfg, s, 105)).sender;
      && !Foreseen(env.cfg, s, 105) && Ask(env.cfg, r, 0, 105, InWindow(env.cfg, r, 105)) == 0
      && !Idle(env.cfg, r, 115)
  {
    DisorderedRecord(env, id, reanchor);
    CountBeforeIs([100, 50], 95, 0);
    CountBeforeIs([100, 50], 105, 2);
    hide DisorderedSender;
  }

  lemma TakenRecord(env: Env, s: Core, a: Arrival, i: nat)
    requires Shape(env, s) && Consistent(s) && Admit(s, a) == Taken(i)
    ensures var r := Observe(env, s, a); var reanchor := a.id in s.reanchorPending;
      && r.senders == s.senders[i := ObserveSender(env, s.senders[i], a.protocol, a.at, reanchor)]
      && r.lastEnd == s.lastEnd && r.started == s.started
  {
    hide Shape, ObserveCandidate, ObserveSender, Refresh, Choose, PunishEscape;
    TakeSound(env, s, a, i);
    var s1 := TakeArrival(env, s, a, i);
    InRange(env, s1);
    PunishSound(env, s1, a);
    PunishFrame(env, s1, a);
    RefreshAllSound(env, PunishEscape(env, s1, a), a.at);
    SoundShape(env, Refresh(env, PunishEscape(env, s1, a), a.at));
    ChooseSound(env, Refresh(env, PunishEscape(env, s1, a), a.at));
  }

  lemma PunishFrame(env: Env, s: Core, a: Arrival)
    requires s.selected.Some? ==> s.selected.value < |s.candidates|
    ensures PunishEscape(env, s, a).started == s.started
  {
    hide Distrust, SteadySleep;
  }

  lemma RestoredRecord(env: Env, st: State)
    requires ValidConfig(env.cfg) && Accepted(env.cfg, st) && |env.cfg.senders| == 1
    requires st.senders[0].id == env.cfg.senders[0].id && st.started
    ensures var s := Applied(env, st);
      && s.senders == [LoadSender(env.cfg.senders[0], st.senders[0])] && s.reanchorPending == {}
      && s.lastEnd == st.lastEnd && s.started
  {
    hide LoadSender, LoadCandidates, LoadProtocols, RefreshCandidate, Best, MaySelect, SendersAccepted, ModelsAccepted,
         ProtocolsAccepted, CandidateAccepted, ValidConfig;
    var items := SenderItems(env.cfg, st.senders);
    assert items[..0] == [];
    assert Fill(env.cfg.senders, NewSenders(env.cfg), items[..0]) == NewSenders(env.cfg);
    assert Index(env.cfg.senders, st.senders[0].id) == Some(0);
    assert items == [(st.senders[0].id, LoadSender(env.cfg.senders[0], st.senders[0]))];
    assert Loaded(env.cfg, st).senders == [LoadSender(env.cfg.senders[0], st.senders[0])];
  }

  /** Blocks `[100, 105)` and `[105, 115)`: the first looks at the watchdogs and asks for no
      further look, the second differs for want of one. */
  ghost predicate Overlooks(env: Env, s: Core)
  {
    && Tightenable(s) && Tightenable(Advance(env, s, 100, 105).0) && |s.senders| == 1
    && NextCheck(env, Begin(env, s, 100, 105), 105, 1) == 0
    && AdvanceWith(env, Advance(env, s, 100, 105).0, 105, 115, false)
       != Advance(env, Advance(env, s, 100, 105).0, 105, 115)
  }

  lemma OneSenderOverlooked(env: Env, s: Core)
    requires SchedulerSound.Sound(env, s) && |s.senders| == 1 && s.lastEnd == 100
    requires var r := Judge(env.cfg, s.senders[0], 105, InWindow(env.cfg, s.senders[0], 105)).sender;
      Ask(env.cfg, r, 0, 105, InWindow(env.cfg, r, 105)) == 0 && !Idle(env.cfg, r, 115)
    ensures Overlooks(env, s)
  {
    hide SchedulerSound.Sound, Shape, AllSettled, Tightenable, Begin, Settle, SettleWith, Decide, Judge, Ask, Idle,
         InWindow, AllRegular, CheckWatchdogs;
    SoundShape(env, s);
    SoundUsable(env, s);
    SettledRecords(env, s, 100, 105, true);
    SettleSound(env, s, 100, 105, true);
    var b := Begin(env, s, 100, 105);
    OneJudged(env, b, 105);
    ConcludedPass(env, b, 105);
    CheckedAdvance(env, s, 100, 105);
    AdvanceSound(env, s, 100, 105, true);
    var s2 := Advance(env, s, 100, 105).0;
    SoundShape(env, SettleWith(env, s, 100, 105, true));
    DecideSound(env, SettleWith(env, s, 100, 105, true), 105);
    SoundShape(env, s2);
    SoundUsable(env, s2);
    BlockExactly(env, s2, 105, 115);
  }

  lemma OneJudged(env: Env, s: Core, now: int)
    requires |s.senders| == 1
    ensures var r := Judge(env.cfg, s.senders[0], now, InWindow(env.cfg, s.senders[0], now)).sender;
      && PassOver(env, s, now, 1).senders == [r]
      && NextCheck(env, s, now, 1) == Ask(env.cfg, r, 0, now, InWindow(env.cfg, r, now))
  {
    hide Judge, Ask, InWindow, Charge;
    assert PassOver(env, s, now, 0).senders == s.senders && NextCheck(env, s, now, 0) == 0;
  }

  /** Any accepted checkpoint of one sender, with that record in its place, is accepted
      and restores to a scheduler that overlooks the deficit after an arrival at 50. */
  lemma DisorderReached(env: Env, st: State, id: nat)
    requires ValidConfig(env.cfg) && env.cfg.senders == [SenderConfig(id, 0, 10, 1)]
    requires Accepted(env.cfg, st) && st.lastEnd == 100
    ensures var t := st.(senders := [Disordered(id)]);
      && Accepted(env.cfg, t) && Consistent(Applied(env, t))
      && Overlooks(env, Observe(env, Applied(env, t), Arrival(id, "p", 50, false)))
  {
    hide ModelsAccepted, CandidateAccepted, ProtocolsAccepted, Disordered, LoadSender, Applied, SchedulerSound.Sound,
         Shape, AllSettled, AllRegular, RecordsRegular, AnyDue, SenderAccepted, Overlooks, Ask, Judge, Idle, InWindow,
         Foreseen, Ascending, ObserveSender, Observe, ValidConfig;
    var t := st.(senders := [Disordered(id)]);
    DisorderedConfig(env);
    DisorderedRecord(env, id, false);
    DisorderOverlooked(env, id, false);
    DisorderedId(id);
    assert Configured(env.cfg, id) by { assert env.cfg.senders[0].id == id; }
    var s, a := Applied(env, t), Arrival(id, "p", 50, false);
    RestoredSound(env, t);
    RestoredRecord(env, t);
    SoundShape(env, s);
    SoundUsable(env, s);
    assert Admit(s, a) == Taken(0) by { DisorderedAdmitted(env, s, a, id); }
    TakenRecord(env, s, a, 0);
    ObserveSound(env, s, a);
    OneSenderOverlooked(env, Observe(env, s, a));
  }

  lemma DisorderedConfig(env: Env)
    requires ValidConfig(env.cfg)
    ensures 2 <= env.cfg.watchdogMinIntervals <= env.cfg.watchdogHistory
  {
  }

  lemma DisorderedId(id: nat)
    ensures Disordered(id).id == id
  {
  }

  lemma DisorderedAdmitted(env: Env, s: Core, a: Arrival, id: nat)
    requires s.senders == [LoadSender(SenderConfig(id, 0, 10, 1), Disordered(id))] && a == Arrival(id, "p", 50, false)
    ensures Admit(s, a) == Taken(0)
  {
  }

  /** A candidate whose trust was just lost can be read back exactly when its recovery
      does not end before time zero, which takes a recovery duration below zero. */
  lemma NegativeRecoveryRefused(env: Env, c: Candidate, lastEnd: int, skip: real, now: int, order: seq<nat>)
    requires CandidateOk(c, lastEnd) && SteadySleep(c) >= skip && 0 <= now
    requires forall k :: 0 <= k < |order| ==> order[k] < |env.cfg.senders| && order[k] < |c.models|
    ensures var d := Distrust(env, c, skip, now);
      |d.models| == |c.models| &&
      (CandidateAccepted(ExportCandidate(env.cfg, d, order), c.cfg) <==> 0 <= now + env.cfg.recoveryDuration)
  {
    hide SteadySleep, ScaleDuration, ModelOk, HistoryOk;
    EpochKeeps(env, c.(invalid := true), now, true, lastEnd);
  }
}
