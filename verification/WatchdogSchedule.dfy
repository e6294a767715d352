/** When the watchdogs have to be looked at: between two scheduled checks a check
    would record nothing.  The rolling count is kept by a pointer that only moves
    forward. */
module WatchdogSchedule {
  import opened SchedulerModel
  import opened SchedulerInvariant

  // ---- the rolling count

  /** Everything before the pointer has left every window from `t` on. */
  ghost predicate PointerOk(cfg: Config, s: Sender, from: nat, t: int)
  {
    && from <= |s.observations|
    && (EffectiveCountWindow(cfg, s) == 0 ==> from == 0)
    && forall k :: 0 <= k < from ==> s.observations[k] < t - EffectiveCountWindow(cfg, s)
  }

  /** The pointer gives the number of retained arrivals in the window. */
  method RollPointer(cfg: Config, s: Sender, from: nat, now: int) returns (at: nat)
    requires PointerOk(cfg, s, from, now) && EffectiveCountWindow(cfg, s) > 0
    ensures PointerOk(cfg, s, at, now)
    ensures |s.observations| - at == InWindow(cfg, s, now)
  {
    var lower := now - EffectiveCountWindow(cfg, s);
    // The source clamps a pointer past the end here; PointerOk says it never is.
    at := from;
    while at < |s.observations| && s.observations[at] < lower
      invariant at <= |s.observations| && forall k :: 0 <= k < at ==> s.observations[k] < lower
    {
      at := at + 1;
    }
    CountBeforeIs(s.observations, lower, at);
  }

  lemma {:induction false} CountBeforeIs(s: seq<int>, lower: int, n: nat)
    requires n <= |s| && (forall k :: 0 <= k < n ==> s[k] < lower) && (n < |s| ==> s[n] >= lower)
    ensures CountBefore(s, lower) == n
  {
    if n > 0 { CountBeforeIs(s[1..], lower, n - 1); }
  }

  lemma {:induction false} CountBeforeGrows(s: seq<int>, lower: int, higher: int)
    requires lower <= higher
    ensures CountBefore(s, lower) <= CountBefore(s, higher)
  {
    if s != [] { CountBeforeGrows(s[1..], lower, higher); }
  }

  /** Dropping old arrivals moves the pointer back by as many. */
  lemma TrimPointer(env: Env, s: Sender, protocol: string, at: int, reanchor: bool, from: nat, t: int)
    requires PointerOk(env.cfg, s, from, t)
    ensures var n := Trimmed(env, Arrived(env, s, protocol, at, reanchor), at);
      PointerOk(env.cfg, ObserveSender(env, s, protocol, at, reanchor), if from < n then 0 else from - n, t)
  {
    hide Trimmed, ScaleDuration;
    WindowKept(env, s, protocol, at, reanchor);
    var s1 := Arrived(env, s, protocol, at, reanchor);
    var n := Trimmed(env, s1, at);
    var s2 := ObserveSender(env, s, protocol, at, reanchor);
    assert s2.observations == (s.observations + [at])[n..];
    var from' := if from < n then 0 else from - n;
    forall k | 0 <= k < from' ensures s2.observations[k] < t - EffectiveCountWindow(env.cfg, s2) {
      assert s2.observations[k] == s.observations[k + n];
    }
  }

  /** An observation never changes a count window that is in force. */
  lemma WindowKept(env: Env, s: Sender, protocol: string, at: int, reanchor: bool)
    ensures var r := ObserveSender(env, s, protocol, at, reanchor);
      && (EffectiveCountWindow(env.cfg, s) != 0 ==>
          EffectiveCountWindow(env.cfg, r) == EffectiveCountWindow(env.cfg, s))
      && Arrived(env, s, protocol, at, reanchor).observations == s.observations + [at]
  {
    hide Trimmed, ScaleDuration;
  }

  // ---- when the count falls

  /** The greatest of some arrivals. */
  function Highest(s: seq<int>): int
    requires s != []
  {
    if |s| == 1 then s[0] else Max(Highest(s[..|s| - 1]), s[|s| - 1])
  }

  lemma {:induction false} HighestBound(s: seq<int>, lower: int)
    requires s != []
    ensures Highest(s) < lower <==> forall k :: 0 <= k < |s| ==> s[k] < lower
  {
    if |s| > 1 { HighestBound(s[..|s| - 1], lower); }
  }

  /** The pointer has passed `n` arrivals exactly when the first `n` are all too old. */
  lemma {:induction false} CountBeforeOver(s: seq<int>, lower: int, n: nat)
    requires n <= |s|
    ensures CountBefore(s, lower) >= n <==> forall k :: 0 <= k < n ==> s[k] < lower
  {
    if n > 0 {
      CountBeforeOver(s[1..], lower, n - 1);
      assert forall k :: 1 <= k < n ==> s[k] == s[1..][k - 1];
    }
  }

  /** The arrival whose expiry the program asks for. */
  function Expires(s: Sender): int
    requires 0 < EffectiveMinimumCount(s) <= |s.observations|
  {
    s.observations[|s.observations| - EffectiveMinimumCount(s)]
  }

  /** The last instant at which the count is enough: the arrivals up to that one have to
      be gone before it is not, in whatever order they are kept. */
  function Leaves(cfg: Config, s: Sender): int
    requires 0 < EffectiveMinimumCount(s) <= |s.observations|
  {
    Highest(s.observations[..|s.observations| - EffectiveMinimumCount(s) + 1]) + EffectiveCountWindow(cfg, s)
  }

  /** Exactly, whatever the order of the arrivals. */
  lemma EnoughExactly(cfg: Config, s: Sender, t: int)
    requires 0 < EffectiveMinimumCount(s) <= |s.observations|
    ensures InWindow(cfg, s, t) >= EffectiveMinimumCount(s) <==> t <= Leaves(cfg, s)
  {
    var lower, n := t - EffectiveCountWindow(cfg, s), |s.observations| - EffectiveMinimumCount(s) + 1;
    var first := s.observations[..n];
    CountBeforeOver(s.observations, lower, n);
    HighestBound(first, lower);
    assert forall k :: 0 <= k < n ==> first[k] == s.observations[k];
  }

  /** The arrival asked for never leaves after the count falls; in order, it is the one
      with which the count falls. */
  lemma ExpiresLeaves(cfg: Config, s: Sender)
    requires 0 < EffectiveMinimumCount(s) <= |s.observations|
    ensures Expires(s) + EffectiveCountWindow(cfg, s) <= Leaves(cfg, s)
    ensures Ascending(s.observations) ==> Expires(s) + EffectiveCountWindow(cfg, s) == Leaves(cfg, s)
  {
    var n := |s.observations| - EffectiveMinimumCount(s) + 1;
    var first := s.observations[..n];
    assert first[n - 1] == Expires(s);
    HighestBound(first, Expires(s));
    HighestBound(first, Expires(s) + 1);
  }

  ghost predicate Ascending(s: seq<int>)
  {
    forall i, j :: 0 <= i < j < |s| ==> s[i] < s[j]
  }

  // ---- the schedule

  /** The earliest of the instants asked for; 0 stands for none. */
  function Earlier(next: int, now: int, at: int): int
  {
    if at <= now then next else if next == 0 || at < next then at else next
  }

  /** `at` is not before the next check, or never. */
  ghost predicate Beyond(next: int, at: int)
  {
    at > MAX_DURATION || 0 < next <= at
  }

  ghost predicate DeadlineQuiet(s: Sender, next: int)
  {
    s.seen && s.obligationOpen && !s.overdueOpen && EffectiveOverdue(s) > 0 ==> Beyond(next, s.obligationDue)
  }

  predicate Counts(cfg: Config, s: Sender)
  {
    s.seen && EffectiveMinimumCount(s) > 0 && EffectiveCountWindow(cfg, s) > 0
  }

  /** From `t` until the next check the count gives no new verdict: it is not counted,
      or the deficit is open already, or the count does not fall before. */
  ghost predicate CountQuiet(cfg: Config, s: Sender, next: int, t: int)
  {
    var from, minimum := Max(t, EffectiveCountWindow(cfg, s)), EffectiveMinimumCount(s);
    Counts(cfg, s) ==>
      || Beyond(next, from)
      || (s.countOpen && InWindow(cfg, s, from) < minimum)
      || (!s.countOpen && minimum <= |s.observations| && Beyond(next, Leaves(cfg, s) + 1))
  }

  ghost predicate Quiet(cfg: Config, s: Sender, next: int, t: int)
  {
    DeadlineQuiet(s, next) && CountQuiet(cfg, s, next, t)
  }

  /** A check at `t` changes nothing. */
  ghost predicate Idle(cfg: Config, s: Sender, t: int)
  {
    Judge(cfg, s, t, InWindow(cfg, s, t)) == Verdict(s, false, false)
  }

  /** `t` comes before the next check. */
  ghost predicate Before(t: int, next: int)
  {
    t <= MAX_DURATION && 0 <= next && (next > 0 ==> t < next)
  }

  lemma WindowShrinks(cfg: Config, s: Sender, t: int, later: int)
    requires t <= later
    ensures InWindow(cfg, s, later) <= InWindow(cfg, s, t)
  {
    var w := EffectiveCountWindow(cfg, s);
    CountBeforeGrows(s.observations, t - w, later - w);
  }

  /** Quiet stays quiet as time passes. */
  lemma QuietLater(cfg: Config, s: Sender, next: int, t: int, later: int)
    requires Quiet(cfg, s, next, t) && t <= later
    ensures Quiet(cfg, s, next, later)
  {
    hide InWindow, Leaves;
    var w := EffectiveCountWindow(cfg, s);
    WindowShrinks(cfg, s, Max(t, w), Max(later, w));
  }

  /** A check before the scheduled time would find nothing. */
  lemma QuietMeansNothing(cfg: Config, s: Sender, next: int, t: int)
    requires Quiet(cfg, s, next, t) && Before(t, next)
    ensures Idle(cfg, s, t)
  {
    hide InWindow, Leaves;
    if CountsNow(cfg, s, t) && !s.countOpen && EffectiveMinimumCount(s) <= |s.observations| {
      EnoughExactly(cfg, s, t);
    }
  }

  /** And where it is not quiet, some check before the scheduled time finds something. */
  lemma NotQuietMeansSomething(cfg: Config, s: Sender, next: int, t: int) returns (t': int)
    requires !Quiet(cfg, s, next, t) && Before(t, next)
    ensures t <= t' && Before(t', next) && !Idle(cfg, s, t')
  {
    hide InWindow, Leaves;
    if !DeadlineQuiet(s, next) {
      t' := Max(t, s.obligationDue);
    } else {
      var from := Max(t, EffectiveCountWindow(cfg, s));
      t' := from;
      if !s.countOpen {
        if EffectiveMinimumCount(s) <= |s.observations| {
          t' := Max(from, Leaves(cfg, s) + 1);
          EnoughExactly(cfg, s, t');
        }
      }
    }
  }

  /** The instant an open obligation asks for. */
  function AskDeadline(s: Sender, next: int, now: int): int
  {
    if s.seen && s.obligationOpen && EffectiveOverdue(s) > 0 then Earlier(next, now, s.obligationDue) else next
  }

  /** The instant the rolling count asks for. */
  function AskCount(cfg: Config, s: Sender, next: int, now: int, count: nat): int
    requires 0 < EffectiveMinimumCount(s) <= count ==> count <= |s.observations|
  {
    var window, minimum := EffectiveCountWindow(cfg, s), EffectiveMinimumCount(s);
    if !(s.seen && minimum > 0 && window > 0) then next
    else if now < window then Earlier(next, now, window)
    else if count < minimum then next
    else if Expires(s) <= MAX_DURATION - window - 1 then Earlier(next, now, Expires(s) + window + 1)
    else next
  }

  /** The instants one sender asks for after it has been judged. */
  function Ask(cfg: Config, s: Sender, next: int, now: int, count: nat): int
    requires 0 < EffectiveMinimumCount(s) <= count ==> count <= |s.observations|
  {
    AskCount(cfg, s, AskDeadline(s, next, now), now, count)
  }

  ghost predicate NotEarlier(next: int, next': int)
  {
    0 <= next' && forall x :: Beyond(next, x) ==> Beyond(next', x)
  }

  /** The count is enough now. */
  predicate Enough(cfg: Config, s: Sender, now: int)
  {
    CountsNow(cfg, s, now) && InWindow(cfg, s, now) >= EffectiveMinimumCount(s)
  }

  /** The instant asked for lies ahead: the guard under which the program schedules it. */
  predicate Foreseen(cfg: Config, s: Sender, now: int)
  {
    Enough(cfg, s, now) ==> now <= Expires(s) + EffectiveCountWindow(cfg, s)
  }

  /** The next check does not come after the count has fallen. */
  ghost predicate Foretold(cfg: Config, s: Sender, next: int, now: int)
  {
    Enough(cfg, s, now) ==> Beyond(next, Leaves(cfg, s) + 1)
  }

  /** The sender has been judged at `now` and has asked for its instants. */
  ghost predicate Asked(cfg: Config, s: Sender, next: int, now: int)
  {
    && DeadlineQuiet(s, next)
    && (Counts(cfg, s) && now < EffectiveCountWindow(cfg, s) ==> Beyond(next, EffectiveCountWindow(cfg, s)))
    && (CountsNow(cfg, s, now) ==> (s.countOpen <==> InWindow(cfg, s, now) < EffectiveMinimumCount(s)))
    && (Enough(cfg, s, now) && Foreseen(cfg, s, now) ==> Foretold(cfg, s, next, now))
  }

  lemma DeadlineAsked(cfg: Config, s: Sender, next: int, now: int)
    requires 0 <= now && Before(now, next)
    ensures var r := JudgeDeadline(s, now).0; var next' := AskDeadline(r, next, now);
      && DeadlineQuiet(r, next') && NotEarlier(next, next') && Before(now, next')
      && r.observations == s.observations && InWindow(cfg, r, now) == InWindow(cfg, s, now)
  {
  }

  lemma CountAsked(cfg: Config, s: Sender, next: int, now: int)
    requires 0 <= now && Before(now, next) && DeadlineQuiet(s, next)
    ensures var r := JudgeCount(cfg, s, now, InWindow(cfg, s, now)).0;
            var next' := AskCount(cfg, r, next, now, InWindow(cfg, s, now));
      && Asked(cfg, r, next', now) && NotEarlier(next, next') && Before(now, next')
      && InWindow(cfg, r, now) == InWindow(cfg, s, now)
      && forall n :: AskDeadline(r, n, now) == AskDeadline(s, n, now)
  {
    hide Leaves;
    var r := JudgeCount(cfg, s, now, InWindow(cfg, s, now)).0;
    assert InWindow(cfg, r, now) == InWindow(cfg, s, now);
    hide InWindow;
    if 0 < EffectiveMinimumCount(r) <= |r.observations| { ExpiresLeaves(cfg, r); }
  }

  /** A sender that is judged and then asks has asked, whatever the order of its
      arrivals. */
  lemma JudgedAsks(cfg: Config, s: Sender, next: int, now: int)
    requires 0 <= now && Before(now, next)
    ensures var r := Judge(cfg, s, now, InWindow(cfg, s, now)).sender;
            var next' := Ask(cfg, r, next, now, InWindow(cfg, s, now));
      && InWindow(cfg, r, now) == InWindow(cfg, s, now)
      && Asked(cfg, r, next', now) && NotEarlier(next, next') && Before(now, next')
  {
    hide InWindow, JudgeDeadline, JudgeCount, AskDeadline, AskCount, Asked, DeadlineQuiet, Beyond;
    DeadlineAsked(cfg, s, next, now);
    var s1 := JudgeDeadline(s, now).0;
    CountAsked(cfg, s1, AskDeadline(s1, next, now), now);
  }

  lemma AskedStays(cfg: Config, s: Sender, next: int, next': int, now: int)
    requires Asked(cfg, s, next, now) && NotEarlier(next, next')
    ensures Asked(cfg, s, next', now)
  {
    hide InWindow, Leaves, Beyond;
  }

  /** After a check, nothing is missed until the next one exactly if that does not come
      after the count has fallen. */
  lemma AskQuiets(cfg: Config, s: Sender, next: int, now: int)
    requires Asked(cfg, s, next, now) && Before(now, next)
    ensures Quiet(cfg, s, next, now) <==> Foretold(cfg, s, next, now)
  {
    hide InWindow, Leaves;
  }

  lemma QuietForetells(cfg: Config, s: Sender, next: int, now: int)
    requires Quiet(cfg, s, next, now) && Before(now, next)
    ensures Foretold(cfg, s, next, now)
  {
    hide InWindow, Leaves;
  }

  /** Arrivals in order are always foreseen. */
  lemma OrderForesees(cfg: Config, s: Sender, now: int)
    requires Ascending(s.observations)
    ensures Foreseen(cfg, s, now)
  {
    hide InWindow, Leaves, Ascending;
    if Enough(cfg, s, now) {
      EnoughExactly(cfg, s, now);
      ExpiresLeaves(cfg, s);
    }
  }

  /** One sender's rolling count on its own, in whatever order its arrivals are kept: a
      check that finds enough misses no deficit before the instant it asks for, or
      ever if it asks for none, exactly if that instant lies ahead (or the count does
      not fall within the range of the clock). */
  lemma ForeseenExactly(cfg: Config, s: Sender, now: int)
    requires 0 <= now <= MAX_DURATION && Enough(cfg, s, now)
    ensures var r := JudgeCount(cfg, s, now, InWindow(cfg, s, now)).0;
            var next := AskCount(cfg, r, 0, now, InWindow(cfg, s, now));
      (forall t :: now <= t && Before(t, next) ==> !JudgeCount(cfg, r, t, InWindow(cfg, r, t)).1) <==>
      now <= Expires(s) + EffectiveCountWindow(cfg, s) || MAX_DURATION <= Leaves(cfg, s)
  {
    hide Leaves;
    var r := JudgeCount(cfg, s, now, InWindow(cfg, s, now)).0;
    var next := AskCount(cfg, r, 0, now, InWindow(cfg, s, now));
    assert r == s.(countOpen := false) && Leaves(cfg, r) == Leaves(cfg, s) by { LeavesSame(cfg, s, r); }
    assert InWindow(cfg, r, now) == InWindow(cfg, s, now);
    hide InWindow;
    EnoughExactly(cfg, s, now);
    ExpiresLeaves(cfg, s);
    if now <= Expires(s) + EffectiveCountWindow(cfg, s) || MAX_DURATION <= Leaves(cfg, s) {
      forall t | now <= t && Before(t, next) ensures !JudgeCount(cfg, r, t, InWindow(cfg, r, t)).1 {
        EnoughExactly(cfg, r, t);
      }
    } else {
      var t := Leaves(cfg, s) + 1;
      EnoughExactly(cfg, r, t);
      assert now <= t && Before(t, next) && JudgeCount(cfg, r, t, InWindow(cfg, r, t)).1;
    }
  }

  lemma LeavesSame(cfg: Config, s: Sender, r: Sender)
    requires 0 < EffectiveMinimumCount(s) <= |s.observations|
    requires r == s.(countOpen := r.countOpen, countDeficits := r.countDeficits)
    ensures Leaves(cfg, r) == Leaves(cfg, s)
  {
  }
}
