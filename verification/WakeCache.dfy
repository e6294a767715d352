/** The candidate's wake cache: a remembered answer stands for every later block it
    claims to stand for. */
module WakeCache {
  import opened Basics
  import opened SchedulerModel

  lemma CeilBounds(a: int, b: int)
    requires 0 < b
    ensures (CeilDiv(a, b) - 1) * b < a <= CeilDiv(a, b) * b
  {
    var q := (-a) / b;
    assert -a == b * q + (-a) % b;
    assert CeilDiv(a, b) * b == -(b * q) && (CeilDiv(a, b) - 1) * b == -(b * q) - b;
  }

  /** The end of the first window that ends at or after `start`, for window `k`. */
  function Closes(m: Model, k: int): int
  {
    m.anchor + k * m.period + m.postWake
  }

  function FirstWindow(m: Model, start: int): int
    requires 0 < m.period
  {
    CeilDiv(start - m.postWake - m.anchor, m.period)
  }

  lemma FirstCloses(m: Model, start: int)
    requires 0 < m.period
    ensures start <= Closes(m, FirstWindow(m, start)) < start + m.period
  {
    var k := FirstWindow(m, start);
    CeilBounds(start - m.postWake - m.anchor, m.period);
    assert (k - 1) * m.period == k * m.period - m.period;
  }

  /** Only one window ends within a given period. */
  lemma OnlyWindow(m: Model, start: int, k: int)
    requires 0 < m.period && start <= Closes(m, k) < start + m.period
    ensures k == FirstWindow(m, start)
  {
    var f := FirstWindow(m, start);
    FirstCloses(m, start);
    assert m.period * (k - f) == k * m.period - f * m.period == Closes(m, k) - Closes(m, f);
    NoMultipleBetween(m.period, k - f);
  }

  lemma NextCloses(m: Model, k: int)
    ensures Closes(m, k + 1) == Closes(m, k) + m.period
  {
    assert (k + 1) * m.period == k * m.period + m.period;
  }

  ghost predicate WidthOk(m: Model)
  {
    0 <= m.preWake && 0 <= m.postWake
  }

  predicate Past(w: Instant, t: int)
  {
    w.Infinity? || w.t > t
  }

  predicate NotBefore(w: Instant, t: int)
  {
    w.Infinity? || w.t >= t
  }

  lemma WindowIs(m: Model, start: int, end: int)
    requires m.learned && 0 < m.period
    ensures var closes := Closes(m, FirstWindow(m, start)); var opens := closes - m.postWake - m.preWake;
      AwakeWindow(m, start, end) ==
        if opens < end && closes > start then Window(true, Time(closes), Infinity)
        else Window(false, Time(0), Time(if closes <= start then opens + m.period else opens))
  {
  }

  /** A window that keeps a sender awake beyond `s` keeps it awake in every later
      block up to there. */
  lemma StaysAwake(m: Model, s0: int, e0: int, s: int, e: int)
    requires WidthOk(m) && s0 < e0 <= s < e
    requires AwakeWindow(m, s0, e0).awake && Past(AwakeWindow(m, s0, e0).wakeUntil, s)
    ensures AwakeWindow(m, s, e).awake
  {
    hide FirstWindow, Closes, AwakeWindow;
    if m.learned && m.period > 0 {
      WindowIs(m, s0, e0);
      WindowIs(m, s, e);
      FirstCloses(m, s0);
      OnlyWindow(m, s, FirstWindow(m, s0));
    } else {
      Unlearned(m, s, e);
    }
  }

  lemma Unlearned(m: Model, s: int, e: int)
    requires !m.learned || m.period <= 0
    ensures AwakeWindow(m, s, e) == Window(true, Infinity, Infinity)
  {
  }

  /** A sleeping sender sleeps on until the window that was foreseen. */
  lemma StaysAsleep(m: Model, s0: int, e0: int, s: int, e: int)
    requires WidthOk(m) && s0 < e0 <= s < e
    requires !AwakeWindow(m, s0, e0).awake && NotBefore(AwakeWindow(m, s0, e0).nextWake, e)
    ensures !AwakeWindow(m, s, e).awake
  {
    hide FirstWindow, Closes, AwakeWindow;
    if m.learned && m.period > 0 {
      WindowIs(m, s0, e0);
      WindowIs(m, s, e);
      FirstCloses(m, s0);
      var k := FirstWindow(m, s0);
      NextCloses(m, k);
      OnlyWindow(m, s, if Closes(m, k) > s0 then k else k + 1);
    } else {
      Unlearned(m, s0, e0);
    }
  }

  /** Window `k` meets the block. */
  ghost predicate Meets(m: Model, start: int, end: int, k: int)
  {
    Closes(m, k) - m.postWake - m.preWake < end && Closes(m, k) > start
  }

  /** A sender is awake exactly when some periodic window meets the block, except
      when a window ends exactly where the block starts and the next one already
      reaches into the block. */
  lemma AwakeIffMeets(m: Model, start: int, end: int)
    requires WidthOk(m) && m.learned && 0 < m.period && start < end
    ensures (AwakeWindow(m, start, end).awake <==> exists k :: Meets(m, start, end, k))
       <==> !((start - m.postWake - m.anchor) % m.period == 0 && m.period < m.preWake + m.postWake + (end - start))
  {
    hide AwakeWindow, FirstWindow;
    var f := FirstWindow(m, start);
    WindowIs(m, start, end);
    FirstCloses(m, start);
    NextCloses(m, f);
    TouchIsDivisible(m, start);
    if Meets(m, start, end, f) {
    } else if Meets(m, start, end, f + 1) {
    } else {
      forall k ensures !Meets(m, start, end, k) { FarWindow(m, start, end, f, k); }
    }
  }

  /** What the test misses: a window meets a block it calls asleep exactly when one
      window ends where the block starts and the next one reaches into it. */
  lemma MissedWindow(m: Model, start: int, end: int)
    requires WidthOk(m) && m.learned && 0 < m.period && start < end && !AwakeWindow(m, start, end).awake
    ensures (exists k :: Meets(m, start, end, k))
       <==> ((start - m.postWake - m.anchor) % m.period == 0 && m.period < m.preWake + m.postWake + (end - start))
  {
    hide AwakeWindow, Meets;
    AwakeIffMeets(m, start, end);
  }

  /** It happens: a period of ten with windows of eleven. */
  lemma WindowIsMissed()
    ensures var m := NEW_MODEL.(learned := true, period := 10, preWake := 6, postWake := 5);
      !AwakeWindow(m, 5, 6).awake && Meets(m, 5, 6, 1)
  {
  }

  lemma FarWindow(m: Model, start: int, end: int, f: int, k: int)
    requires 0 < m.period && start <= Closes(m, f) < start + m.period
    requires !Meets(m, start, end, f) && !Meets(m, start, end, f + 1)
    ensures !Meets(m, start, end, k)
  {
    NextCloses(m, f);
    if k < f {
      var d := f - k - 1;
      assert f * m.period == k * m.period + m.period + d * m.period;
      assert 0 <= d * m.period;
    } else if k > f + 1 {
      var d := k - f - 2;
      assert k * m.period == f * m.period + 2 * m.period + d * m.period;
      assert 0 <= d * m.period;
      assert (f + 1) * m.period == f * m.period + m.period;
    }
  }

  lemma TouchIsDivisible(m: Model, start: int)
    requires 0 < m.period
    ensures Closes(m, FirstWindow(m, start)) == start <==> (start - m.postWake - m.anchor) % m.period == 0
  {
    var a, k, n := start - m.postWake - m.anchor, FirstWindow(m, start), m.period;
    CeilBounds(a, n);
    assert (k - 1) * n == k * n - n;
    var q := a / n;
    assert a == n * q + a % n;
    assert n * (k - q) == k * n - n * q;
    if k * n == a { NoMultipleBetween(n, k - q); }
    if a % n == 0 { NoMultipleBetween(n, k - q); }
  }

  // ---- the cache

  datatype Cache = Cache(eligibilityDirty: bool, eligibleCached: bool, wakeValid: bool, wakeUntil: Instant,
                         nextWake: Instant)

  const FRESH := Cache(true, false, false, Time(0), Time(0))

  function Invalidate(c: Cache): Cache
  {
    c.(eligibilityDirty := true, wakeValid := false, wakeUntil := Time(0), nextWake := Time(0))
  }

  /** What the remembered instants say holds for every block from `t` on. */
  ghost predicate WakeOk(c: Cache, models: seq<Model>, t: int)
  {
    forall s, e {:trigger Awake(models, s, e)} :: t <= s < e ==>
      (Past(c.wakeUntil, s) ==> Awake(models, s, e)) &&
      (c.wakeUntil == Time(0) && NotBefore(c.nextWake, e) ==> !Awake(models, s, e))
  }

  ghost predicate CacheOk(c: Cache, models: seq<Model>, t: int)
  {
    (!c.eligibilityDirty ==> (c.eligibleCached <==> AllLearned(models))) && (c.wakeValid ==> WakeOk(c, models, t))
  }

  ghost predicate WidthsOk(models: seq<Model>)
  {
    forall i :: 0 <= i < |models| ==> WidthOk(models[i])
  }

  lemma InvalidOk(c: Cache, models: seq<Model>, t: int)
    ensures CacheOk(Invalidate(c), models, t) && CacheOk(FRESH, models, t)
  {
  }

  lemma LaterOk(c: Cache, models: seq<Model>, before: int, after: int)
    requires CacheOk(c, models, before) && before <= after
    ensures CacheOk(c, models, after)
  {
  }

  lemma LearnedOk(c: Cache, models: seq<Model>, t: int)
    requires CacheOk(c, models, t)
    ensures CacheOk(c.(eligibilityDirty := false, eligibleCached := AllLearned(models)), models, t)
  {
  }

  /** The candidate's `allLearned`: the flag is recomputed only when dirty. */
  method ConsultLearned(c: Cache, models: seq<Model>) returns (learned: bool, c': Cache)
    requires !c.eligibilityDirty ==> (c.eligibleCached <==> AllLearned(models))
    ensures learned == AllLearned(models)
    ensures c' == c.(eligibilityDirty := false, eligibleCached := learned)
  {
    if !c.eligibilityDirty { return c.eligibleCached, c; }
    learned := true;
    for i := 0 to |models|
      invariant learned && forall j :: 0 <= j < i ==> models[j].learned
    {
      if !models[i].learned { learned := false; break; }
    }
    c' := c.(eligibilityDirty := false, eligibleCached := learned);
  }

  /** `until` is where some awake sender's window ends. */
  ghost predicate FromWindow(models: seq<Model>, start: int, end: int, until: Instant)
  {
    exists j :: 0 <= j < |models| && AwakeWindow(models[j], start, end).awake &&
        AwakeWindow(models[j], start, end).wakeUntil == until
  }

  /** The candidate's `awakeDuring`: answers from the cache where it can, and
      otherwise asks every sender and remembers the outcome. */
  method ConsultAwake(c: Cache, models: seq<Model>, start: int, end: int) returns (awake: bool, c': Cache)
    requires WidthsOk(models) && 0 <= start < end && CacheOk(c, models, start)
    ensures awake == Awake(models, start, end)
    ensures CacheOk(c', models, end)
  {
    if c.wakeValid {
      assert WakeOk(c, models, start);
      assert Awake(models, start, end) || !Awake(models, start, end);
      LaterOk(c, models, start, end);
      if Past(c.wakeUntil, start) { return true, c; }
      if c.wakeUntil == Time(0) && NotBefore(c.nextWake, end) { return false, c; }
    }
    var until, next := Time(0), Infinity;
    awake := false;
    for i := 0 to |models|
      invariant awake <==> exists j :: 0 <= j < i && AwakeWindow(models[j], start, end).awake
      invariant !awake ==> until == Time(0)
      invariant awake ==> Past(until, start) && FromWindow(models[..i], start, end, until)
      invariant forall j :: 0 <= j < i && !AwakeWindow(models[j], start, end).awake ==>
        !Past(next, AwakeWindow(models[j], start, end).nextWake.t)
    {
      var w := AwakeWindow(models[i], start, end);
      assert models[..i + 1] == models[..i] + [models[i]];
      if w.awake {
        if w.wakeUntil.Infinity? || (!until.Infinity? && w.wakeUntil.t > until.t) { until := w.wakeUntil; }
        awake := true;
      } else if next.Infinity? || w.nextWake.t < next.t {
        next := w.nextWake;
      }
    }
    assert models[..|models|] == models;
    c' := c.(wakeValid := true, wakeUntil := until, nextWake := next);
    Remember(c', models, start, end, awake);
  }

  /** The instants computed for one block are right for all later ones. */
  lemma Remember(c: Cache, models: seq<Model>, start: int, end: int, awake: bool)
    requires WidthsOk(models) && 0 <= start < end && awake == Awake(models, start, end)
    requires !awake ==> c.wakeUntil == Time(0)
    requires awake ==> Past(c.wakeUntil, start) && FromWindow(models, start, end, c.wakeUntil)
    requires forall j :: 0 <= j < |models| && !AwakeWindow(models[j], start, end).awake ==>
      !Past(c.nextWake, AwakeWindow(models[j], start, end).nextWake.t)
    ensures WakeOk(c, models, end)
  {
    hide AwakeWindow;
    assert c.wakeUntil == Time(0) ==> !Past(c.wakeUntil, start) && !Past(c.wakeUntil, end);
    assert awake <==> c.wakeUntil != Time(0);
    forall s, e | end <= s < e
      ensures Past(c.wakeUntil, s) ==> Awake(models, s, e)
      ensures c.wakeUntil == Time(0) && NotBefore(c.nextWake, e) ==> !Awake(models, s, e)
    {
      if Past(c.wakeUntil, s) {
        var j :| 0 <= j < |models| && AwakeWindow(models[j], start, end).awake &&
            AwakeWindow(models[j], start, end).wakeUntil == c.wakeUntil;
        StaysAwake(models[j], start, end, s, e);
      }
      if c.wakeUntil == Time(0) && NotBefore(c.nextWake, e) {
        forall j | 0 <= j < |models| ensures !AwakeWindow(models[j], s, e).awake {
          StaysAsleep(models[j], start, end, s, e);
        }
      }
    }
  }
}
