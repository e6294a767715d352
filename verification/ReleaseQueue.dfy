/** The reader's side of the kernel ring: batches are held back for `retain` rounds
    before their slot is handed in, so that the collar may borrow their memory.
    Kernel, reader and device are composed into one system of interleaved steps. */
module ReleaseQueue {
  import opened KernelRing
  import opened Basics

  datatype Phase = Idle | Exchanging | Holding(current: Completion)

  /** The fields of the direct source that take part in the exchange. */
  datatype Reader = Reader(retain: nat, pendingValid: bool, pending: Release, held: seq<Release>, phase: Phase)

  /** Handing back the current batch: it joins the held ones, and the oldest held
      one becomes the release that the next exchange will carry. */
  function ReleaseBatch(u: Reader): (r: (Reader, bool))
    ensures r.1 ==> u.phase.Holding?
  {
    if !u.phase.Holding? then (u, false)
    else
      var current := Release(u.phase.current.sequence, u.phase.current.slot);
      if u.retain == 0 then
        if u.pendingValid then (u, false)
        else (u.(pending := current, pendingValid := true, phase := Idle), true)
      else if |u.held| == u.retain then
        if u.pendingValid then (u, false)
        else (u.(pending := u.held[0], pendingValid := true, held := u.held[1..] + [current], phase := Idle), true)
      else (u.(held := u.held + [current], phase := Idle), true)
  }

  /** The Go source's own storage: a ring of held releases. */
  class DirectSource {
    const retain: nat
    const held: array<Release>
    var heldHead: nat
    var heldCount: nat
    var pendingValid: bool
    var pending: Release
    var currentValid: bool
    var current: Completion
    var exchanging: bool

    ghost predicate Valid()
      reads this
    {
      heldHead < held.Length && heldCount <= retain < held.Length && !(exchanging && currentValid)
    }

    ghost function Held(): seq<Release>
      requires Valid()
      reads this, held
    {
      seq(heldCount, i requires 0 <= i < heldCount && Valid() reads this, held =>
        held[if heldHead + i >= held.Length then heldHead + i - held.Length else heldHead + i])
    }

    ghost function State(): Reader
      requires Valid()
      reads this, held
    {
      Reader(retain, pendingValid, pending, Held(),
             if currentValid then Holding(current) else if exchanging then Exchanging else Idle)
    }

    method ReleaseKernelBatch() returns (ok: bool)
      requires Valid()
      modifies this, held
      ensures Valid() && (State(), ok) == ReleaseBatch(old(State()))
    {
      if !currentValid { return false; }
      ghost var before := Held();
      var released := Release(current.sequence, current.slot);
      if retain == 0 {
        if pendingValid { return false; }
        pending, pendingValid := released, true;
        assert Held() == before;
      } else {
        if heldCount == retain {
          if pendingValid { return false; }
          pending, pendingValid := held[heldHead], true;
          heldHead := heldHead + 1;
          if heldHead == held.Length { heldHead := 0; }
          heldCount := heldCount - 1;
          assert Held() == before[1..];
          assert pending == before[0];
        }
        Push(released);
      }
      ghost var after := Held();
      currentValid := false;
      assert Held() == after;
      ok := true;
    }

    method Push(released: Release)
      requires Valid() && heldCount < retain
      modifies this`heldCount, held
      ensures Valid() && Held() == old(Held()) + [released]
    {
      ghost var before := Held();
      var tail := heldHead + heldCount;
      if tail >= held.Length { tail := tail - held.Length; }
      held[tail] := released;
      heldCount := heldCount + 1;
      forall i | 0 <= i < |before| ensures Held()[i] == before[i] { }
      assert Held()[|before|] == released;
    }

    /** What the next exchange asks the kernel to take back. */
    method BeginExchange() returns (valid: bool, release: Release)
      requires Valid() && !currentValid
      modifies this`exchanging
      ensures Valid() && valid == pendingValid && (valid ==> release == pending)
      ensures State() == old(State()).(phase := Exchanging)
    {
      valid, release, exchanging := pendingValid, pending, true;
    }

    /** The exchange came back with `completion`. */
    method FinishExchange(completion: Completion, blockBytes: nat) returns (ok: bool)
      requires Valid() && exchanging && 0 < blockBytes
      modifies this
      ensures Valid()
      ensures ok <==> (completion.slot < held.Length && completion.length != 0 && completion.length % blockBytes == 0 &&
                       completion.status >= 0)
      ensures State() == old(State()).(pendingValid := false, phase := if ok then Holding(completion) else Idle)
    {
      pendingValid, exchanging := false, false;
      if completion.slot >= held.Length || completion.length == 0 || completion.length % blockBytes != 0 ||
          completion.status < 0 {
        return false;
      }
      current, currentValid, ok := completion, true, true;
    }
  }

  /** A raw block the collar borrows: block `offset` of the batch numbered `sequence`. */
  datatype Borrowed = Borrowed(sequence: nat, slot: nat, offset: nat)

  /** `delivered[s]` is what batch `s` contained when it was claimed; `recorded` are
      all blocks processed; `done` counts those of the current batch. */
  datatype Sys = Sys(ring: Ring, user: Reader, perBatch: nat, done: nat, delivered: seq<seq<Byte>>,
                     recorded: seq<Borrowed>)

  datatype Action = Arrive(slot: nat, data: seq<Byte>) | BeginNext | FinishNext | ProcessBlock | GiveBack

  function ClaimSlot(r: Ring): nat
    requires 0 < |r.slots|
  {
    r.nextClaim % |r.slots|
  }

  ghost predicate Enabled(s: Sys, a: Action)
    requires 0 < |s.ring.slots|
  {
    match a
    case Arrive(i, _) => i < |s.ring.slots| && s.ring.slots[i].state == Inflight
    case BeginNext => s.user.phase == Idle
    case FinishNext => s.user.phase == Exchanging && s.ring.slots[ClaimSlot(s.ring)].state == Ready
    case ProcessBlock => s.user.phase.Holding? && s.done < s.perBatch
    case GiveBack => s.user.phase.Holding? && s.done == s.perBatch
  }

  /** One step, and whether it went without an error, a retry or a full queue. */
  ghost function Step(s: Sys, a: Action): (Sys, bool)
    requires 0 < |s.ring.slots| && Enabled(s, a)
  {
    match a
    case Arrive(i, data) => (s.(ring := Complete(s.ring, i, 0, s.ring.slotBytes, data)), true)
    case BeginNext =>
      if s.user.pendingValid then
        var (ring, result) := ReleaseSlot(s.ring, s.user.pending, 0);
        (s.(ring := ring, user := s.user.(phase := Exchanging)), result == 0)
      else (s.(user := s.user.(phase := Exchanging)), true)
    case FinishNext =>
      var (ring, answer) := Claim(s.ring);
      if answer.Got? then
        (s.(ring := ring, user := s.user.(pendingValid := false, phase := Holding(answer.completion)), done := 0,
            delivered := s.delivered + [ring.slots[ClaimSlot(s.ring)].data]), answer.completion.status >= 0)
      else (s.(ring := ring), false)
    case ProcessBlock =>
      var c := s.user.phase.current;
      (s.(recorded := s.recorded + [Borrowed(c.sequence, c.slot, s.done)], done := s.done + 1), true)
    case GiveBack =>
      var (user, ok) := ReleaseBatch(s.user);
      (s.(user := user), ok)
  }

  /** The number of the oldest batch the reader has not queued for release. */
  function OldestHeld(s: Sys): int
  {
    s.ring.nextClaim - (if s.user.phase.Holding? then 1 else 0) - |s.user.held|
  }

  ghost predicate UserInv(s: Sys)
    requires Inv(s.ring)
  {
    var u, r, n := s.user, s.ring, |s.ring.slots|;
    var first := OldestHeld(s);
    && |u.held| <= u.retain && 0 <= first
    && (forall i :: 0 <= i < |u.held| ==> u.held[i] == Release(first + i, (first + i) % n))
    && (first > 0 ==> |u.held| == u.retain)
    && (match u.phase
        case Idle =>
          if u.pendingValid then r.nextRelease + 1 == first && u.pending == Release(r.nextRelease, r.nextRelease % n)
          else r.nextRelease == first
        case Exchanging => r.nextRelease == first
        case Holding(c) =>
          r.nextRelease == first && !u.pendingValid && c.sequence + 1 == r.nextClaim && c.slot == c.sequence % n)
  }

  /** The memory of every batch still claimed is as it was delivered. */
  ghost predicate DataInv(s: Sys)
    requires Inv(s.ring)
  {
    && |s.delivered| == s.ring.nextClaim
    && forall q :: s.ring.nextRelease <= q < s.ring.nextClaim ==> Intact(s, q)
  }

  ghost predicate Intact(s: Sys, q: nat)
    requires 0 < |s.ring.slots|
  {
    q < |s.delivered| && s.ring.slots[q % |s.ring.slots|].data == s.delivered[q]
  }

  ghost predicate RecordInv(s: Sys)
    requires Inv(s.ring)
  {
    && 0 < s.perBatch && s.done <= s.perBatch
    && (s.user.phase.Holding? ==> |s.recorded| == At(s.user.phase.current.sequence, s.perBatch) + s.done)
    && (!s.user.phase.Holding? ==> |s.recorded| == At(s.ring.nextClaim, s.perBatch))
    && forall t :: 0 <= t < |s.recorded| ==> RecordOk(s, t)
  }

  ghost predicate RecordOk(s: Sys, t: nat)
    requires 0 < |s.ring.slots| && t < |s.recorded|
  {
    var b := s.recorded[t];
    b.offset < s.perBatch && t == At(b.sequence, s.perBatch) + b.offset && b.slot == b.sequence % |s.ring.slots|
  }

  ghost predicate SysInv(s: Sys)
  {
    Inv(s.ring) && Healthy(s.ring) && UserInv(s) && DataInv(s) && RecordInv(s)
  }

  ghost predicate Initial(s: Sys)
  {
    && 0 < |s.ring.slots| && 0 < s.perBatch && s.done == 0 && s.delivered == [] && s.recorded == []
    && s.ring == Started(s.ring.slotBytes, Memory(s.ring.slots))
    && !s.user.pendingValid && s.user.held == [] && s.user.phase == Idle
  }

  lemma InitialInv(s: Sys)
    requires Initial(s)
    ensures SysInv(s)
  {
  }

  lemma ArriveKeeps(s: Sys, i: nat, data: seq<Byte>)
    requires SysInv(s) && Enabled(s, Arrive(i, data))
    ensures SysInv(Step(s, Arrive(i, data)).0)
  {
    CompleteKeeps(s.ring, i, data);
    var s' := Step(s, Arrive(i, data)).0;
    forall q | s.ring.nextRelease <= q < s.ring.nextClaim ensures Intact(s', q) {
      assert Intact(s, q);
      SequenceAt(s.ring, q);
      assert SlotOk(s.ring, q % |s.ring.slots|);
    }
    forall t | 0 <= t < |s'.recorded| ensures RecordOk(s', t) { assert RecordOk(s, t); }
  }

  lemma BeginKeeps(s: Sys)
    requires SysInv(s) && Enabled(s, BeginNext)
    ensures SysInv(Step(s, BeginNext).0) && Step(s, BeginNext).1
  {
    var s' := Step(s, BeginNext).0;
    if s.user.pendingValid { ReleaseKeeps(s.ring, s.user.pending); }
    forall q | s'.ring.nextRelease <= q < s'.ring.nextClaim ensures Intact(s', q) {
      assert Intact(s, q);
      if q % |s.ring.slots| == s.ring.nextRelease % |s.ring.slots| && s.user.pendingValid {
        ModSame(s.ring.nextRelease, q, |s.ring.slots|);
      }
    }
    forall t | 0 <= t < |s'.recorded| ensures RecordOk(s', t) { assert RecordOk(s, t); }
  }

  lemma FinishKeeps(s: Sys)
    requires SysInv(s) && Enabled(s, FinishNext)
    ensures SysInv(Step(s, FinishNext).0) && Step(s, FinishNext).1
    ensures Step(s, FinishNext).0.user.phase ==
            Holding(Completion(|s.delivered|, |s.delivered| % |s.ring.slots|, s.ring.slotBytes, 0))
  {
    ClaimKeeps(s.ring);
    ReadyIsNext(s.ring);
    var s' := Step(s, FinishNext).0;
    forall q | s'.ring.nextRelease <= q < s'.ring.nextClaim ensures Intact(s', q) {
      if q < s.ring.nextClaim { assert Intact(s, q); }
    }
    forall t | 0 <= t < |s'.recorded| ensures RecordOk(s', t) { assert RecordOk(s, t); }
  }

  lemma ProcessKeeps(s: Sys)
    requires SysInv(s) && Enabled(s, ProcessBlock)
    ensures SysInv(Step(s, ProcessBlock).0)
  {
    var s' := Step(s, ProcessBlock).0;
    forall q | s'.ring.nextRelease <= q < s'.ring.nextClaim ensures Intact(s', q) { assert Intact(s, q); }
    forall t | 0 <= t < |s'.recorded| ensures RecordOk(s', t) {
      if t < |s.recorded| { assert RecordOk(s, t); }
    }
  }

  lemma GiveBackKeeps(s: Sys)
    requires SysInv(s) && Enabled(s, GiveBack)
    ensures SysInv(Step(s, GiveBack).0) && Step(s, GiveBack).1
  {
    var s' := Step(s, GiveBack).0;
    forall q | s'.ring.nextRelease <= q < s'.ring.nextClaim ensures Intact(s', q) { assert Intact(s, q); }
    forall t | 0 <= t < |s'.recorded| ensures RecordOk(s', t) { assert RecordOk(s, t); }
  }

  /** A run: any interleaving of enabled steps. */
  ghost predicate Runs(s: Sys, actions: seq<Action>)
    decreases |actions|
  {
    actions == [] || (0 < |s.ring.slots| && Enabled(s, actions[0]) && Runs(Step(s, actions[0]).0, actions[1..]))
  }

  ghost function After(s: Sys, actions: seq<Action>): Sys
    requires Runs(s, actions)
    decreases |actions|
  {
    if actions == [] then s else After(Step(s, actions[0]).0, actions[1..])
  }

  lemma StepKeeps(s: Sys, a: Action)
    requires SysInv(s) && Enabled(s, a)
    ensures SysInv(Step(s, a).0) && Step(s, a).1
  {
    match a
    case Arrive(i, data) => ArriveKeeps(s, i, data);
    case BeginNext => BeginKeeps(s);
    case FinishNext => FinishKeeps(s);
    case ProcessBlock => ProcessKeeps(s);
    case GiveBack => GiveBackKeeps(s);
  }

  /** Under every interleaving the counters, the slots and the held queue agree, and
      no step ever meets a refused release, a retry or an occupied queue. */
  lemma {:induction false} RunsSafely(s: Sys, actions: seq<Action>)
    requires SysInv(s) && Runs(s, actions)
    ensures SysInv(After(s, actions))
    ensures forall k :: 0 <= k < |actions| ==> StepSucceeds(s, actions, k)
    decreases |actions|
  {
    if actions != [] {
      StepKeeps(s, actions[0]);
      RunsSafely(Step(s, actions[0]).0, actions[1..]);
      forall k | 0 <= k < |actions| ensures StepSucceeds(s, actions, k) {
        if k > 0 { assert StepSucceeds(Step(s, actions[0]).0, actions[1..], k - 1); }
      }
    }
  }

  /** Step `k` of the run goes through. */
  ghost predicate StepSucceeds(s: Sys, actions: seq<Action>, k: nat)
    requires k < |actions| && Runs(s, actions)
    decreases k
  {
    if k == 0 then Step(s, actions[0]).1 else StepSucceeds(Step(s, actions[0]).0, actions[1..], k - 1)
  }

  /** What a run never changes. */
  lemma {:induction false} Constant(s: Sys, actions: seq<Action>)
    requires Runs(s, actions)
    ensures var e := After(s, actions); e.user.retain == s.user.retain && e.perBatch == s.perBatch
    decreases |actions|
  {
    if actions != [] { Constant(Step(s, actions[0]).0, actions[1..]); }
  }

  /** From START on, whatever the interleaving, every step goes through, and while a
      batch is processed the borrowed collar is intact. */
  lemma FromStart(s: Sys, actions: seq<Action>, collar: nat)
    requires Initial(s) && Runs(s, actions) && UseBorrowedCollar(At(s.user.retain, s.perBatch), collar)
    ensures forall k :: 0 <= k < |actions| ==> StepSucceeds(s, actions, k)
    ensures var e := After(s, actions);
      && SysInv(e)
      && (e.user.phase.Holding? ==>
            forall t :: |e.recorded| - collar <= t < |e.recorded| && 0 <= t ==> BlockIntact(e, t))
  {
    hide SysInv;
    InitialInv(s);
    RunsSafely(s, actions);
    Constant(s, actions);
    var e := After(s, actions);
    if e.user.phase.Holding? {
      forall t | |e.recorded| - collar <= t < |e.recorded| && 0 <= t ensures BlockIntact(e, t) {
        CollarIntact(e, collar, t);
      }
    }
  }

  /** Block `t` lies in a slot the reader holds, with the bytes it was delivered with. */
  ghost predicate BlockIntact(s: Sys, t: nat)
  {
    t < |s.recorded| &&
    var b := s.recorded[t];
    && b.slot < |s.ring.slots| && b.sequence < |s.delivered|
    && s.ring.slots[b.slot].sequence == b.sequence
    && s.ring.slots[b.slot].state == Claimed
    && s.ring.slots[b.slot].data == s.delivered[b.sequence]
  }

  /** With two slots more than are retained, the slot the reader will wait for is
      always with the device or ready. */
  lemma AlwaysOneComing(s: Sys)
    requires SysInv(s) && |s.ring.slots| >= s.user.retain + 2
    ensures s.ring.slots[ClaimSlot(s.ring)].state in {Inflight, Ready}
    ensures s.ring.slots[ClaimSlot(s.ring)].sequence == s.ring.nextClaim
  {
    NextIsComing(s.ring);
  }

  /** Batches enough for the collar: the least whole number of batches. */
  function RetainBatches(collar: nat, perBatch: nat): (n: nat)
    requires 0 < perBatch
    ensures collar <= At(n, perBatch)
  {
    if collar == 0 then 0 else BlocksCover(collar, perBatch); (collar + perBatch - 1) / perBatch
  }

  /** The source may be borrowed from: it retains at least the collar. */
  predicate UseBorrowedCollar(retainedBlocks: nat, collar: nat)
  {
    retainedBlocks >= collar
  }

  /** While a batch is being processed, every block of the collar still lies in a
      slot that the reader holds under the number it had when it was recorded, with
      the bytes it had then. */
  lemma CollarIntact(s: Sys, collar: nat, t: nat)
    requires SysInv(s) && s.user.phase.Holding?
    requires UseBorrowedCollar(At(s.user.retain, s.perBatch), collar)
    requires |s.recorded| - collar <= t < |s.recorded|
    ensures BlockIntact(s, t)
  {
    var b, r := s.recorded[t], s.ring;
    var current := s.user.phase.current.sequence;
    assert RecordOk(s, t);
    if b.sequence > current { AtApart(current, b.sequence, s.perBatch); }
    if b.sequence < r.nextRelease {
      AtApart(b.sequence, r.nextRelease, s.perBatch);
      AtSum(r.nextRelease, s.user.retain, s.perBatch);
      assert false;
    }
    SequenceAt(r, b.sequence);
    assert SlotOk(r, b.slot);
    assert Intact(s, b.sequence);
  }

  /** The batches the receiver asks the source to retain are enough to borrow the
      whole collar, and no smaller number is. */
  lemma RetainedEnough(collar: nat, perBatch: nat)
    requires 0 < perBatch
    ensures UseBorrowedCollar(At(RetainBatches(collar, perBatch), perBatch), collar)
    ensures forall n: nat :: n < RetainBatches(collar, perBatch) ==> !UseBorrowedCollar(At(n, perBatch), collar)
  {
    var m := RetainBatches(collar, perBatch);
    forall n: nat | n < m ensures At(n, perBatch) < collar {
      BlocksCover(collar, perBatch);
      if n < m - 1 { AtApart(n, m - 1, perBatch); }
    }
  }
}
