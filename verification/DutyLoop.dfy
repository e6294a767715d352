/** Clock, scheduler and receiver together: one call for each block of input. */
module DutyLoop {
  import opened Basics
  import opened Histories
  import opened PowerHistory
  import opened DutyRuntime
  import opened Power16Decoder
  import opened Search
  import opened DecoderSearch
  import SampleClock
  import SchedulerModel
  import SchedulerSound
  import Scheduler
  import SchedulerRuns
  import SleepDecision
  import Checkpoint

  /** Every block ends later than it starts. */
  lemma ClockMoves(n: nat, blockSamples: nat, sampleRate: nat)
    requires 0 < sampleRate <= blockSamples * SampleClock.SECOND
    ensures var start := SampleClock.Exact(n, blockSamples, sampleRate).time;
      0 <= start < SampleClock.Exact(n + 1, blockSamples, sampleRate).time
  {
    var r := SampleClock.Exact(n, blockSamples, sampleRate);
    SampleClock.ExactStep(n, blockSamples, sampleRate);
    SampleClock.SplitExact(n, blockSamples, sampleRate);
    SampleClock.QuotientBound(blockSamples * SampleClock.SECOND + r.remainder, sampleRate, 1);
  }

  /** A block that continues the stream is decided without a discontinuity. */
  lemma Contiguous(env: SchedulerModel.Env, s: SchedulerModel.Core, start: int, end: int, check: bool)
    requires SchedulerSound.Sound(env, s) && SchedulerModel.Continues(s, start, end)
    ensures SchedulerModel.Tightenable(s)
    ensures var (t, d) := SchedulerSound.AdvanceWith(env, s, start, end, check);
      && t.lastEnd == end && t.discontinuities == s.discontinuities &&
         (env.cfg.mode != SchedulerModel.Gated ==> d.decode)
      && (!d.decode <==> SchedulerRuns.Justified(env, t, start, end) && !t.auditActive)
  {
    hide SchedulerSound.Sound, SchedulerSound.Shape, SchedulerSound.SettleWith, SchedulerModel.Decide,
         SchedulerModel.Tightenable;
    SchedulerSound.SoundShape(env, s);
    SchedulerSound.SoundUsable(env, s);
    SchedulerSound.SettleSound(env, s, start, end, check);
    var r := SchedulerSound.SettleWith(env, s, start, end, check);
    SchedulerSound.SoundShape(env, r);
    SchedulerSound.DecideSound(env, r, end);
    SleepDecision.SkipExactly(env, s, start, end, check);
  }

  lemma ReceiverParts(r: Receiver)
    requires r.Valid()
    ensures r.d.Valid() && r.d.g == r.g && r.d.view == DecisionHistory(r.g, r.d.stream)
  {
  }

  class DutyLoop {
    const clock: SampleClock.Clock
    const scheduler: Scheduler.Scheduler
    const receiver: Receiver

    ghost function Repr(): set<object>
      reads this
    {
      {clock, scheduler, receiver, receiver.collar} + receiver.d.Repr()
    }

    /** The parts share nothing. */
    ghost predicate Apart()
    {
      && clock as object != scheduler && clock as object != receiver && clock as object != receiver.collar &&
         clock as object !in receiver.d.Repr()
      && scheduler as object != receiver && scheduler as object != receiver.collar &&
         scheduler as object !in receiver.d.Repr()
    }

    /** Blocks last at least a nanosecond; the scheduler's clock is the sample clock. */
    ghost predicate Valid()
      reads clock, scheduler, receiver, receiver.collar, receiver.d.Repr()
    {
      && Apart() && clock.Valid() && scheduler.Sound() && receiver.Valid()
      && clock.blockSamples == receiver.g.blockSize && clock.sampleRate <= clock.blockSamples * SampleClock.SECOND
      && (receiver.gated <==> scheduler.env.cfg.mode == SchedulerModel.Gated)
      && scheduler.core.lastEnd == clock.sampleTime
    }

    constructor (clock: SampleClock.Clock, scheduler: Scheduler.Scheduler, receiver: Receiver)
      requires clock.Valid() && scheduler.Sound() && receiver.Valid()
      requires clock.blockSamples == receiver.g.blockSize && clock.sampleRate <= clock.blockSamples * SampleClock.SECOND
      requires receiver.gated <==> scheduler.env.cfg.mode == SchedulerModel.Gated
      requires scheduler.core.lastEnd == clock.sampleTime
      requires clock as object != scheduler && clock as object != receiver && clock as object != receiver.collar &&
               clock as object !in receiver.d.Repr()
      requires scheduler as object != receiver && scheduler as object != receiver.collar &&
               scheduler as object !in receiver.d.Repr()
      ensures Valid() && this.clock == clock && this.scheduler == scheduler && this.receiver == receiver
    {
      hide Decoder.Valid, Receiver.Valid, Scheduler.Scheduler.Sound, SampleClock.Clock.Valid;
      this.clock, this.scheduler, this.receiver := clock, scheduler, receiver;
    }

    /** One block of input.  The stream is never seen as interrupted; a block is
        skipped only with justification; and a decoded block leaves the histories of
        a decoder that was never asleep, so that any preamble is found where that
        decoder would find it. */
    method Process(block: seq<Byte>, preamble: seq<Decision>) returns (d: SchedulerModel.Decision, indices: seq<nat>)
      requires Valid() && |block| == 2 * receiver.g.blockSize && Fits(receiver.g, preamble)
      requires SampleClock.Exact(clock.blocks + 1, clock.blockSamples, clock.sampleRate).time
               <= SchedulerModel.MAX_DURATION
      modifies clock, scheduler, receiver, receiver.collar, receiver.d.Repr()
      ensures Valid() && (old(scheduler.Valid()) ==> scheduler.Valid())
      ensures clock.blocks == old(clock.blocks) + 1 && receiver.blocks == old(receiver.blocks) + [block]
      ensures scheduler.core.discontinuities == old(scheduler.core.discontinuities)
      ensures receiver.flags == old(receiver.flags) + [d.decode]
      ensures var env, core := scheduler.env, scheduler.core;
        !d.decode <==> SchedulerRuns.Justified(env, core, old(clock.sampleTime), clock.sampleTime) && !core.auditActive
      ensures d.decode ==> Ascending(indices) && forall q: nat :: q in indices <==>
        Found(receiver.g, receiver.d.direct, DecisionHistory(receiver.g, StreamOf(receiver.blocks)), preamble, q)
      ensures d.decode && !Loses(preamble, receiver.g.Symbol()) ==>
        indices == Hits(DecisionHistory(receiver.g, StreamOf(receiver.blocks)), preamble, receiver.g.Symbol(),
                        receiver.g.blockSize)
    {
      hide Decoder.Valid, Receiver.Valid, DecisionHistory, Scheduler.Scheduler.Sound, SampleClock.Clock.Valid,
           SampleClock.Exact, SchedulerRuns.Justified, Hits, Found, Loses;
      d := NextDecision();
      var ok := receiver.ProcessBlock(block, d.decode);
      indices := [];
      if d.decode {
        ReceiverParts(receiver);
        indices := SearchPreamble(receiver.d, preamble);
      }
    }

    /** The clock gives the block its interval, the scheduler its verdict. */
    method NextDecision() returns (d: SchedulerModel.Decision)
      requires Valid()
      requires SampleClock.Exact(clock.blocks + 1, clock.blockSamples, clock.sampleRate).time
               <= SchedulerModel.MAX_DURATION
      modifies clock, scheduler
      ensures clock.Valid() && clock.blocks == old(clock.blocks) + 1
      ensures scheduler.Sound() && (old(scheduler.Valid()) ==> scheduler.Valid())
      ensures scheduler.core.lastEnd == clock.sampleTime
      ensures scheduler.core.discontinuities == old(scheduler.core.discontinuities)
      ensures scheduler.env.cfg.mode != SchedulerModel.Gated ==> d.decode
      ensures var env, core := scheduler.env, scheduler.core;
        !d.decode <==> SchedulerRuns.Justified(env, core, old(clock.sampleTime), clock.sampleTime) && !core.auditActive
    {
      hide Receiver.Valid, Scheduler.Scheduler.CachesAt, Scheduler.Scheduler.PointersAt, Scheduler.Scheduler.QuietAt,
           SampleClock.Exact, SchedulerSound.AdvanceWith, SchedulerRuns.Justified, SchedulerSound.Sound,
           SchedulerModel.Tightenable;
      ClockMoves(clock.blocks, clock.blockSamples, clock.sampleRate);
      ghost var env, before := scheduler.env, scheduler.core;
      var start, end := clock.BeginBlock();
      Contiguous(env, before, start, end, scheduler.ChecksAt(end));
      d := scheduler.Advance(start, end);
    }

    /** A message found in a block that has been handled, live or on replay. */
    method Report(id: nat, protocol: string, at: int, replayed: bool)
      requires Valid()
      modifies scheduler
      ensures Valid() && (old(scheduler.Valid()) ==> scheduler.Valid())
      ensures SchedulerModel.Consistent(old(scheduler.core)) &&
              scheduler.core == SchedulerModel.Observe(scheduler.env, old(scheduler.core),
                                                       SchedulerModel.Arrival(id, protocol, at, replayed))
    {
      hide Decoder.Valid, Receiver.Valid, Scheduler.Scheduler.CachesAt, Scheduler.Scheduler.PointersAt,
           Scheduler.Scheduler.QuietAt, SampleClock.Exact, SchedulerModel.Observe, SchedulerModel.Consistent,
           SchedulerSound.Sound;
      ghost var env, before := scheduler.env, scheduler.core;
      SchedulerSound.SoundShape(env, before);
      SchedulerSound.SoundUsable(env, before);
      SchedulerSound.ObserveSound(env, before, SchedulerModel.Arrival(id, protocol, at, replayed));
      scheduler.Observe(id, protocol, at, replayed);
    }
  }
  /** Going on from a checkpoint: the scheduler's state and the number of blocks seen so
      far.  It is refused unless the state is accepted and its clock is that of the
      blocks; after that everything `Process` says holds. */
  method Resume(scheduler: Scheduler.Scheduler, st: Checkpoint.State, blocks: nat, remainder: int, sampleRate: int,
      receiver: Receiver) returns (loop: DutyLoop?)
    requires SchedulerModel.ValidConfig(scheduler.env.cfg) && receiver.Valid()
    requires receiver.gated <==> scheduler.env.cfg.mode == SchedulerModel.Gated
    requires sampleRate <= receiver.g.blockSize * SampleClock.SECOND
    requires scheduler as object != receiver && scheduler as object != receiver.collar &&
             scheduler as object !in receiver.d.Repr()
    modifies scheduler
    ensures loop != null <==>
              && st.config == scheduler.env.cfg && Checkpoint.Accepted(scheduler.env.cfg, st)
              && SampleClock.Claims(SampleClock.Reading(st.lastEnd, remainder), blocks, receiver.g.blockSize,
                                    sampleRate)
    ensures loop != null ==>
              && fresh(loop) && loop.Valid() && loop.scheduler == scheduler && loop.receiver == receiver
              && loop.clock.blocks == blocks && scheduler.QuietAt(scheduler.core.lastEnd)
              && scheduler.core == SchedulerModel.PrepareResume(Checkpoint.Applied(scheduler.env, st))
  {
    hide Checkpoint.Accepted, Checkpoint.Applied, Receiver.Valid, SchedulerSound.Sound, SampleClock.Exact,
         SampleClock.Fits, SchedulerSound.AllRegular, Checkpoint.RecordsRegular;
    var clock := SampleClock.RestoreClock(blocks, receiver.g.blockSize, sampleRate,
                                          SampleClock.Reading(st.lastEnd, remainder));
    var ok := Checkpoint.RestoreState(scheduler, st);
    if !ok || clock == null { return null; }
    Checkpoint.RestoredSound(scheduler.env, st);
    scheduler.PrepareResume();
    loop := new DutyLoop(clock, scheduler, receiver);
  }
}
