/** The receiver's collar over the kernel ring: its entries are slices of mapped memory,
    and what a replay reads there is what was recorded. */
module BorrowedCollar {
  import opened Basics
  import opened KernelRing
  import opened ReleaseQueue
  import opened DutyRuntime

  /** Block `offset` of a batch. */
  function BlockOf(batch: seq<Byte>, offset: nat, blockBytes: nat): (block: seq<Byte>)
    requires At(offset, blockBytes) + blockBytes <= |batch|
    ensures |block| == blockBytes
  {
    batch[At(offset, blockBytes)..At(offset, blockBytes) + blockBytes]
  }

  /** Every batch has its blocks in full. */
  ghost predicate WholeBatches(s: Sys, blockBytes: nat)
  {
    forall q :: 0 <= q < |s.delivered| ==> |s.delivered[q]| == At(s.perBatch, blockBytes)
  }

  /** Block `t` lies within a batch that was delivered. */
  lemma RecordedWithin(s: Sys, blockBytes: nat, t: nat)
    requires SysInv(s) && WholeBatches(s, blockBytes) && t < |s.recorded|
    ensures s.recorded[t].sequence < |s.delivered|
    ensures At(s.recorded[t].offset, blockBytes) + blockBytes <= |s.delivered[s.recorded[t].sequence]|
  {
    var b := s.recorded[t];
    assert RecordOk(s, t);
    if b.sequence >= s.ring.nextClaim {
      if b.sequence > s.ring.nextClaim { AtApart(s.ring.nextClaim, b.sequence, s.perBatch); }
      if s.user.phase.Holding? { AtApart(s.user.phase.current.sequence, s.ring.nextClaim, s.perBatch); }
    }
    AtApart(b.offset, s.perBatch, blockBytes);
  }

  /** Everything the receiver has been given, in order: each block as it was delivered. */
  ghost function BlocksOf(s: Sys, blockBytes: nat): (blocks: seq<seq<Byte>>)
    requires SysInv(s) && WholeBatches(s, blockBytes)
    ensures |blocks| == |s.recorded|
  {
    seq(|s.recorded|, t requires 0 <= t < |s.recorded| && SysInv(s) && WholeBatches(s, blockBytes) =>
      RecordedWithin(s, blockBytes, t);
      BlockOf(s.delivered[s.recorded[t].sequence], s.recorded[t].offset, blockBytes))
  }

  /** A step of the receiver takes its next block from the memory of the batch it holds;
      no other step gives it any. */
  lemma StepFeeds(s: Sys, a: Action, blockBytes: nat)
    requires SysInv(s) && Enabled(s, a) && WholeBatches(s, blockBytes)
    requires SysInv(Step(s, a).0) && WholeBatches(Step(s, a).0, blockBytes)
    ensures a.ProcessBlock? ==>
              && s.user.phase.current.slot < |s.ring.slots|
              && var batch := s.ring.slots[s.user.phase.current.slot].data;
                 At(s.done, blockBytes) + blockBytes <= |batch| &&
                 BlocksOf(Step(s, a).0, blockBytes) == BlocksOf(s, blockBytes) + [BlockOf(batch, s.done, blockBytes)]
    ensures !a.ProcessBlock? ==> BlocksOf(Step(s, a).0, blockBytes) == BlocksOf(s, blockBytes)
  {
    var r := Step(s, a).0;
    if a.ProcessBlock? {
      var c := s.user.phase.current;
      assert Intact(s, c.sequence);
      AtApart(s.done, s.perBatch, blockBytes);
    }
    forall t | 0 <= t < |s.recorded| ensures BlocksOf(r, blockBytes)[t] == BlocksOf(s, blockBytes)[t] {
      RecordedWithin(s, blockBytes, t);
    }
  }

  /** While a batch is being processed, what lies in the memory that a collar entry was
      borrowed from is what the entry recorded. */
  lemma ReplayReads(s: Sys, r: Receiver, blockBytes: nat, k: nat)
    requires SysInv(s) && s.user.phase.Holding? && WholeBatches(s, blockBytes)
    requires r.CollarPart() && r.blocks == BlocksOf(s, blockBytes) && k < r.collarCount
    requires UseBorrowedCollar(At(s.user.retain, s.perBatch), r.collar.Length)
    ensures var t := |r.blocks| - r.collarCount + k;
            var b, e := s.recorded[t], r.collar[EntryIndex(k, r.collarCount, r.collarNext, r.collar.Length)];
      && b.slot < |s.ring.slots| && s.ring.slots[b.slot].state == Claimed
      && At(b.offset, blockBytes) + blockBytes <= |s.ring.slots[b.slot].data|
      && BlockOf(s.ring.slots[b.slot].data, b.offset, blockBytes) == r.blocks[t]
      && (e.rawValid ==> e.data == BlockOf(s.ring.slots[b.slot].data, b.offset, blockBytes))
  {
    var t := |r.blocks| - r.collarCount + k;
    CollarIntact(s, r.collar.Length, t);
    RecordedWithin(s, blockBytes, t);
  }
}
