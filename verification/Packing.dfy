/** Packing eight decisions into a byte, first decision in the high bit, and the
    ring that keeps the packed form of the decision history. */
module Packing {
  import opened Histories

  /** The bit that stands for sample `phase` of a packed byte. */
  function Mask(phase: nat): (m: bv8)
    requires phase < 8
  {
    match phase
    case 0 => 0x80
    case 1 => 0x40
    case 2 => 0x20
    case 3 => 0x10
    case 4 => 0x08
    case 5 => 0x04
    case 6 => 0x02
    case 7 => 0x01
  }

  predicate Bit(b: bv8, phase: nat)
    requires phase < 8
  {
    b & Mask(phase) != 0
  }

  /** Eight decision bytes read as one little-endian word. */
  function Word(d: seq<Decision>): bv64
    requires |d| == 8
  {
    (d[0] as bv64) | ((d[1] as bv64) << 8) | ((d[2] as bv64) << 16) | ((d[3] as bv64) << 24) |
    ((d[4] as bv64) << 32) | ((d[5] as bv64) << 40) | ((d[6] as bv64) << 48) | ((d[7] as bv64) << 56)
  }

  /** One wrapping multiplication moves decision `k` to bit `63 - k`. */
  function PackByte(d: seq<Decision>): bv8
    requires |d| == 8
  {
    ((Word(d) * 0x8040201008040201) >> 56) as bv8
  }

  lemma PackWord(d0: bv64, d1: bv64, d2: bv64, d3: bv64, d4: bv64, d5: bv64, d6: bv64, d7: bv64)
    requires d0 <= 1 && d1 <= 1 && d2 <= 1 && d3 <= 1 && d4 <= 1 && d5 <= 1 && d6 <= 1 && d7 <= 1
    ensures
      ((d0 | (d1 << 8) | (d2 << 16) | (d3 << 24) | (d4 << 32) | (d5 << 40) | (d6 << 48) | (d7 << 56))
       * 0x8040201008040201) >> 56
      == (d0 << 7) | (d1 << 6) | (d2 << 5) | (d3 << 4) | (d4 << 3) | (d5 << 2) | (d6 << 1) | d7
  {
  }

  function Byte8(c0: bv8, c1: bv8, c2: bv8, c3: bv8, c4: bv8, c5: bv8, c6: bv8, c7: bv8): bv8
  {
    (c0 << 7) | (c1 << 6) | (c2 << 5) | (c3 << 4) | (c4 << 3) | (c5 << 2) | (c6 << 1) | c7
  }

  lemma Byte8Bits(c0: bv8, c1: bv8, c2: bv8, c3: bv8, c4: bv8, c5: bv8, c6: bv8, c7: bv8)
    requires c0 <= 1 && c1 <= 1 && c2 <= 1 && c3 <= 1 && c4 <= 1 && c5 <= 1 && c6 <= 1 && c7 <= 1
    ensures var b := Byte8(c0, c1, c2, c3, c4, c5, c6, c7);
      && (Bit(b, 0) <==> c0 == 1) && (Bit(b, 1) <==> c1 == 1) && (Bit(b, 2) <==> c2 == 1) && (Bit(b, 3) <==> c3 == 1)
      && (Bit(b, 4) <==> c4 == 1) && (Bit(b, 5) <==> c5 == 1) && (Bit(b, 6) <==> c6 == 1) && (Bit(b, 7) <==> c7 == 1)
  {
  }

  lemma PackByteIs(d: seq<Decision>)
    requires |d| == 8
    ensures PackByte(d) == Byte8(d[0], d[1], d[2], d[3], d[4], d[5], d[6], d[7])
  {
    PackWord(d[0] as bv64, d[1] as bv64, d[2] as bv64, d[3] as bv64, d[4] as bv64, d[5] as bv64, d[6] as bv64,
             d[7] as bv64);
  }

  lemma PackByteBits(d: seq<Decision>)
    requires |d| == 8
    ensures forall k :: 0 <= k < 8 ==> (Bit(PackByte(d), k) <==> d[k] == 1)
  {
    hide PackByte, Byte8, Bit;
    PackByteIs(d);
    Byte8Bits(d[0], d[1], d[2], d[3], d[4], d[5], d[6], d[7]);
  }

  /** A decision history, eight decisions to a byte. */
  function Pack(view: seq<Decision>): (p: seq<bv8>)
    ensures |p| == |view| / 8
  {
    seq(|view| / 8, i requires 0 <= i < |view| / 8 => PackByte(view[8 * i..8 * i + 8]))
  }

  /** Bit `phase` of packed byte `i` is decision `8 * i + phase`. */
  lemma PackAt(view: seq<Decision>, i: nat, phase: nat)
    requires i < |view| / 8 && phase < 8
    ensures Bit(Pack(view)[i], phase) <==> view[8 * i + phase] == 1
  {
    PackByteBits(view[8 * i..8 * i + 8]);
    assert view[8 * i..8 * i + 8][phase] == view[8 * i + phase];
  }

  lemma SliceOfFirst(a: seq<Decision>, b: seq<Decision>, i: nat)
    requires i + 8 <= |a|
    ensures (a + b)[i..i + 8] == a[i..i + 8]
  {
  }

  lemma SliceOfSecond(a: seq<Decision>, b: seq<Decision>, i: nat)
    requires i + 8 <= |b|
    ensures (a + b)[|a| + i..|a| + i + 8] == b[i..i + 8]
  {
  }

  lemma PackConcat(a: seq<Decision>, b: seq<Decision>)
    requires |a| % 8 == 0
    ensures Pack(a + b) == Pack(a) + Pack(b)
  {
    var n := |a| / 8;
    forall i | 0 <= i < |Pack(a + b)| ensures Pack(a + b)[i] == (Pack(a) + Pack(b))[i] {
      if i < n {
        SliceOfFirst(a, b, 8 * i);
      } else {
        SliceOfSecond(a, b, 8 * (i - n));
      }
    }
  }

  /** Slicing on byte boundaries commutes with packing. */
  lemma PackSlice(view: seq<Decision>, lo: nat, hi: nat)
    requires lo <= hi && 8 * hi <= |view|
    ensures Pack(view[8 * lo..8 * hi]) == Pack(view)[lo..hi]
  {
    hide PackByte;
    var cut := view[8 * lo..8 * hi];
    forall i | 0 <= i < hi - lo ensures Pack(cut)[i] == Pack(view)[lo + i] {
      SliceOfSlice(view, 8 * lo, 8 * hi, 8 * i);
      assert 8 * lo + 8 * i == 8 * (lo + i);
    }
  }

  lemma SliceOfSlice(view: seq<Decision>, from: nat, to: nat, i: nat)
    requires from <= to <= |view| && i + 8 <= to - from
    ensures view[from..to][i..i + 8] == view[from + i..from + i + 8]
  {
    var a, b := view[from..to][i..i + 8], view[from + i..from + i + 8];
    assert |a| == |b| == 8 && forall k :: 0 <= k < 8 ==> a[k] == view[from + i + k] == b[k];
  }

  lemma PackShift(view: seq<Decision>, block: seq<Decision>)
    requires |view| % 8 == 0 && |block| % 8 == 0
    ensures Pack(Shift(view, block)) == Shift(Pack(view), Pack(block))
  {
    var v, b := |view| / 8, |block| / 8;
    PackConcat(view, block);
    PackSlice(view + block, b, v + b);
    assert Shift(view, block) == (view + block)[8 * b..8 * (v + b)];
    assert Shift(Pack(view), Pack(block)) == Pack(view + block)[b..v + b];
  }

  lemma PackZeros(n: nat)
    ensures Pack(Zeros(8 * n, 0)) == Zeros(n, 0)
  {
    forall i | 0 <= i < n ensures Pack(Zeros(8 * n, 0))[i] == 0 {
      var zeros: seq<Decision> := Zeros(8 * n, 0);
      var d := zeros[8 * i..8 * i + 8];
      assert forall k :: 0 <= k < 8 ==> d[k] == zeros[8 * i + k] == 0;
      assert Word(d) == 0;
    }
  }

  /** The portable packer: one byte of `dst[to..]` for every eight decisions. */
  method PackQuantized(dst: array<bv8>, to: nat, src: seq<Decision>)
    requires to + |src| / 8 <= dst.Length
    modifies dst
    ensures dst[to..to + |src| / 8] == Pack(src)
    ensures dst[..to] == old(dst[..to]) && dst[to + |src| / 8..] == old(dst[to + |src| / 8..])
  {
    for b := 0 to |src| / 8
      invariant dst[to..to + b] == Pack(src)[..b]
      invariant dst[..to] == old(dst[..to]) && dst[to + |src| / 8..] == old(dst[to + |src| / 8..])
    {
      dst[to + b] := PackByte(src[8 * b..8 * b + 8]);
    }
  }

  /** Packs the first `8 * dst.Length` decisions of a ring read from `start`,
      in one piece or in two around the physical end. */
  method PackQuantizedRing(dst: array<bv8>, src: seq<Decision>, start: nat)
    requires start < |src| && start % 8 == 0 && |src| % 8 == 0 && 8 * dst.Length <= |src|
    modifies dst
    ensures dst[..] == Pack(Unrolled(src, start))[..dst.Length]
  {
    hide Unrolled, Pack;
    ghost var view := Unrolled(src, start);
    var bitsNeeded := dst.Length * 8;
    var bitsBeforeWrap := |src| - start;
    UnrolledFront(src, start, bitsNeeded);
    if start == 0 {
      PackQuantized(dst, 0, src[..bitsNeeded]);
      assert dst[..] == dst[0..0 + |src[..bitsNeeded]| / 8];
    } else if bitsNeeded <= bitsBeforeWrap {
      PackQuantized(dst, 0, src[start..start + bitsNeeded]);
      assert dst[..] == dst[0..0 + |src[start..start + bitsNeeded]| / 8];
    } else {
      PackTwice(dst, src[start..], src[..bitsNeeded - bitsBeforeWrap]);
    }
    assert view[8 * 0..8 * dst.Length] == view[..bitsNeeded];
    PackSlice(view, 0, dst.Length);
  }

  lemma UnrolledFront(src: seq<Decision>, start: nat, n: nat)
    requires start < |src| && n <= |src|
    ensures Unrolled(src, start)[..n] ==
            if start + n <= |src| then src[start..start + n] else src[start..] + src[..n - (|src| - start)]
  {
  }

  method PackTwice(dst: array<bv8>, before: seq<Decision>, after: seq<Decision>)
    requires |before| % 8 == 0 && |after| % 8 == 0 && |before| + |after| == 8 * dst.Length
    modifies dst
    ensures dst[..] == Pack(before + after)
  {
    var firstBytes := |before| / 8;
    PackQuantized(dst, 0, before);
    assert dst[..firstBytes] == dst[0..0 + |before| / 8];
    PackQuantized(dst, firstBytes, after);
    PackConcat(before, after);
    assert dst[..] == dst[..firstBytes] + dst[firstBytes..firstBytes + |after| / 8];
  }

  lemma KeptOutside(before: seq<bv8>, after: seq<bv8>, at: nat, count: nat)
    requires |before| == |after| && at + count <= |before|
    requires after[..at] == before[..at] && after[at + count..] == before[at + count..]
    ensures forall i :: (0 <= i < at || at + count <= i < |before|) ==> after[i] == before[i]
  {
    forall i | 0 <= i < at || at + count <= i < |before| ensures after[i] == before[i] {
      if i < at {
        assert after[..at][i] == before[..at][i];
      } else {
        assert after[at + count..][i - at - count] == before[at + count..][i - at - count];
      }
    }
  }

  /** The packed decision ring.  A mirror of its first `lookahead` bytes follows
      the physical end, so that both a block write and a search window are
      contiguous wherever they start. */
  class PackedRing {
    const blockBytes: nat
    const packetBytes: nat
    const lookahead: nat
    const backing: array<bv8>
    var start: nat

    function Length(): nat { packetBytes + blockBytes }

    ghost predicate Shape()
      reads this
    {
      && 0 < blockBytes <= lookahead <= Length()
      && backing.Length == Length() + lookahead
      && start < Length()
    }

    ghost predicate Valid()
      reads this, backing
    {
      && Shape()
      && forall i :: 0 <= i < lookahead ==> backing[Length() + i] == backing[i]
    }

    ghost function View(): (v: seq<bv8>)
      requires Shape()
      reads this, backing
      ensures |v| == Length()
    {
      Unrolled(backing[..Length()], start)
    }

    /** The packed history is `v` and starts at physical byte `at`. */
    ghost predicate Holds(v: seq<bv8>, at: nat)
      reads this, backing
    {
      Valid() && View() == v && start == at
    }

    constructor (blockBytes: nat, packetBytes: nat, lookahead: nat)
      requires 0 < blockBytes <= lookahead <= packetBytes + blockBytes
      ensures Holds(Zeros(Length(), 0), 0) && fresh(backing)
      ensures this.blockBytes == blockBytes && this.packetBytes == packetBytes && this.lookahead == lookahead
    {
      this.blockBytes := blockBytes;
      this.packetBytes := packetBytes;
      this.lookahead := lookahead;
      backing := new bv8[packetBytes + blockBytes + lookahead](_ => 0);
      start := 0;
    }

    method Reset()
      requires Valid()
      modifies this, backing
      ensures Holds(Zeros(Length(), 0), 0)
    {
      start := 0;
      forall i | 0 <= i < backing.Length { backing[i] := 0; }
    }

    method NextOutput() returns (nextStart: nat, tail: nat)
      requires Valid()
      ensures nextStart == Wrap(start + blockBytes, Length())
      ensures tail == start && tail + blockBytes <= backing.Length
    {
      nextStart := start + blockBytes;
      if nextStart >= Length() { nextStart := nextStart - Length(); }
      tail := nextStart + packetBytes;
      if tail >= Length() { tail := tail - Length(); }
    }

    /** Completes a direct write of `backing[tail..tail + count]`: the part past
        the physical end is copied to the front, and the mirror is refreshed only
        where the write touched it.  `before` is the backing as it was when
        `NextOutput` answered. */
    method Commit(nextStart: nat, tail: nat, count: nat, ghost before: seq<bv8>)
      requires Shape() && tail == start && count == blockBytes
      requires nextStart == Wrap(start + blockBytes, Length())
      requires |before| == backing.Length
      requires forall i :: 0 <= i < lookahead ==> before[Length() + i] == before[i]
      requires forall i :: (0 <= i < tail || tail + count <= i < backing.Length) ==> backing[i] == before[i]
      modifies this, backing
      ensures Holds(Shift(Unrolled(before[..Length()], old(start)), old(backing[tail..tail + count])), nextStart)
    {
      hide Shift, Unrolled;
      ghost var block := backing[tail..tail + count];
      var end := tail + count;
      if end > Length() {
        Restore(end - Length());
        end := Length();
      }
      RingShift(before[..Length()], backing[..Length()], start, block);
      RefreshMirror(tail, end);
      start := nextStart;
    }

    /** Copies what was written past the physical end to the front. */
    method Restore(overflow: nat)
      requires Shape() && overflow <= lookahead
      modifies backing
      ensures forall i :: 0 <= i < backing.Length ==>
              backing[i] == old(if i < overflow then backing[Length() + i] else backing[i])
    {
      forall i | 0 <= i < overflow { backing[i] := backing[Length() + i]; }
    }

    /** Copies the part of `[tail, end)` that has a mirror image. */
    method RefreshMirror(tail: nat, end: nat)
      requires Shape() && tail <= end <= Length()
      requires forall i :: 0 <= i < lookahead && !(tail <= i < end) ==> backing[Length() + i] == backing[i]
      modifies backing
      ensures Valid() && backing[..Length()] == old(backing[..Length()])
    {
      if tail < lookahead {
        var mirrorEnd := end;
        if mirrorEnd > lookahead { mirrorEnd := lookahead; }
        forall i | tail <= i < mirrorEnd { backing[Length() + i] := backing[i]; }
      }
    }

    /** The packing half of the direct producer: one block, written and committed. */
    method Produce(made: seq<Decision>)
      requires Valid() && |made| == 8 * blockBytes
      modifies this, backing
      ensures Holds(Shift(old(View()), Pack(made)), Wrap(old(start) + blockBytes, Length()))
    {
      hide Shift, Unrolled, Pack;
      ghost var cells := backing[..];
      assert cells[..Length()] == backing[..Length()];
      var next, tail := NextOutput();
      PackQuantized(backing, tail, made);
      KeptOutside(cells, backing[..], tail, blockBytes);
      Commit(next, tail, blockBytes, cells);
    }

    /** The bytes a preamble search may look at, contiguous in storage. */
    method SearchWindow() returns (window: seq<bv8>)
      requires Valid()
      ensures window == View()[..lookahead]
    {
      window := backing[start..start + lookahead];
    }
  }
}
