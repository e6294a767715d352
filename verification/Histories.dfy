/** The decoder's three ring buffers and the one idea they implement: the last
    `n` samples of an unbounded stream.  The decision ring and the packed ring
    come in the direct-write form (a producer fills one contiguous block that may
    run past the physical end of the ring) and, for the decisions, in the copying
    form as well. */
module Histories {

  /** The history `view` after `block` has arrived: the oldest samples fall out. */
  function Shift<T>(view: seq<T>, block: seq<T>): (r: seq<T>)
    ensures |r| == |view|
  {
    (view + block)[|block|..]
  }

  function Zeros<T>(n: nat, zero: T): (r: seq<T>)
    ensures |r| == n && forall i :: 0 <= i < n ==> r[i] == zero
  {
    seq(n, _ => zero)
  }

  /** The last `n` samples of a stream that is preceded by silence. */
  function Tail<T>(stream: seq<T>, n: nat, zero: T): (r: seq<T>)
    ensures |r| == n
  {
    (Zeros(n, zero) + stream)[|stream|..]
  }

  lemma TailShift<T>(stream: seq<T>, block: seq<T>, n: nat, zero: T)
    ensures Shift(Tail(stream, n, zero), block) == Tail(stream + block, n, zero)
  {
    assert (Zeros(n, zero) + stream) + block == Zeros(n, zero) + (stream + block);
  }

  /** A ring index that has run past the end at most once. */
  function Wrap(i: nat, n: nat): nat
  {
    if i >= n then i - n else i
  }

  /** A ring of cells read from `start` on. */
  function Unrolled<T>(ring: seq<T>, start: nat): (r: seq<T>)
    requires start <= |ring|
    ensures |r| == |ring|
  {
    ring[start..] + ring[..start]
  }

  /** `after` is `before` with `block` written from `at` on, wrapping once. */
  ghost predicate Overwritten<T>(before: seq<T>, after: seq<T>, at: nat, block: seq<T>)
    requires |before| == |after| && at < |before| && |block| <= |before|
  {
    && (forall k :: 0 <= k < |block| ==> after[Wrap(at + k, |before|)] == block[k])
    && (forall i :: 0 <= i < |before| && !(at <= i < at + |block|) && !(i < at + |block| - |before|) ==>
        after[i] == before[i])
  }

  /** Overwriting the oldest cells and advancing the start shifts the history. */
  lemma RingShift<T>(before: seq<T>, after: seq<T>, start: nat, block: seq<T>)
    requires |before| == |after| && start < |before| && |block| <= |before|
    requires Overwritten(before, after, start, block)
    ensures Unrolled(after, Wrap(start + |block|, |before|)) == Shift(Unrolled(before, start), block)
  {
    var n, b := |before|, |block|;
    var next := Wrap(start + b, n);
    var was, now := Unrolled(before, start), Unrolled(after, next);
    forall j | 0 <= j < n ensures now[j] == Shift(was, block)[j] {
      assert now[j] == after[Wrap(next + j, n)];
      if j + b < n {
        assert Shift(was, block)[j] == was[j + b] == before[Wrap(start + j + b, n)];
      } else {
        var k := j + b - n;
        assert Shift(was, block)[j] == block[k];
        assert Wrap(next + j, n) == Wrap(start + k, n);
      }
    }
  }

  /** One binary decision per byte. */
  type Decision = b: bv8 | b <= 1

  /** `Decoder.Quantized` together with the block-sized extension behind it. */
  class DecisionRing {
    const blockSize: nat
    const packetLength: nat
    const backing: array<Decision>
    var start: nat

    ghost predicate Valid()
      reads this
    {
      0 < blockSize && backing.Length == Length() + blockSize && start < Length()
    }

    function Length(): nat { packetLength + blockSize }

    ghost function View(): (v: seq<Decision>)
      requires Valid()
      reads this, backing
      ensures |v| == Length()
    {
      Unrolled(backing[..Length()], start)
    }

    /** The history is `v` and starts at physical cell `at`. */
    ghost predicate Holds(v: seq<Decision>, at: nat)
      reads this, backing
    {
      Valid() && View() == v && start == at
    }

    constructor (blockSize: nat, packetLength: nat)
      requires 0 < blockSize
      ensures Holds(Zeros(Length(), 0), 0) && fresh(backing)
      ensures this.blockSize == blockSize && this.packetLength == packetLength
    {
      this.blockSize := blockSize;
      this.packetLength := packetLength;
      backing := new Decision[packetLength + 2 * blockSize](_ => 0);
      start := 0;
    }

    method Reset()
      requires Valid()
      modifies this, backing
      ensures Holds(Zeros(Length(), 0), 0)
    {
      start := 0;
      forall i | 0 <= i < backing.Length { backing[i] := 0; }
    }

    /** The copying append: advance the logical start, then write the block in at
        most two pieces. */
    method Append(block: seq<Decision>)
      requires Valid() && |block| == blockSize
      modifies this, backing
      ensures Holds(Shift(old(View()), block), Wrap(old(start) + blockSize, Length()))
    {
      hide Shift, Unrolled;
      ghost var first0, before := start, backing[..Length()];
      start := start + blockSize;
      if start >= Length() { start := start - Length(); }
      var tail := start + packetLength;
      if tail >= Length() { tail := tail - Length(); }
      assert tail == first0;
      var first := |block|;
      if Length() - tail < first { first := Length() - tail; }
      forall i | 0 <= i < first { backing[tail + i] := block[i]; }
      forall i | 0 <= i < |block| - first { backing[i] := block[first + i]; }
      RingShift(before, backing[..Length()], first0, block);
    }

    /** Where the producer may write the next block contiguously. */
    method NextOutput() returns (nextStart: nat, tail: nat)
      requires Valid()
      ensures nextStart == Wrap(start + blockSize, Length())
      ensures tail == start && tail + blockSize <= backing.Length
    {
      nextStart := start + blockSize;
      if nextStart >= Length() { nextStart := nextStart - Length(); }
      tail := nextStart + packetLength;
      if tail >= Length() { tail := tail - Length(); }
    }

    /** Completes a direct write of `backing[tail..tail + count]`.  `before` is the
        ring as it was when `NextOutput` answered. */
    method Commit(nextStart: nat, tail: nat, count: nat, ghost before: seq<Decision>)
      requires Valid() && tail == start && count == blockSize
      requires nextStart == Wrap(start + blockSize, Length())
      requires |before| == Length()
      requires forall i :: (0 <= i < tail || tail + count <= i < Length()) ==> backing[i] == before[i]
      modifies this, backing
      ensures Holds(Shift(Unrolled(before, old(start)), old(backing[tail..tail + count])), nextStart)
    {
      hide Shift, Unrolled;
      ghost var block := backing[tail..tail + count];
      if tail + count > Length() {
        var overflow := tail + count - Length();
        forall i | 0 <= i < overflow { backing[i] := backing[Length() + i]; }
      }
      RingShift(before, backing[..Length()], start, block);
      start := nextStart;
    }
  }
}
