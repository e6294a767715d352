/** The integer power history: a ring of blocks, each stored behind a copy of the
    samples that precede it, so that a short window is contiguous even where it
    crosses from one block into the next or around the physical end. */
module PowerHistory {
  import opened Basics
  import opened Histories

  type Power = x: int | 0 <= x < 0x1_0000

  /** Half the squared magnitude of one IQ pair, centred on 127.5: the amplitudes
      `2 * i - 255` and `2 * q - 255` are odd, so halving their sum of squares is exact. */
  function IqPower(i: Byte, q: Byte): (p: Power)
    ensures 1 <= p <= 65025
    ensures 2 * p == (2 * i - 255) * (2 * i - 255) + (2 * q - 255) * (2 * q - 255)
  {
    hide OddSquare;
    var sum := OddSquare(i - 128) + OddSquare(q - 128);
    HalfOfOdds(OddSquare(i - 128), OddSquare(q - 128));
    OddSquareIs(i);
    OddSquareIs(q);
    sum / 2
  }

  lemma HalfOfOdds(a: int, b: int)
    requires a % 2 == 1 && b % 2 == 1
    ensures 2 * ((a + b) / 2) == a + b
  {
  }

  lemma OddSquareIs(i: Byte)
    ensures OddSquare(i - 128) == (2 * i - 255) * (2 * i - 255)
  {
    assert 2 * (i - 128) + 1 == 2 * i - 255;
  }

  /** The square of the odd number `2 * h + 1`. */
  function OddSquare(h: int): (r: int)
    requires -128 <= h <= 127
    ensures 1 <= r <= 65025 && r % 2 == 1
  {
    OddProduct(h);
    SquareBound(2 * h + 1);
    (2 * h + 1) * (2 * h + 1)
  }

  lemma SquareBound(b: int)
    requires -255 <= b <= 255 && b != 0
    ensures 1 <= b * b <= 65025
  {
    var a := if b < 0 then -b else b;
    assert b * b == a * a;
    NonNegative(255 - a, 255 + a);
    assert (255 - a) * (255 + a) == 65025 - a * a;
    NonNegative(a - 1, a + 1);
    assert (a - 1) * (a + 1) == a * a - 1;
  }

  lemma OddProduct(h: int)
    ensures ((2 * h + 1) * (2 * h + 1)) % 2 == 1
  {
    var e := 2 * (h * h) + 2 * h;
    assert (2 * h + 1) * (2 * h + 1) == 2 * e + 1;
  }

  /** The powers of a block of interleaved IQ bytes. */
  function Powers(input: seq<Byte>): (p: seq<Power>)
    ensures |p| == |input| / 2
    ensures forall k :: 0 <= k < |p| ==> 1 <= p[k] <= 65025
  {
    seq(|input| / 2, k requires 0 <= k < |input| / 2 => IqPower(input[2 * k], input[2 * k + 1]))
  }

  class PowerRing {
    const blockSize: nat
    const bufferLength: nat
    const symbolLength: nat
    const overlap: nat
    const blockCount: nat
    const blockStride: nat
    const gap: nat
    const backing: array<Power>
    var block: nat

    /** The last `At(blockCount, blockSize) + overlap` samples. */
    ghost var history: seq<Power>

    ghost predicate Geometry()
    {
      && 0 < blockSize && 0 < bufferLength
      && symbolLength <= overlap <= blockSize
      && 0 < blockCount && At(blockCount - 1, blockSize) < bufferLength <= At(blockCount, blockSize)
      && blockStride == blockSize + overlap
      && gap == At(blockCount, blockSize) - bufferLength
    }

    /** Storage block `k` positions after the oldest holds the history from
        sample `k * blockSize` on. */
    ghost predicate SlotHolds(k: nat)
      requires Geometry() && k < blockCount
      requires backing.Length == At(blockCount, blockStride) && block < blockCount
      requires |history| == At(blockCount, blockSize) + overlap
      reads this, backing
    {
      var slot := Wrap(block + 1 + k, blockCount);
      AtApart(slot, blockCount, blockStride);
      AtApart(k, blockCount, blockSize);
      SamePiece(backing[..], At(slot, blockStride), history, At(k, blockSize), blockStride)
    }

    ghost predicate Valid()
      reads this, backing
    {
      && Geometry()
      && backing.Length == At(blockCount, blockStride) && block < blockCount
      && |history| == At(blockCount, blockSize) + overlap
      && forall k :: 0 <= k < blockCount ==> SlotHolds(k)
    }

    /** What the parsers may read: the last `bufferLength` samples. */
    ghost function View(): (v: seq<Power>)
      requires Valid()
      reads this, backing
      ensures |v| == bufferLength
    {
      history[overlap + gap..]
    }

    ghost predicate Holds(h: seq<Power>)
      reads this, backing
    {
      Valid() && history == h
    }

    ghost function Size(): nat { At(blockCount, blockSize) + overlap }

    constructor (blockSize: nat, bufferLength: nat, symbolLength: nat, signalOverlap: nat)
      requires 0 < blockSize && 0 < bufferLength && symbolLength <= blockSize && signalOverlap <= blockSize
      ensures Holds(Zeros(Size(), 0)) && fresh(backing)
      ensures this.blockSize == blockSize && this.bufferLength == bufferLength && this.symbolLength == symbolLength
      ensures overlap == if signalOverlap < symbolLength then symbolLength else signalOverlap
    {
      BlocksCover(bufferLength, blockSize);
      var retained := signalOverlap;
      if retained < symbolLength { retained := symbolLength; }
      var count := (bufferLength + blockSize - 1) / blockSize;
      AtIsProduct(count, blockSize);
      AtIsProduct(count, blockSize + retained);
      this.blockSize, this.bufferLength, this.symbolLength := blockSize, bufferLength, symbolLength;
      this.overlap := retained;
      this.blockStride := blockSize + retained;
      this.blockCount := count;
      this.gap := count * blockSize - bufferLength;
      this.backing := new Power[count * (blockSize + retained)](_ => 0);
      this.block := count - 1;
      this.history := Zeros(At(count, blockSize) + retained, 0);
      new;
      ZeroSlots();
    }

    lemma ZeroSlots()
      requires Geometry() && backing.Length == At(blockCount, blockStride) && block < blockCount
      requires history == Zeros(At(blockCount, blockSize) + overlap, 0)
      requires forall i :: 0 <= i < backing.Length ==> backing[i] == 0
      ensures Valid()
    {
      forall k | 0 <= k < blockCount ensures SlotHolds(k) {
        AtApart(Wrap(block + 1 + k, blockCount), blockCount, blockStride);
        AtApart(k, blockCount, blockSize);
      }
    }

    method Reset()
      requires Valid()
      modifies this, backing
      ensures Holds(Zeros(Size(), 0))
    {
      forall i | 0 <= i < backing.Length { backing[i] := 0; }
      block := blockCount - 1;
      history := Zeros(At(blockCount, blockSize) + overlap, 0);
      ZeroSlots();
    }

    method SlotStart(index: nat) returns (at: nat)
      ensures at == At(index, blockStride)
    {
      AtIsProduct(index, blockStride);
      at := index * blockStride;
    }

    /** Fills one storage block: the overlap from the block at `previous`, then the
        powers of `input`. */
    method Fill(previous: nat, current: nat, input: seq<Byte>)
      requires Geometry() && |input| == 2 * blockSize
      requires previous + blockStride <= backing.Length && current + blockStride <= backing.Length
      modifies backing
      ensures SamePiece(backing[..], current, old(backing[..]), previous + blockSize, overlap)
      ensures SamePiece(backing[..], current + overlap, Powers(input), 0, blockSize)
      ensures forall i :: 0 <= i < backing.Length && !(current <= i < current + blockStride) ==>
              backing[..][i] == old(backing[..])[i]
    {
      forall i | 0 <= i < overlap { backing[current + i] := backing[previous + blockSize + i]; }
      forall k | 0 <= k < blockSize { backing[current + overlap + k] := IqPower(input[2 * k], input[2 * k + 1]); }
    }

    /** Claims the oldest storage block for a new input block: its prefix is filled
        from the end of the newest block and its body with the input's powers.
        Answers where the filter's window starts: the last `symbolLength` old
        samples followed by the new ones. */
    method Append(input: seq<Byte>) returns (filterStart: nat)
      requires Valid() && |input| == 2 * blockSize
      modifies this, backing
      ensures Holds(Shift(old(history), Powers(input)))
      ensures filterStart + symbolLength + blockSize <= backing.Length
      ensures backing[..][filterStart..filterStart + symbolLength + blockSize]
           == history[|history| - symbolLength - blockSize..]
    {
      hide Shift, Powers, SamePiece, At, Kept;
      ghost var was, before := history, backing[..];
      var previousStart := SlotStart(block);
      KeptPieces();
      block := block + 1;
      if block == blockCount { block := 0; }
      var currentStart := SlotStart(block);
      Fill(previousStart, currentStart, input);
      history := Shift(was, Powers(input));
      filterStart := currentStart + overlap - symbolLength;
      Advanced(before, was, Powers(input), backing[..], previousStart, currentStart);
    }

    /** What the storage blocks other than the oldest hold, and where the newest ends. */
    lemma KeptPieces()
      requires Valid()
      ensures Kept(Wrap(block + 1, blockCount), backing[..], history)
      ensures At(block, blockStride) + blockStride <= backing.Length
      ensures At(Wrap(block + 1, blockCount), blockStride) + blockStride <= backing.Length
      ensures At(blockCount - 1, blockSize) + blockStride == |history|
      ensures SamePiece(backing[..], At(block, blockStride), history, At(blockCount - 1, blockSize), blockStride)
    {
      var oldest := Wrap(block + 1, blockCount);
      forall k | 0 < k < blockCount ensures KeptPiece(oldest, k, backing[..], history) {
        AtApart(Wrap(block + 1 + k, blockCount), blockCount, blockStride);
        AtApart(k, blockCount, blockSize);
        assert SlotHolds(k);
      }
      AtApart(block, blockCount, blockStride);
      AtApart(Wrap(block + 1, blockCount), blockCount, blockStride);
      assert SlotHolds(blockCount - 1);
    }

    lemma Advanced(before: seq<Power>, was: seq<Power>, powers: seq<Power>, after: seq<Power>, previous: nat,
        current: nat)
      requires Geometry() && block < blockCount && backing.Length == At(blockCount, blockStride)
      requires |was| == At(blockCount, blockSize) + overlap && |powers| == blockSize && history == Shift(was, powers)
      requires |before| == |after| == backing.Length && after == backing[..]
      requires Kept(block, before, was)
      requires previous + blockStride <= |before| && current == At(block, blockStride) &&
               current + blockStride <= |after|
      requires At(blockCount - 1, blockSize) + blockStride == |history|
      requires SamePiece(before, previous, was, At(blockCount - 1, blockSize), blockStride)
      requires SamePiece(after, current, before, previous + blockSize, overlap)
      requires SamePiece(after, current + overlap, powers, 0, blockSize)
      requires forall i :: 0 <= i < |after| && !(current <= i < current + blockStride) ==> after[i] == before[i]
      ensures Valid()
      ensures after[current + overlap - symbolLength..current + blockStride] ==
              history[|history| - symbolLength - blockSize..]
    {
      NewPiece(before, was, powers, after, previous, current);
      Moved(before, was, powers, after);
      FilterWindow(after, current);
    }

    lemma FilterWindow(after: seq<Power>, current: nat)
      requires Valid() && current + blockStride <= |after|
      requires SamePiece(after, current, history, At(blockCount - 1, blockSize), blockStride)
      ensures after[current + overlap - symbolLength..current + blockStride]
           == history[|history| - symbolLength - blockSize..]
    {
      var from := |history| - symbolLength - blockSize;
      assert SamePiece(after, current + overlap - symbolLength, history, from, symbolLength + blockSize);
      PieceSlice(after, current + overlap - symbolLength, history, from, symbolLength + blockSize);
    }

    /** The claimed storage block: the samples before it, then its own. */
    lemma NewPiece(before: seq<Power>, was: seq<Power>, powers: seq<Power>, after: seq<Power>, previous: nat,
        current: nat)
      requires Geometry() && |was| == At(blockCount, blockSize) + overlap && |powers| == blockSize
      requires |before| == |after| && previous + blockStride <= |before| && current + blockStride <= |after|
      requires SamePiece(before, previous, was, At(blockCount - 1, blockSize), blockStride)
      requires SamePiece(after, current, before, previous + blockSize, overlap)
      requires SamePiece(after, current + overlap, powers, 0, blockSize)
      ensures SamePiece(after, current, Shift(was, powers), At(blockCount - 1, blockSize), blockStride)
    {
      var at := At(blockCount - 1, blockSize);
      assert At(blockCount, blockSize) == at + blockSize;
      forall d | current <= d < current + blockStride ensures after[d] == Shift(was, powers)[d - current + at] {
        if d < current + overlap {
          assert after[d] == before[d - current + previous + blockSize] == was[d - current + at + blockSize];
        } else {
          assert after[d] == powers[d - current - overlap];
        }
      }
    }

    /** Every storage block but the claimed one still holds its samples, one
        position nearer the oldest. */
    lemma Moved(before: seq<Power>, was: seq<Power>, powers: seq<Power>, after: seq<Power>)
      requires Geometry() && block < blockCount && backing.Length == At(blockCount, blockStride)
      requires |was| == At(blockCount, blockSize) + overlap && |powers| == blockSize && history == Shift(was, powers)
      requires |before| == |after| == backing.Length && after == backing[..]
      requires Kept(block, before, was)
      requires At(block, blockStride) + blockStride <= |after|
      requires forall i ::
               0 <= i < |after| && !(At(block, blockStride) <= i < At(block, blockStride) + blockStride) ==>
               after[i] == before[i]
      requires At(blockCount - 1, blockSize) + blockStride == |history|
      requires SamePiece(after, At(block, blockStride), history, At(blockCount - 1, blockSize), blockStride)
      ensures Valid()
    {
      hide SamePiece, Shift;
      forall k | 0 <= k < blockCount ensures SlotHolds(k) {
        var slot := Wrap(block + 1 + k, blockCount);
        if k < blockCount - 1 {
          assert slot == Wrap(block + (k + 1), blockCount);
          assert KeptPiece(block, k + 1, before, was);
          if slot < block { AtApart(slot, block, blockStride); } else { AtApart(block, slot, blockStride); }
          AtApart(k, blockCount, blockSize);
          MovedPiece(before, was, powers, after, At(slot, blockStride), At(k, blockSize));
        }
      }
    }

    lemma MovedPiece(before: seq<Power>, was: seq<Power>, powers: seq<Power>, after: seq<Power>, p: nat, q: nat)
      requires |powers| == blockSize <= |was| && |before| == |after|
      requires p + blockStride <= |before| && q + blockSize + blockStride <= |was|
      requires SamePiece(before, p, was, q + blockSize, blockStride)
      requires forall d :: p <= d < p + blockStride ==> after[d] == before[d]
      ensures SamePiece(after, p, Shift(was, powers), q, blockStride)
    {
    }

    ghost predicate KeptPiece(oldest: nat, k: nat, a: seq<Power>, b: seq<Power>)
    {
      var p, q := At(Wrap(oldest + k, blockCount), blockStride), At(k, blockSize);
      p + blockStride <= |a| && q + blockStride <= |b| && SamePiece(a, p, b, q, blockStride)
    }

    ghost predicate Kept(oldest: nat, a: seq<Power>, b: seq<Power>)
    {
      forall k :: 0 < k < blockCount ==> KeptPiece(oldest, k, a, b)
    }

    ghost predicate HistoryAt(start: nat, from: nat, length: nat)
      reads this, backing
    {
      start + length <= backing.Length && from + length <= |history| &&
      SamePiece(backing[..], start, history, from, length)
    }

    lemma PieceAt(k: nat, off: nat, length: nat, start: nat, from: nat)
      requires Valid() && k < blockCount && off + length <= blockStride
      requires start == At(Wrap(block + 1 + k, blockCount), blockStride) + off && from == At(k, blockSize) + off
      ensures HistoryAt(start, from, length)
    {
      AtApart(Wrap(block + 1 + k, blockCount), blockCount, blockStride);
      AtApart(k, blockCount, blockSize);
      assert SlotHolds(k);
    }

    /** The shift and the mask of the power-of-two block size. */
    method Split(physicalIdx: nat) returns (blockOffset: nat, sampleOffset: nat)
      requires Geometry() && physicalIdx < At(blockCount, blockSize)
      ensures blockOffset < blockCount && sampleOffset < blockSize
      ensures physicalIdx == At(blockOffset, blockSize) + sampleOffset
    {
      blockOffset := physicalIdx / blockSize;
      sampleOffset := physicalIdx % blockSize;
      AtDivMod(physicalIdx, blockSize, blockCount);
    }

    /** A window that stays in the block of its first sample. */
    lemma Inside(k: nat, offset: nat, from: nat, length: nat)
      requires Valid() && k < blockCount && offset + length <= blockSize && from == overlap + At(k, blockSize) + offset
      ensures HistoryAt(At(Wrap(block + 1 + k, blockCount), blockStride) + overlap + offset, from, length)
    {
      PieceAt(k, overlap + offset, length, At(Wrap(block + 1 + k, blockCount), blockStride) + overlap + offset, from);
    }

    /** A window that crosses into the next block lies before and in that one. */
    lemma Crossing(k: nat, offset: nat, from: nat, length: nat)
      requires Valid() && k < blockCount && offset < blockSize < offset + length && length <= overlap
      requires from == overlap + At(k, blockSize) + offset && from + length <= overlap + At(blockCount, blockSize)
      ensures k + 1 < blockCount
      ensures HistoryAt(At(Wrap(block + 2 + k, blockCount), blockStride) + overlap - (blockSize - offset), from, length)
    {
      PieceAt(k + 1, overlap - (blockSize - offset), length,
              At(Wrap(block + 2 + k, blockCount), blockStride) + overlap - (blockSize - offset), from);
    }

    /** Where the samples `[idx, idx + length)` of the retained history lie in one piece. */
    method Locate(idx: nat, length: nat) returns (start: nat)
      requires Valid()
      requires idx < bufferLength && length <= overlap && length <= bufferLength && idx <= bufferLength - length
      ensures HistoryAt(start, overlap + gap + idx, length)
    {
      assert Geometry() && block < blockCount;
      hide Valid, HistoryAt, At;
      var physicalIdx := gap + idx;
      var blockOffset, sampleOffset := Split(physicalIdx);
      var blockIdx := block + 1 + blockOffset;
      if blockIdx >= blockCount { blockIdx := blockIdx - blockCount; }
      var at := SlotStart(blockIdx);
      start := at + overlap + sampleOffset;
      if sampleOffset + length > blockSize {
        Crossing(blockOffset, sampleOffset, overlap + gap + idx, length);
        var beforeBoundary := blockSize - sampleOffset;
        blockIdx := blockIdx + 1;
        if blockIdx == blockCount { blockIdx := 0; }
        at := SlotStart(blockIdx);
        start := at + overlap - beforeBoundary;
      } else {
        Inside(blockOffset, sampleOffset, overlap + gap + idx, length);
      }
    }

    /** `Power16Window` under its own guard: the contiguous slice `[idx, idx + length)`
        of the last `bufferLength` samples. */
    method Window(idx: nat, length: nat) returns (window: seq<Power>)
      requires Valid()
      requires idx < bufferLength && length <= overlap && length <= bufferLength && idx <= bufferLength - length
      ensures window == View()[idx..idx + length]
    {
      var start := Locate(idx, length);
      PieceSlice(backing[..], start, history, overlap + gap + idx, length);
      DropSlice(history, overlap + gap, idx, length);
      window := backing[..][start..start + length];
    }
  }

  lemma DropSlice<T>(s: seq<T>, drop: nat, i: nat, length: nat)
    requires drop + i + length <= |s|
    ensures s[drop..][i..i + length] == s[drop + i..drop + i + length]
  {
  }

  /** `length` equal samples from `i` in `a` and from `j` in `b`. */
  ghost predicate SamePiece(a: seq<Power>, i: nat, b: seq<Power>, j: nat, length: nat)
    requires i + length <= |a| && j + length <= |b|
  {
    forall d :: i <= d < i + length ==> a[d] == b[d - i + j]
  }

  lemma PieceSlice(a: seq<Power>, i: nat, b: seq<Power>, j: nat, length: nat)
    requires i + length <= |a| && j + length <= |b| && SamePiece(a, i, b, j, length)
    ensures a[i..i + length] == b[j..j + length]
  {
    var x, y := a[i..i + length], b[j..j + length];
    forall d | 0 <= d < length ensures x[d] == y[d] {
      assert a[i + d] == b[i + d - i + j];
    }
  }

  /** Where the R900 parser reads: symbol `k` of a candidate starts `k` times
      eight chips after the last preamble symbol, in two windows of four chips. */
  function SymbolWindow(candidate: nat, chip: nat, preambleSymbols: nat, k: nat, second: bool): int
  {
    candidate + 2 * (chip * preambleSymbols) - 2 * chip + 8 * (chip * k) + (if second then 4 * chip else 0)
  }

  ghost predicate WindowAdmitted(idx: int, length: nat, bufferLength: nat, overlap: nat)
  {
    0 <= idx < bufferLength && length <= overlap && length <= bufferLength && idx <= bufferLength - length
  }

  /** All 42 windows of every candidate up to and including `blockSize` pass the
      history's guard exactly when the packet is at least 83 symbols longer than
      the preamble (R900: 116 against 32). */
  lemma ParserWindowsAdmitted(chip: nat, preambleSymbols: nat, packetSymbols: nat, blockSize: nat, overlap: nat)
    requires 0 < chip && 0 < preambleSymbols && 4 * chip <= overlap <= blockSize
    ensures (forall candidate: nat, k: nat, second ::
              candidate <= blockSize && k < 21 ==>
              WindowAdmitted(SymbolWindow(candidate, chip, preambleSymbols, k, second), 4 * chip,
                             2 * (chip * packetSymbols) + blockSize, overlap))
       <==> packetSymbols >= preambleSymbols + 83
  {
    var length := 2 * (chip * packetSymbols) + blockSize;
    Scaled(chip, 1, preambleSymbols);
    if packetSymbols >= preambleSymbols + 83 {
      Scaled(chip, preambleSymbols + 83, packetSymbols);
      Distribute(chip, preambleSymbols, 83);
      forall candidate: nat, k: nat, second | candidate <= blockSize && k < 21
        ensures WindowAdmitted(SymbolWindow(candidate, chip, preambleSymbols, k, second), 4 * chip, length, overlap)
      {
        Scaled(chip, k, 20);
        LinearBound(candidate, chip, chip * preambleSymbols, chip * packetSymbols, chip * k, second, blockSize,
                    overlap);
      }
    } else {
      Scaled(chip, packetSymbols, preambleSymbols + 82);
      Distribute(chip, preambleSymbols, 82);
      assert chip * 20 == 20 * chip;
      assert !WindowAdmitted(SymbolWindow(blockSize, chip, preambleSymbols, 20, true), 4 * chip, length, overlap);
    }
  }

  lemma LinearBound(candidate: nat, chip: nat, preamble: nat, packet: nat, offset: nat, second: bool, blockSize: nat,
      overlap: nat)
    requires candidate <= blockSize && 0 < chip <= preamble && preamble + 83 * chip <= packet && offset <= 20 * chip
    requires 4 * chip <= overlap
    ensures WindowAdmitted(candidate + 2 * preamble - 2 * chip + 8 * offset + (if second then 4 * chip else 0),
                           4 * chip, 2 * packet + blockSize, overlap)
  {
  }

  lemma Scaled(c: nat, a: nat, b: nat)
    requires a <= b
    ensures c * a <= c * b
  {
  }
}
