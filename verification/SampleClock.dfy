/** The sample clock: nanoseconds since the first sample, kept block by block with a
    remainder, and recomputed at once from a block count when a checkpoint is read. */
module SampleClock {
  import opened Basics

  const SECOND: int := 1_000_000_000
  const MAX_INT64: int := 0x7fff_ffff_ffff_ffff

  datatype Reading = Reading(time: int, remainder: int)

  /** The exact time of the end of the `n`th block, and what is left over. */
  function Exact(n: nat, blockSamples: nat, sampleRate: nat): Reading
    requires 0 < sampleRate
  {
    var total := n * (blockSamples * SECOND);
    Reading(total / sampleRate, total % sampleRate)
  }

  /** One more block adds the block's numerator and the remainder carried over. */
  lemma ExactStep(n: nat, blockSamples: nat, sampleRate: nat)
    requires 0 < sampleRate
    ensures var r := Exact(n, blockSamples, sampleRate); var numerator := blockSamples * SECOND + r.remainder;
      Exact(n + 1, blockSamples, sampleRate) == Reading(r.time + numerator / sampleRate, numerator % sampleRate)
  {
    var block := blockSamples * SECOND;
    var r := Exact(n, blockSamples, sampleRate);
    var numerator := block + r.remainder;
    assert n * block == sampleRate * r.time + r.remainder;
    Distribute(block, n, 1);
    assert numerator == sampleRate * (numerator / sampleRate) + numerator % sampleRate;
    Distribute(sampleRate, r.time, numerator / sampleRate);
    DivModUnique((n + 1) * block, sampleRate, r.time + numerator / sampleRate, numerator % sampleRate);
  }

  /** The runtime's clock. */
  class Clock {
    const blockSamples: nat
    const sampleRate: nat
    var sampleTime: int
    var sampleRemainder: int
    ghost var blocks: nat

    /** However many blocks have passed, no rounding error has built up. */
    ghost predicate Valid()
      reads this
    {
      0 < sampleRate && Reading(sampleTime, sampleRemainder) == Exact(blocks, blockSamples, sampleRate)
    }

    constructor (blockSamples: nat, sampleRate: nat)
      requires 0 < sampleRate
      ensures Valid() && blocks == 0 && this.blockSamples == blockSamples && this.sampleRate == sampleRate
    {
      this.blockSamples, this.sampleRate := blockSamples, sampleRate;
      sampleTime, sampleRemainder, blocks := 0, 0, 0;
    }

    /** A clock that goes on from the exact reading of a block count. */
    constructor Resumed(blocks: nat, blockSamples: nat, sampleRate: nat, reading: Reading)
      requires 0 < sampleRate && reading == Exact(blocks, blockSamples, sampleRate)
      ensures Valid() && this.blocks == blocks && this.blockSamples == blockSamples && this.sampleRate == sampleRate
      ensures sampleTime == reading.time
    {
      this.blockSamples, this.sampleRate := blockSamples, sampleRate;
      sampleTime, sampleRemainder, this.blocks := reading.time, reading.remainder, blocks;
    }

    /** The next block's interval; it starts where the last one ended. */
    method BeginBlock() returns (start: int, end: int)
      requires Valid()
      modifies this
      ensures Valid() && blocks == old(blocks) + 1
      ensures start == Exact(old(blocks), blockSamples, sampleRate).time &&
              end == Exact(blocks, blockSamples, sampleRate).time
    {
      ExactStep(blocks, blockSamples, sampleRate);
      start := sampleTime;
      var numerator := blockSamples * SECOND + sampleRemainder;
      var delta := numerator / sampleRate;
      sampleRemainder := numerator % sampleRate;
      end := start + delta;
      sampleTime, blocks := end, blocks + 1;
    }
  }

  // ---- from a block count

  /** Two's-complement wrap-around of a signed 64-bit result. */
  function Wrap64(x: int): (r: int)
    ensures -0x8000_0000_0000_0000 <= r <= MAX_INT64
    ensures -0x8000_0000_0000_0000 <= x <= MAX_INT64 ==> r == x
  {
    (x + 0x8000_0000_0000_0000) % 0x1_0000_0000_0000_0000 - 0x8000_0000_0000_0000
  }

  datatype Result = Ok(reading: Reading) | InvalidGeometry | Overflow

  predicate Geometry(blockSamples: int, sampleRate: int)
  {
    0 < blockSamples && 0 < sampleRate && blockSamples * SECOND <= MAX_INT64
  }

  /** Whole nanoseconds and remainder of `blocks` blocks both stay in range. */
  predicate Fits(blocks: nat, blockSamples: nat, sampleRate: nat)
    requires Geometry(blockSamples, sampleRate)
  {
    && blocks <= MAX_INT64 && blocks * (blockSamples * SECOND % sampleRate) <= MAX_INT64
    && Exact(blocks, blockSamples, sampleRate).time <= MAX_INT64
  }

  lemma QuotientBound(limit: nat, unit: int, blocks: nat)
    requires 0 < unit
    ensures blocks > limit / unit <==> blocks * unit > limit
  {
    var q := limit / unit;
    assert limit == unit * q + limit % unit;
    if blocks > q {
      NonNegative(blocks - q - 1, unit);
      assert (blocks - q - 1) * unit == blocks * unit - unit * q - unit;
    } else {
      NonNegative(q - blocks, unit);
      assert (q - blocks) * unit == unit * q - blocks * unit;
    }
  }

  /** Splitting off the whole nanoseconds of a block loses nothing. */
  lemma SplitExact(blocks: nat, blockSamples: nat, sampleRate: nat)
    requires 0 < sampleRate
    ensures var block := blockSamples * SECOND; var product := blocks * (block % sampleRate);
      && Exact(blocks, blockSamples, sampleRate) ==
         Reading(blocks * (block / sampleRate) + product / sampleRate, product % sampleRate)
      && 0 <= blocks * (block / sampleRate) && 0 <= product / sampleRate <= product
  {
    var block := blockSamples * SECOND;
    var whole, rest := block / sampleRate, block % sampleRate;
    SmallQuotient(block, sampleRate);
    NonNegative(blocks, whole);
    NonNegative(blocks, rest);
    var product := blocks * rest;
    SmallQuotient(product, sampleRate);
    assert block == sampleRate * whole + rest;
    Spread(blocks, sampleRate, whole, rest);
    assert product == sampleRate * (product / sampleRate) + product % sampleRate;
    Distribute(sampleRate, blocks * whole, product / sampleRate);
    DivModUnique(blocks * block, sampleRate, blocks * whole + product / sampleRate, product % sampleRate);
  }

  lemma Spread(b: int, s: int, w: int, r: int)
    ensures b * (s * w + r) == s * (b * w) + b * r
  {
  }

  lemma SmallQuotient(x: nat, d: nat)
    requires 0 < d
    ensures 0 <= x / d <= x
  {
    var q := x / d;
    assert x == d * q + x % d;
    Multiples(d, q);
    if q >= 0 { Multiples(q, d); }
  }

  /** The tests by division find exactly the products that leave the range. */
  lemma ProductsFit(blocks: nat, blockSamples: nat, sampleRate: nat)
    requires Geometry(blockSamples, sampleRate)
    ensures var block := blockSamples * SECOND; var whole, rest := block / sampleRate, block % sampleRate;
      && 0 <= whole && 0 <= rest && 0 <= blocks * whole && 0 <= blocks * rest
      && (blocks * whole > MAX_INT64 <==> whole > 0 && blocks > MAX_INT64 / whole)
      && (blocks * rest > MAX_INT64 <==> rest > 0 && blocks > MAX_INT64 / rest)
  {
    var block := blockSamples * SECOND;
    var whole, rest := block / sampleRate, block % sampleRate;
    SmallQuotient(block, sampleRate);
    NonNegative(blocks, whole);
    NonNegative(blocks, rest);
    if whole > 0 { QuotientBound(MAX_INT64, whole, blocks); } else { assert blocks * whole == 0; }
    if rest > 0 { QuotientBound(MAX_INT64, rest, blocks); } else { assert blocks * rest == 0; }
  }

  /** The clock of a checkpoint: the exact reading, or an error; never a wrapped one. */
  method DutySampleClock(blocks: nat, blockSamples: int, sampleRate: int) returns (r: Result)
    ensures r.InvalidGeometry? <==> !Geometry(blockSamples, sampleRate)
    ensures Geometry(blockSamples, sampleRate) ==>
              r == if Fits(blocks, blockSamples, sampleRate) then Ok(Exact(blocks, blockSamples, sampleRate))
              else Overflow
  {
    if blockSamples <= 0 || sampleRate <= 0 || blockSamples > MAX_INT64 / SECOND { return InvalidGeometry; }
    var numerator := Wrap64(blockSamples * SECOND);
    hide Wrap64, Exact;
    var whole := numerator / sampleRate;
    var remainderPerBlock := numerator % sampleRate;
    ProductsFit(blocks, blockSamples, sampleRate);
    SplitExact(blocks, blockSamples, sampleRate);
    if blocks > MAX_INT64 || whole < 0 || (whole > 0 && blocks > MAX_INT64 / whole) ||
       (remainderPerBlock > 0 && blocks > MAX_INT64 / remainderPerBlock) { return Overflow; }
    r := Combine(blocks * whole, blocks * remainderPerBlock, sampleRate);
  }

  /** What a checkpoint says of the clock is what its block count says. */
  predicate Claims(claimed: Reading, blocks: nat, blockSamples: int, sampleRate: int)
  {
    Geometry(blockSamples, sampleRate) && Fits(blocks, blockSamples, sampleRate) &&
    claimed == Exact(blocks, blockSamples, sampleRate)
  }

  /** The clock of a restored checkpoint: the one of its block count, or none if the
      checkpoint claims another time or remainder. */
  method RestoreClock(blocks: nat, blockSamples: int, sampleRate: int, claimed: Reading) returns (clock: Clock?)
    ensures clock != null <==> Claims(claimed, blocks, blockSamples, sampleRate)
    ensures clock != null ==>
              && fresh(clock) && clock.Valid() && clock.sampleTime == claimed.time && clock.blocks == blocks
              && clock.blockSamples == blockSamples && clock.sampleRate == sampleRate
  {
    hide Exact;
    var r := DutySampleClock(blocks, blockSamples, sampleRate);
    if !r.Ok? || r.reading != claimed { return null; }
    clock := new Clock.Resumed(blocks, blockSamples, sampleRate, claimed);
  }

  /** Puts the whole nanoseconds and the remainders together. */
  method Combine(whole: nat, rest: nat, sampleRate: nat) returns (r: Result)
    requires whole <= MAX_INT64 && rest <= MAX_INT64 && 0 < sampleRate && 0 <= rest / sampleRate <= rest
    ensures r == if whole + rest / sampleRate <= MAX_INT64
                 then Ok(Reading(whole + rest / sampleRate, rest % sampleRate)) else Overflow
  {
    hide Wrap64;
    var remainderProduct := Wrap64(rest);
    var nanoseconds := Wrap64(Wrap64(whole) + remainderProduct / sampleRate);
    WrapsNegative(whole + rest / sampleRate);
    if nanoseconds < 0 { return Overflow; }
    r := Ok(Reading(nanoseconds, remainderProduct % sampleRate));
  }

  /** A sum of two readings in range that leaves the range shows as a negative one. */
  lemma WrapsNegative(x: int)
    requires 0 <= x <= 2 * MAX_INT64
    ensures Wrap64(x) < 0 <==> x > MAX_INT64
  {
  }
}
