/** The receiver's block loop under a duty schedule: every block is decoded or
    skipped, a collar of recent raw blocks is kept, and the collar is replayed into
    the decoder before the first block decoded after a sleep. */
module DutyRuntime {
  import opened Basics
  import opened Histories
  import opened PowerHistory
  import opened Filter
  import opened Power16Decoder

  /** How many blocks the collar holds: the collar time, but always more than it
      takes to warm the decoder up. */
  function CollarBlocks(sampleRate: nat, blockSize: nat, bufferLength: nat): (c: nat)
    requires 0 < blockSize
    ensures c > WarmupBlocks(blockSize, bufferLength)
  {
    var collar := (sampleRate * 100_000_000 + 1_000_000_000 * blockSize - 1) / (1_000_000_000 * blockSize);
    var warmup := WarmupBlocks(blockSize, bufferLength);
    if collar <= warmup then warmup + 1 else collar
  }

  function WarmupBlocks(blockSize: nat, bufferLength: nat): nat
    requires 0 < blockSize
  {
    (bufferLength + blockSize - 1) / blockSize
  }

  lemma CeilingIs(a: nat, b: nat)
    requires 0 < b
    ensures var q := (a + b - 1) / b; q * b >= a && (q > 0 ==> (q - 1) * b < a)
  {
    var q := (a + b - 1) / b;
    assert a + b - 1 == q * b + (a + b - 1) % b;
    assert (q - 1) * b == q * b - b;
  }

  /** The warm-up is the fewest blocks that fill the decoder's buffer. */
  lemma WarmupCovers(blockSize: nat, bufferLength: nat)
    requires 0 < blockSize
    ensures var w := WarmupBlocks(blockSize, bufferLength);
      w * blockSize >= bufferLength && (w > 0 ==> (w - 1) * blockSize < bufferLength)
  {
    CeilingIs(bufferLength, blockSize);
  }

  /** The collar is the fewest blocks that last a tenth of a second, or one more than the
      warm-up. */
  lemma CollarCovers(sampleRate: nat, blockSize: nat, bufferLength: nat)
    requires 0 < blockSize
    ensures var w := WarmupBlocks(blockSize, bufferLength);
            var c := CollarBlocks(sampleRate, blockSize, bufferLength);
      && c > w && 10 * (c * blockSize) >= sampleRate && (c == w + 1 || 10 * ((c - 1) * blockSize) < sampleRate)
  {
    hide WarmupBlocks;
    CeilingIs(sampleRate * 100_000_000, 1_000_000_000 * blockSize);
    var q := (sampleRate * 100_000_000 + 1_000_000_000 * blockSize - 1) / (1_000_000_000 * blockSize);
    Tenth(sampleRate, blockSize, q);
    Tenth(sampleRate, blockSize, q - 1);
    var c := CollarBlocks(sampleRate, blockSize, bufferLength);
    NonNegative(c - q, blockSize);
    Distribute(blockSize, c, q);
  }

  /** `q` blocks last a tenth of a second, in nanoseconds and in samples. */
  lemma Tenth(sampleRate: nat, blockSize: nat, q: int)
    ensures q * (1_000_000_000 * blockSize) >= sampleRate * 100_000_000 <==> 10 * (q * blockSize) >= sampleRate
  {
    assert q * (1_000_000_000 * blockSize) == 1_000_000_000 * (q * blockSize);
  }

  /** The powers of a run of blocks, in order. */
  function StreamOf(blocks: seq<seq<Byte>>): (s: seq<Power>)
  {
    if blocks == [] then [] else StreamOf(blocks[..|blocks| - 1]) + Powers(blocks[|blocks| - 1])
  }

  ghost predicate Blocks(g: Geometry, blocks: seq<seq<Byte>>)
  {
    forall i :: 0 <= i < |blocks| ==> |blocks[i]| == 2 * g.blockSize
  }

  lemma StreamStep(blocks: seq<seq<Byte>>, block: seq<Byte>)
    ensures StreamOf(blocks + [block]) == StreamOf(blocks) + Powers(block)
  {
    assert (blocks + [block])[..|blocks|] == blocks;
  }

  lemma {:induction false} StreamConcat(a: seq<seq<Byte>>, b: seq<seq<Byte>>)
    ensures StreamOf(a + b) == StreamOf(a) + StreamOf(b)
  {
    if b == [] {
      assert a + b == a;
    } else {
      var last := |b| - 1;
      assert a + b == (a + b[..last]) + [b[last]];
      assert b == b[..last] + [b[last]];
      StreamConcat(a, b[..last]);
      StreamStep(a + b[..last], b[last]);
      StreamStep(b[..last], b[last]);
    }
  }

  lemma {:induction false} StreamLength(g: Geometry, blocks: seq<seq<Byte>>)
    requires Blocks(g, blocks)
    ensures |StreamOf(blocks)| == At(|blocks|, g.blockSize)
  {
    if blocks != [] { StreamLength(g, blocks[..|blocks| - 1]); }
  }

  /** A decoder that has been fed `fed` answers like one that was fed `whole`. */
  ghost predicate Faithful(g: Geometry, fed: seq<Power>, whole: seq<Power>)
  {
    fed == whole || (g.BufferLength() + g.Symbol() <= |fed| <= |whole| && fed == whole[|whole| - |fed|..])
  }

  lemma FaithfulHistories(g: Geometry, fed: seq<Power>, whole: seq<Power>)
    requires Faithful(g, fed, whole)
    ensures DecisionHistory(g, fed) == DecisionHistory(g, whole)
    ensures PowerTail(g, fed) == PowerTail(g, whole)
  {
    if fed != whole {
      var before := whole[..|whole| - |fed|];
      assert whole == before + fed;
      RecentDecisions(before, fed, g.chip, g.BufferLength());
    }
  }

  lemma FaithfulStep(g: Geometry, fed: seq<Power>, whole: seq<Power>, block: seq<Power>)
    requires Faithful(g, fed, whole)
    ensures Faithful(g, fed + block, whole + block)
  {
    if fed != whole {
      assert whole == whole[..|whole| - |fed|] + fed;
      assert whole + block == whole[..|whole| - |fed|] + (fed + block);
    }
  }

  /** Replaying more blocks than the warm-up takes makes a reset decoder faithful. */
  lemma ReplaySuffices(g: Geometry, before: seq<seq<Byte>>, replayed: seq<seq<Byte>>)
    requires g.Valid() && Blocks(g, replayed)
    requires |replayed| > WarmupBlocks(g.blockSize, g.BufferLength())
    ensures Faithful(g, StreamOf(replayed), StreamOf(before + replayed))
  {
    hide StreamOf, At;
    StreamConcat(before, replayed);
    LongEnough(g, replayed);
    SuffixFaithful(g, StreamOf(before), StreamOf(replayed));
  }

  lemma LongEnough(g: Geometry, replayed: seq<seq<Byte>>)
    requires g.Valid() && Blocks(g, replayed)
    requires |replayed| > WarmupBlocks(g.blockSize, g.BufferLength())
    ensures g.BufferLength() + g.Symbol() <= |StreamOf(replayed)|
  {
    hide StreamOf;
    StreamLength(g, replayed);
    BlocksCover(g.BufferLength(), g.blockSize);
    AtApart(WarmupBlocks(g.blockSize, g.BufferLength()), |replayed|, g.blockSize);
  }

  lemma SuffixFaithful(g: Geometry, before: seq<Power>, fed: seq<Power>)
    requires g.BufferLength() + g.Symbol() <= |fed|
    ensures Faithful(g, fed, before + fed)
  {
  }

  datatype CollarBlock = CollarBlock(data: seq<Byte>, decoded: bool, rawValid: bool)

  lemma Records(e: CollarBlock, block: seq<Byte>, decoded: bool)
    requires e.decoded == decoded && e.rawValid == !decoded && (e.rawValid ==> e.data == block)
    ensures Recorded(e, block, decoded)
  {
  }

  ghost predicate Recorded(e: CollarBlock, block: seq<Byte>, decoded: bool)
  {
    e.decoded == decoded && e.rawValid == !decoded && (e.rawValid ==> e.data == block)
  }

  /** What a parser was shown: the histories right after `block` was decoded. */
  datatype Shown = Shown(block: nat, published: bool, decisions: seq<Decision>, powers: seq<Power>)

  /** Exactly what a decoder that never slept shows after the same block. */
  ghost predicate Exact(g: Geometry, s: Shown, blocks: seq<seq<Byte>>)
  {
    && s.block < |blocks|
    && s.decisions == DecisionHistory(g, StreamOf(blocks[..s.block + 1]))
    && s.powers == PowerTail(g, StreamOf(blocks[..s.block + 1]))
  }

  ghost predicate AllExact(g: Geometry, shown: seq<Shown>, blocks: seq<seq<Byte>>)
  {
    forall i :: 0 <= i < |shown| && shown[i].published ==> Exact(g, shown[i], blocks)
  }

  lemma ExactStays(g: Geometry, shown: seq<Shown>, blocks: seq<seq<Byte>>, more: seq<seq<Byte>>)
    requires AllExact(g, shown, blocks)
    ensures AllExact(g, shown, blocks + more)
  {
    forall i | 0 <= i < |shown| && shown[i].published ensures Exact(g, shown[i], blocks + more) {
      assert Exact(g, shown[i], blocks);
      assert (blocks + more)[..shown[i].block + 1] == blocks[..shown[i].block + 1];
    }
  }

  /** Showing the histories of a faithful decoder keeps everything published exact. */
  lemma ShowsExact(g: Geometry, shown: seq<Shown>, number: nat, publish: bool, fed: seq<Power>, blocks: seq<seq<Byte>>)
    requires AllExact(g, shown, blocks) && number < |blocks|
    requires publish ==> Faithful(g, fed, StreamOf(blocks[..number + 1]))
    ensures AllExact(g, shown + [Shown(number, publish, DecisionHistory(g, fed), PowerTail(g, fed))], blocks)
  {
    hide DecisionHistory, PowerTail, Faithful, StreamOf;
    if publish { FaithfulHistories(g, fed, StreamOf(blocks[..number + 1])); }
  }

  // ---- what is to be published

  /** The numbers of the blocks published, in the order of publication. */
  ghost function Numbers(shown: seq<Shown>): seq<nat>
  {
    if shown == [] then []
    else
      var last := shown[|shown| - 1];
      Numbers(shown[..|shown| - 1]) + (if last.published then [last.block] else [])
  }

  lemma NumbersNext(shown: seq<Shown>, s: Shown)
    ensures Numbers(shown + [s]) == Numbers(shown) + (if s.published then [s.block] else [])
  {
    assert (shown + [s])[..|shown|] == shown;
  }

  /** `from`, `from + 1` and so on up to but not including `to`. */
  function Range(from: nat, to: nat): (r: seq<nat>)
    ensures |r| == (if from <= to then to - from else 0) && forall i :: 0 <= i < |r| ==> r[i] == from + i
  {
    if from <= to then seq(to - from, i requires 0 <= i < to - from => from + i) else []
  }

  /** Ascending numbers in `[lo, hi)`. */
  ghost predicate Rising(s: seq<nat>, lo: int, hi: int)
  {
    (forall i :: 0 <= i < |s| ==> lo <= s[i] < hi) && forall i, j :: 0 <= i < j < |s| ==> s[i] < s[j]
  }

  lemma RisingJoin(a: seq<nat>, b: seq<nat>, lo: int, between: int, hi: int)
    requires lo <= between <= hi && Rising(a, lo, between) && Rising(b, between, hi)
    ensures Rising(a + b, lo, hi)
  {
  }

  /** How many blocks were skipped since the last one decoded. */
  function Trailing(flags: seq<bool>): (n: nat)
    ensures n <= |flags| && (forall i :: |flags| - n <= i < |flags| ==> !flags[i])
    ensures n < |flags| ==> flags[|flags| - n - 1]
  {
    if flags == [] || flags[|flags| - 1] then 0 else Trailing(flags[..|flags| - 1]) + 1
  }

  /** What a sleep that ends now leaves to be made up for: all of it if the collar of
      `size` blocks holds it, and otherwise what the collar holds beyond the warm-up. */
  function MadeUp(flags: seq<bool>, size: nat, warmup: nat): seq<nat>
    requires warmup < size
  {
    var n, run := |flags|, Trailing(flags);
    if run <= size then Range(n - run, n) else Range(n - size + warmup, n)
  }

  /** The blocks to be published, given which were decoded live. */
  ghost function Due(flags: seq<bool>, size: nat, warmup: nat): seq<nat>
    requires warmup < size
  {
    if flags == [] then []
    else
      var n := |flags| - 1;
      Due(flags[..n], size, warmup) + (if flags[n] then MadeUp(flags[..n], size, warmup) + [n] else [])
  }

  /** Block `n` was skipped and is made up for before block `m`, the next one decoded. */
  ghost predicate MadeUpBefore(flags: seq<bool>, size: nat, warmup: nat, n: nat, m: nat)
  {
    && n < m < |flags| && flags[m] && (forall j :: n <= j < m ==> !flags[j])
    && (Trailing(flags[..m]) <= size || m + warmup <= n + size)
  }

  ghost predicate IsDue(flags: seq<bool>, size: nat, warmup: nat, n: nat)
  {
    n < |flags| && (flags[n] || exists m :: MadeUpBefore(flags, size, warmup, n, m))
  }

  /** Those blocks are, each once and in order: every block decoded, and every block skipped
      that the collar still held when the sleep ended, from the warm-up on if the
      collar did not hold the whole sleep. */
  lemma {:induction false} DueExactly(flags: seq<bool>, size: nat, warmup: nat)
    requires warmup < size
    ensures Rising(Due(flags, size, warmup), 0, |flags| - Trailing(flags))
    ensures forall n: nat :: n in Due(flags, size, warmup) <==> IsDue(flags, size, warmup, n)
  {
    hide Range, Rising, IsDue, MadeUp, Trailing;
    if flags == [] {
      NothingDue(size, warmup);
    } else {
      var m := |flags| - 1;
      var before := flags[..m];
      DueExactly(before, size, warmup);
      DueRises(flags, size, warmup);
      forall n: nat ensures n in Due(flags, size, warmup) <==> IsDue(flags, size, warmup, n) {
        DueStep(flags, size, warmup, n);
      }
    }
  }

  lemma NothingDue(size: nat, warmup: nat)
    requires warmup < size
    ensures Rising(Due([], size, warmup), 0, 0) && Trailing([]) == 0 && forall n: nat :: !IsDue([], size, warmup, n)
  {
  }

  lemma DueRises(flags: seq<bool>, size: nat, warmup: nat)
    requires warmup < size && flags != []
    requires var before := flags[..|flags| - 1]; Rising(Due(before, size, warmup), 0, |before| - Trailing(before))
    ensures Rising(Due(flags, size, warmup), 0, |flags| - Trailing(flags))
  {
    hide Due;
    var m := |flags| - 1;
    var before := flags[..m];
    var made := MadeUp(before, size, warmup);
    assert Due(flags, size, warmup) == Due(before, size, warmup) + (if flags[m] then made + [m] else []) by {
      DueUnfold(flags, size, warmup);
    }
    if flags[m] {
      assert Rising(made, m - Trailing(before), m) && Rising([m], m, m + 1);
      RisingJoin(made, [m], m - Trailing(before), m, m + 1);
      RisingJoin(Due(before, size, warmup), made + [m], 0, m - Trailing(before), m + 1);
    } else {
      assert Due(flags, size, warmup) == Due(before, size, warmup);
    }
  }

  lemma DueUnfold(flags: seq<bool>, size: nat, warmup: nat)
    requires warmup < size && flags != []
    ensures var n := |flags| - 1;
      Due(flags, size, warmup) ==
      Due(flags[..n], size, warmup) + (if flags[n] then MadeUp(flags[..n], size, warmup) + [n] else [])
  {
  }

  /** What the last block adds. */
  lemma DueStep(flags: seq<bool>, size: nat, warmup: nat, n: nat)
    requires warmup < size && flags != []
    ensures var m := |flags| - 1; var before := flags[..m];
      IsDue(flags, size, warmup, n) <==>
        IsDue(before, size, warmup, n) || (flags[m] && (n == m || n in MadeUp(before, size, warmup)))
  {
    hide MadeUp;
    var m := |flags| - 1;
    var before := flags[..m];
    forall k: nat | k < m
      ensures MadeUpBefore(flags, size, warmup, n, k) <==> MadeUpBefore(before, size, warmup, n, k)
    {
      assert flags[..k] == before[..k];
    }
    if flags[m] { MadeUpNow(flags, size, warmup, n); }
  }

  lemma MadeUpNow(flags: seq<bool>, size: nat, warmup: nat, n: nat)
    requires warmup < size && flags != [] && flags[|flags| - 1]
    ensures var m := |flags| - 1; MadeUpBefore(flags, size, warmup, n, m) <==> n in MadeUp(flags[..m], size, warmup)
  {
    hide Range;
    var m := |flags| - 1;
    var before := flags[..m];
    var run := Trailing(before);
    if n < m && n < m - run { assert flags[m - run - 1] == before[m - run - 1]; }
    if m - run <= n < m { assert forall j :: n <= j < m ==> flags[j] == before[j]; }
    InRange(if run <= size then m - run else m - size + warmup, m, n);
  }

  lemma InRange(from: nat, to: nat, n: nat)
    ensures n in Range(from, to) <==> from <= n < to
  {
    if from <= n < to { assert Range(from, to)[n - from] == n; }
  }

  /** The physical index of the entry `k` places after the oldest of `count`. */
  function EntryIndex(k: nat, count: nat, next: nat, size: nat): (i: nat)
    requires k < count <= size && next < size
    ensures i < size
  {
    var start: int := next - count;
    Wrap((if start < 0 then start + size else start) + k, size)
  }

  /** The `count` entries up to `next` record the newest blocks. */
  ghost predicate CollarHolds(cells: seq<CollarBlock>, count: nat, next: nat, blocks: seq<seq<Byte>>, flags: seq<bool>)
  {
    && next < |cells| && |flags| == |blocks|
    && count == (if |blocks| < |cells| then |blocks| else |cells|)
    && forall k :: 0 <= k < count ==>
         Recorded(cells[EntryIndex(k, count, next, |cells|)], blocks[|blocks| - count + k], flags[|blocks| - count + k])
  }

  lemma CollarStep(cells: seq<CollarBlock>, count: nat, next: nat, blocks: seq<seq<Byte>>, flags: seq<bool>,
                   entry: CollarBlock, block: seq<Byte>, decode: bool)
    requires CollarHolds(cells, count, next, blocks, flags) && Recorded(entry, block, decode)
    ensures CollarHolds(cells[next := entry], if count < |cells| then count + 1 else count,
                        if next + 1 == |cells| then 0 else next + 1, blocks + [block], flags + [decode])
  {
    hide Recorded;
    var size := |cells|;
    var count', next' := if count < size then count + 1 else count, if next + 1 == size then 0 else next + 1;
    var dropped := if count < size then 0 else 1;
    forall k | 0 <= k < count'
      ensures Recorded(cells[next := entry][EntryIndex(k, count', next', size)],
                       (blocks + [block])[|blocks| + 1 - count' + k], (flags + [decode])[|blocks| + 1 - count' + k])
    {
      if k < count' - 1 {
        assert EntryIndex(k, count', next', size) == EntryIndex(k + dropped, count, next, size) != next;
      } else {
        assert EntryIndex(k, count', next', size) == next;
      }
    }
  }

  class Receiver {
    const g: Geometry
    const gated: bool
    const warmupBlocks: nat
    const d: Decoder
    const collar: array<CollarBlock>
    var collarCount: nat
    var collarNext: nat
    var wasSkipped: bool
    var skippedRun: nat
    var rebuilds: nat
    var replayedBlocks: nat

    /** Every block received and whether it was decoded live. */
    ghost var blocks: seq<seq<Byte>>
    ghost var flags: seq<bool>
    /** Everything any parser was shown. */
    ghost var shown: seq<Shown>

    ghost predicate Apart()
    {
      this as object !in d.Repr() && collar as object !in d.Repr()
    }

    ghost predicate CollarPart()
      reads this, collar
    {
      CollarHolds(collar[..], collarCount, collarNext, blocks, flags)
    }

    /** `skippedRun` blocks were skipped since the last one decoded. */
    ghost predicate RunPart()
      requires |flags| == |blocks|
      reads this
    {
      && skippedRun <= |blocks| && wasSkipped == (0 < skippedRun)
      && skippedRun == Trailing(flags) && (!gated ==> skippedRun == 0)
    }

    ghost predicate Valid()
      reads this, collar, d.Repr()
    {
      && Apart() && d.Valid() && d.g == g && g.Valid()
      && warmupBlocks == WarmupBlocks(g.blockSize, g.BufferLength()) && collar.Length > warmupBlocks
      && CollarPart() && RunPart() && Blocks(g, blocks)
      && Faithful(g, d.stream, StreamOf(blocks[..|blocks| - skippedRun]))
      && AllExact(g, shown, blocks) && Numbers(shown) == Due(flags, collar.Length, warmupBlocks)
    }

    constructor (d: Decoder, gated: bool, sampleRate: nat)
      requires d.Valid() && d.stream == []
      ensures Valid() && this.d == d && blocks == [] && shown == [] && this.gated == gated
      ensures collar.Length == CollarBlocks(sampleRate, g.blockSize, g.BufferLength())
    {
      var size := CollarBlocks(sampleRate, d.g.blockSize, d.g.BufferLength());
      this.d, this.g, this.gated := d, d.g, gated;
      warmupBlocks := WarmupBlocks(d.g.blockSize, d.g.BufferLength());
      collar := new CollarBlock[size](_ => CollarBlock([], false, false));
      collarCount, collarNext, wasSkipped, skippedRun, rebuilds, replayedBlocks := 0, 0, false, 0, 0, 0;
      blocks, flags, shown := [], [], [];
    }

    method OrderedCollar() returns (entries: seq<CollarBlock>)
      requires CollarPart()
      ensures |entries| == collarCount
      ensures forall k :: 0 <= k < collarCount ==>
        Recorded(entries[k], blocks[|blocks| - collarCount + k], flags[|blocks| - collarCount + k])
    {
      entries := [];
      var start: int := collarNext - collarCount;
      if start < 0 { start := start + collar.Length; }
      for offset := 0 to collarCount
        invariant |entries| == offset
        invariant forall k :: 0 <= k < offset ==>
          Recorded(entries[k], blocks[|blocks| - collarCount + k], flags[|blocks| - collarCount + k])
      {
        var idx := start + offset;
        if idx >= collar.Length { idx := idx - collar.Length; }
        assert idx == EntryIndex(offset, collarCount, collarNext, collar.Length);
        entries := entries + [collar[idx]];
      }
    }

    /** Feeds one block to the decoder and shows the result to the parsers. */
    method DecodeAndShow(data: seq<Byte>, ghost number: nat, publish: bool)
      requires Apart() && d.Valid() && d.g == g && g.Valid() && |data| == 2 * g.blockSize
      modifies this`shown, d.Repr()
      ensures d.Valid() && d.stream == old(d.stream) + Powers(data)
      ensures shown == old(shown) + [Shown(number, publish, DecisionHistory(g, d.stream), PowerTail(g, d.stream))]
    {
      d.Decode(data);
      shown := shown + [Shown(number, publish, DecisionHistory(g, d.stream), PowerTail(g, d.stream))];
    }

    /** The retained entries are the newest blocks received. */
    ghost predicate Retained(entries: seq<CollarBlock>)
      reads this
    {
      && |entries| <= |blocks| == |flags|
      && forall k :: 0 <= k < |entries| ==>
           Recorded(entries[k], blocks[|blocks| - |entries| + k], flags[|blocks| - |entries| + k])
    }

    /** A sleep that fits the collar: only the skipped run is replayed, all of it
        shown. */
    method ReplaySkipped(entries: seq<CollarBlock>)
      requires Apart() && d.Valid() && d.g == g && g.Valid() && Blocks(g, blocks) && Retained(entries)
      requires skippedRun <= |entries| && forall i :: |blocks| - skippedRun <= i < |blocks| ==> !flags[i]
      requires Faithful(g, d.stream, StreamOf(blocks[..|blocks| - skippedRun])) && AllExact(g, shown, blocks)
      modifies this`shown, d.Repr()
      ensures d.Valid() && Faithful(g, d.stream, StreamOf(blocks)) && AllExact(g, shown, blocks)
      ensures |shown| == |old(shown)| + skippedRun
      ensures Numbers(shown) == Numbers(old(shown)) + Range(|blocks| - skippedRun, |blocks|)
    {
      hide Decoder.Valid, DecisionHistory, PowerTail, StreamOf, Powers, Faithful, AllExact, Geometry.Valid, Numbers,
           Range;
      ghost var first := |blocks| - |entries|;
      for k := |entries| - skippedRun to |entries|
        invariant d.Valid() && Faithful(g, d.stream, StreamOf(blocks[..first + k])) && AllExact(g, shown, blocks)
        invariant |shown| == |old(shown)| + skippedRun + k - |entries|
        invariant Numbers(shown) == Numbers(old(shown)) + Range(|blocks| - skippedRun, first + k)
      {
        assert Recorded(entries[k], blocks[first + k], flags[first + k]);
        ghost var fed, before := d.stream, shown;
        DecodeAndShow(entries[k].data, |blocks| - |entries| + k, true);
        NextPrefix(blocks, first + k);
        FaithfulStep(g, fed, StreamOf(blocks[..first + k]), Powers(entries[k].data));
        ShowsExact(g, before, first + k, true, d.stream, blocks);
        NumbersNext(before, shown[|before|]);
        RangeNext(|blocks| - skippedRun, first + k);
      }
      assert blocks[..first + |entries|] == blocks;
    }

    /** A longer sleep: the decoder starts afresh and sees the whole collar; what it
        shows is published once it is warm. */
    method ReplayAll(entries: seq<CollarBlock>) returns (ok: bool)
      requires Apart() && d.Valid() && d.g == g && g.Valid() && Blocks(g, blocks) && Retained(entries)
      requires warmupBlocks == WarmupBlocks(g.blockSize, g.BufferLength()) < |entries|
      requires forall i :: |blocks| - |entries| <= i < |blocks| ==> !flags[i]
      requires AllExact(g, shown, blocks)
      modifies this`shown, d.Repr()
      ensures ok
      ensures d.Valid() && Faithful(g, d.stream, StreamOf(blocks)) && AllExact(g, shown, blocks)
      ensures |shown| == |old(shown)| + |entries|
      ensures Numbers(shown) == Numbers(old(shown)) + Range(|blocks| - |entries| + warmupBlocks, |blocks|)
    {
      hide Decoder.Valid, DecisionHistory, PowerTail, StreamOf, Powers, Faithful, AllExact, Geometry.Valid, Numbers,
           Range;
      EmptyStream();
      d.Reset();
      ghost var first := |blocks| - |entries|;
      assert blocks[first..first + 0] == [];
      for idx := 0 to |entries|
        invariant d.Valid() && d.stream == StreamOf(blocks[first..first + idx]) && AllExact(g, shown, blocks)
        invariant |shown| == |old(shown)| + idx
        invariant Numbers(shown) == Numbers(old(shown)) + Range(first + warmupBlocks, first + idx)
      {
        var entry := entries[idx];
        assert Recorded(entry, blocks[first + idx], flags[first + idx]);
        if !entry.rawValid { return false; }
        ghost var replayed := blocks[first..first + idx];
        ghost var whole := blocks[..first + idx + 1];
        assert whole == blocks[..first] + blocks[first..first + idx + 1];
        assert blocks[first..first + idx + 1] == replayed + [blocks[first + idx]];
        StreamStep(replayed, blocks[first + idx]);
        if idx >= warmupBlocks { ReplaySuffices(g, blocks[..first], blocks[first..first + idx + 1]); }
        ghost var before := shown;
        DecodeAndShow(entry.data, |blocks| - |entries| + idx, !entry.decoded && idx >= warmupBlocks);
        ShowsExact(g, before, first + idx, !entry.decoded && idx >= warmupBlocks, d.stream, blocks);
        NumbersNext(before, shown[|before|]);
        RangeNext(first + warmupBlocks, first + idx);
      }
      ok := true;
      assert blocks == blocks[..first] + blocks[first..first + |entries|];
      ReplaySuffices(g, blocks[..first], blocks[first..first + |entries|]);
    }

    /** Brings the decoder up to date before the first block after a sleep.  The
        error return of the full replay is never taken. */
    method Rebuild() returns (ok: bool)
      requires Valid() && wasSkipped
      modifies this`shown, this`rebuilds, this`replayedBlocks, d.Repr()
      ensures ok && d.Valid()
      ensures Faithful(g, d.stream, StreamOf(blocks)) && AllExact(g, shown, blocks)
      ensures Numbers(shown) == Numbers(old(shown)) + MadeUp(flags, collar.Length, warmupBlocks)
      ensures rebuilds == old(rebuilds) + 1
      ensures replayedBlocks == old(replayedBlocks) + (if skippedRun <= collarCount then skippedRun else collarCount)
    {
      hide Decoder.Valid, DecisionHistory, PowerTail, StreamOf, Powers, Faithful, AllExact, Geometry.Valid, Numbers,
           Due;
      var entries := OrderedCollar();
      if 0 < skippedRun <= |entries| {
        var start := |entries| - skippedRun;
        var complete := true;
        for k := start to |entries|
          invariant complete
        {
          assert Recorded(entries[k], blocks[|blocks| - |entries| + k], flags[|blocks| - |entries| + k]);
          if entries[k].decoded || !entries[k].rawValid { complete := false; break; }
        }
        if complete {
          ReplaySkipped(entries);
          rebuilds, replayedBlocks := rebuilds + 1, replayedBlocks + skippedRun;
          return true;
        }
      }
      ok := ReplayAll(entries);
      if ok { rebuilds, replayedBlocks := rebuilds + 1, replayedBlocks + |entries|; }
    }

    /** Records the block just handled. */
    method FinishBlock(block: seq<Byte>, decode: bool)
      requires 0 < collar.Length && CollarPart() && RunPart() && (gated || decode)
      modifies this`collarCount, this`collarNext, this`wasSkipped, this`skippedRun, this`blocks, this`flags, collar
      ensures CollarPart() && RunPart()
      ensures blocks == old(blocks) + [block] && flags == old(flags) + [decode]
      ensures skippedRun == if decode then 0 else old(skippedRun) + 1
    {
      hide Recorded, EntryIndex, Trailing;
      TrailingNext(flags, decode);
      var entry := collar[collarNext].(decoded := decode, rawValid := !decode);
      if entry.rawValid { entry := entry.(data := block); }
      assert Recorded(entry, block, decode) by { Records(entry, block, decode); }
      CollarStep(collar[..], collarCount, collarNext, blocks, flags, entry, block, decode);
      ghost var cells := collar[..];
      collar[collarNext] := entry;
      assert collar[..] == cells[collarNext := entry];
      collarNext := collarNext + 1;
      if collarNext == collar.Length { collarNext := 0; }
      if collarCount < collar.Length { collarCount := collarCount + 1; }
      if decode { skippedRun := 0; } else { skippedRun := skippedRun + 1; }
      wasSkipped := !decode;
      blocks, flags := blocks + [block], flags + [decode];
    }

    /** One block of input, decoded or skipped as the scheduler decided.  Outside
        gated mode the scheduler always decides to decode. */
    method ProcessBlock(block: seq<Byte>, decode: bool) returns (ok: bool)
      requires Valid() && |block| == 2 * g.blockSize && (gated || decode)
      modifies this, collar, d.Repr()
      ensures ok && Valid() && blocks == old(blocks) + [block] && flags == old(flags) + [decode]
      ensures Numbers(shown) == Due(flags, collar.Length, warmupBlocks)
      ensures decode ==> |shown| > 0 && shown[|shown| - 1].published && shown[|shown| - 1].block == |blocks| - 1
      ensures decode ==> d.view == DecisionHistory(g, StreamOf(blocks))
      ensures decode ==> PowerTail(g, d.stream) == PowerTail(g, StreamOf(blocks))
    {
      hide Decoder.Valid, DecisionHistory, PowerTail, StreamOf, Powers, Faithful, Exact, Geometry.Valid, Numbers,
           MadeUp, Due, Trailing;
      DueNext(flags, decode, collar.Length, warmupBlocks);
      ok := true;
      ghost var before := blocks;
      StreamStep(before, block);
      assert before[..|before| - 0] == before;
      if gated && wasSkipped && decode {
        ok := Rebuild();
      }
      ExactStays(g, shown, before, [block]);
      assert (before + [block])[..|before| + 1] == before + [block];
      ghost var fed, before' := d.stream, shown;
      if decode {
        DecodeAndShow(block, |before|, true);
        NumbersNext(before', shown[|before'|]);
        FaithfulStep(g, fed, StreamOf(before), Powers(block));
        ShowsExact(g, before', |before|, true, d.stream, before + [block]);
        FaithfulHistories(g, d.stream, StreamOf(before + [block]));
      }
      FinishBlock(block, decode);
      assert blocks[..|blocks| - skippedRun] == if decode then before + [block]
             else before[..|before| - old(skippedRun)];
    }
  }

  lemma EmptyStream()
    ensures StreamOf([]) == []
  {
  }

  lemma RangeNext(from: nat, to: nat)
    ensures Range(from, to + 1) == Range(from, to) + (if from <= to then [to] else [])
  {
  }

  lemma DueNext(flags: seq<bool>, decode: bool, size: nat, warmup: nat)
    requires warmup < size
    ensures Due(flags + [decode], size, warmup) ==
            Due(flags, size, warmup) + (if decode then MadeUp(flags, size, warmup) + [|flags|] else [])
    ensures Trailing(flags) == 0 ==> MadeUp(flags, size, warmup) == []
  {
    assert (flags + [decode])[..|flags|] == flags;
  }

  lemma TrailingNext(flags: seq<bool>, decode: bool)
    ensures Trailing(flags + [decode]) == if decode then 0 else Trailing(flags) + 1
  {
    assert (flags + [decode])[..|flags|] == flags;
  }

  lemma NextPrefix(blocks: seq<seq<Byte>>, k: nat)
    requires k < |blocks|
    ensures StreamOf(blocks[..k + 1]) == StreamOf(blocks[..k]) + Powers(blocks[k])
  {
    assert blocks[..k + 1] == blocks[..k] + [blocks[k]];
    StreamStep(blocks[..k], blocks[k]);
  }
}
