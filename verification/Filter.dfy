/** The Manchester matched filter on integer powers: rolling 32-bit chip sums
    block by block, against the direct test over the whole stream. */
module Filter {
  import opened Basics
  import opened Histories
  import opened PowerHistory

  /** Go's `int32` conversion of a mathematical integer. */
  function Wrap32(x: int): (r: int)
    ensures -0x8000_0000 <= r < 0x8000_0000
  {
    (x + 0x8000_0000) % 0x1_0000_0000 - 0x8000_0000
  }

  /** Wrapping takes off a multiple of 2^32. */
  lemma Wrap32Off(x: int) returns (k: int)
    ensures x == Wrap32(x) + 0x1_0000_0000 * k
  {
    k := (x + 0x8000_0000) / 0x1_0000_0000;
  }

  lemma Wrap32Is(x: int, r: int, k: int)
    requires x == r + 0x1_0000_0000 * k && -0x8000_0000 <= r < 0x8000_0000
    ensures Wrap32(x) == r
  {
    DivModUnique(x + 0x8000_0000, 0x1_0000_0000, k, r + 0x8000_0000);
  }

  /** What is left does not depend on multiples of 2^32. */
  lemma Wrap32Same(x: int, y: int, k: int)
    requires x == y + 0x1_0000_0000 * k
    ensures Wrap32(x) == Wrap32(y)
  {
    hide Wrap32;
    var j := Wrap32Off(y);
    Wrap32Is(x, Wrap32(y), k + j);
  }

  lemma Wrap32Add(x: int, y: int)
    ensures Wrap32(Wrap32(x) + y) == Wrap32(x + y)
    ensures Wrap32(Wrap32(x) - y) == Wrap32(x - y)
  {
    hide Wrap32;
    var k := Wrap32Off(x);
    Wrap32Same(Wrap32(x) + y, x + y, -k);
    Wrap32Same(Wrap32(x) - y, x - y, -k);
  }

  lemma Wrap32Sub(x: int, y: int)
    ensures Wrap32(Wrap32(x) - Wrap32(y)) == Wrap32(x - y)
  {
    hide Wrap32;
    var j := Wrap32Off(x);
    var k := Wrap32Off(y);
    Wrap32Same(Wrap32(x) - Wrap32(y), x - y, k - j);
  }

  function Sum(s: seq<Power>, lo: nat, hi: nat): (r: nat)
    requires lo <= hi <= |s|
    decreases hi - lo
  {
    if lo == hi then 0 else Sum(s, lo, hi - 1) + s[hi - 1]
  }

  lemma {:induction false} SumRoll(s: seq<Power>, lo: nat, hi: nat)
    requires lo < hi <= |s|
    ensures Sum(s, lo, hi) == s[lo] + Sum(s, lo + 1, hi)
    decreases hi
  {
    if lo + 1 < hi { SumRoll(s, lo, hi - 1); }
  }

  /** A sum over a slice of a stream is a sum over the stream. */
  lemma {:induction false} SumSlice(s: seq<Power>, from: nat, to: nat, lo: nat, hi: nat)
    requires from <= to <= |s| && lo <= hi <= to - from
    ensures Sum(s[from..to], lo, hi) == Sum(s, from + lo, from + hi)
    decreases hi - lo
  {
    if lo < hi { SumSlice(s, from, to, lo, hi - 1); }
  }

  lemma {:induction false} SumBound(s: seq<Power>, lo: nat, hi: nat)
    requires lo <= hi <= |s|
    requires forall k :: lo <= k < hi ==> s[k] <= 65025
    ensures Sum(s, lo, hi) <= 65025 * (hi - lo)
    decreases hi - lo
  {
    if lo < hi { SumBound(s, lo, hi - 1); }
  }

  /** The direct test: the first chip of the symbol at `at` against the second. */
  function Decide(s: seq<Power>, at: nat, chip: nat): (d: Decision)
    requires at + 2 * chip <= |s|
  {
    if Sum(s, at, at + chip) >= Sum(s, at + chip, at + 2 * chip) then 1 else 0
  }

  lemma {:induction false} SumLevel(s: seq<Power>, lo: nat, hi: nat, level: nat)
    requires lo <= hi <= |s|
    ensures (forall k :: lo <= k < hi ==> s[k] >= level) ==> Sum(s, lo, hi) >= level * (hi - lo)
    ensures (forall k :: lo <= k < hi ==> s[k] <= level) ==> Sum(s, lo, hi) <= level * (hi - lo)
    decreases hi - lo
  {
    if lo < hi {
      SumLevel(s, lo, hi - 1, level);
      assert level * (hi - lo) == level * (hi - 1 - lo) + level;
    }
  }

  /** A power that falls from one chip to the next, or stays the same, is a one; one that
      rises is a zero. */
  lemma DecisionMeans(s: seq<Power>, at: nat, chip: nat, level: nat)
    requires at + 2 * chip <= |s| && 0 < chip
    ensures (forall k :: 0 <= k - at < 2 * chip ==> if k < at + chip then s[k] >= level else s[k] <= level)
            ==> Decide(s, at, chip) == 1
    ensures (forall k :: 0 <= k - at < 2 * chip ==> if k < at + chip then s[k] <= level else s[k] > level)
            ==> Decide(s, at, chip) == 0
  {
    hide Sum;
    SumLevel(s, at, at + chip, level);
    SumLevel(s, at + chip, at + 2 * chip, level);
    SumLevel(s, at + chip, at + 2 * chip, level + 1);
    assert (level + 1) * chip == level * chip + chip;
  }

  /** The same test on `int32` sums that may have wrapped. */
  function Decide32(s: seq<Power>, at: nat, chip: nat): (d: Decision)
    requires at + 2 * chip <= |s|
  {
    if Wrap32(Sum(s, at, at + chip) - Sum(s, at + chip, at + 2 * chip)) >= 0 then 1 else 0
  }

  /** 32 bits are enough for every chip of at most 33025 samples. */
  lemma Int32Suffices(s: seq<Power>, at: nat, chip: nat)
    requires at + 2 * chip <= |s| && chip <= 33025
    requires forall k :: at <= k < at + 2 * chip ==> s[k] <= 65025
    ensures Wrap32(Sum(s, at, at + chip)) == Sum(s, at, at + chip)
    ensures Wrap32(Sum(s, at + chip, at + 2 * chip)) == Sum(s, at + chip, at + 2 * chip)
    ensures Decide32(s, at, chip) == Decide(s, at, chip)
  {
    hide Sum, Wrap32;
    SumBound(s, at, at + chip);
    SumBound(s, at + chip, at + 2 * chip);
    var lower, upper := Sum(s, at, at + chip), Sum(s, at + chip, at + 2 * chip);
    Wrap32Is(lower, lower, 0);
    Wrap32Is(upper, upper, 0);
    Wrap32Is(lower as int - upper as int, lower as int - upper as int, 0);
  }

  lemma DecideSlice(s: seq<Power>, from: nat, to: nat, at: nat, chip: nat)
    requires from <= to <= |s| && at + 2 * chip <= to - from
    ensures Decide(s[from..to], at, chip) == Decide(s, from + at, chip)
  {
    SumSlice(s, from, to, at, at + chip);
    SumSlice(s, from, to, at + chip, at + 2 * chip);
  }

  /** Decisions for `count` consecutive samples of `input`, written at `to`. */
  method Manchester(output: array<Decision>, to: nat, count: nat, input: seq<Power>, chip: nat)
    requires 0 < chip && count + 2 * chip <= |input| && to + count <= output.Length
    modifies output
    ensures forall k :: 0 <= k < count ==> output[to..to + count][k] == Decide32(input, k, chip)
    ensures forall k :: (0 <= k < to || to + count <= k < output.Length) ==> output[k] == old(output[k])
  {
    hide Wrap32, Sum, Decide32;
    NothingYet(input, chip);
    var lower, upper := 0, 0;
    for idx := 0 to chip
      invariant lower == Wrap32(Sum(input, 0, idx)) && upper == Wrap32(Sum(input, chip, chip + idx))
      modifies {}
    {
      GrowWrapped(input, 0, idx, lower);
      GrowWrapped(input, chip, chip + idx, upper);
      lower := Wrap32(lower + input[idx]);
      upper := Wrap32(upper + input[idx + chip]);
    }
    for idx := 0 to count
      invariant lower == Wrap32(Sum(input, idx, idx + chip))
      invariant upper == Wrap32(Sum(input, idx + chip, idx + 2 * chip))
      invariant forall k :: to <= k < to + idx ==> output[k] == Decide32(input, k - to, chip)
      invariant forall k :: (0 <= k < to || to + idx <= k < output.Length) ==> output[k] == old(output[k])
    {
      DecideWrapped(input, idx, chip, lower, upper);
      output[to + idx] := if Wrap32(lower - upper) >= 0 then 1 else 0;
      RollWrapped(input, idx, chip, lower);
      RollWrapped(input, idx + chip, chip, upper);
      lower := Wrap32(lower + (input[idx + chip] as int - input[idx] as int));
      upper := Wrap32(upper + (input[idx + chip * 2] as int - input[idx + chip] as int));
    }
  }

  lemma NothingYet(s: seq<Power>, chip: nat)
    requires chip <= |s|
    ensures Wrap32(Sum(s, 0, 0)) == 0 == Wrap32(Sum(s, chip, chip))
  {
  }

  lemma GrowWrapped(s: seq<Power>, lo: nat, hi: nat, sum: int)
    requires lo <= hi < |s| && sum == Wrap32(Sum(s, lo, hi))
    ensures Wrap32(sum + s[hi]) == Wrap32(Sum(s, lo, hi + 1))
  {
    hide Wrap32;
    Wrap32Add(Sum(s, lo, hi), s[hi]);
  }

  lemma DecideWrapped(s: seq<Power>, at: nat, chip: nat, lower: int, upper: int)
    requires at + 2 * chip <= |s| && lower == Wrap32(Sum(s, at, at + chip)) &&
             upper == Wrap32(Sum(s, at + chip, at + 2 * chip))
    ensures (if Wrap32(lower - upper) >= 0 then 1 else 0) == Decide32(s, at, chip)
  {
    hide Wrap32, Sum;
    Wrap32Sub(Sum(s, at, at + chip), Sum(s, at + chip, at + 2 * chip));
  }

  lemma RollWrapped(s: seq<Power>, at: nat, chip: nat, sum: int)
    requires 0 < chip && at + chip < |s| && sum == Wrap32(Sum(s, at, at + chip))
    ensures Wrap32(sum + (s[at + chip] as int - s[at] as int)) == Wrap32(Sum(s, at + 1, at + 1 + chip))
  {
    hide Wrap32, Sum;
    Roll(s, at, chip);
    Wrap32Add(Sum(s, at, at + chip), s[at + chip] as int - s[at] as int);
  }

  lemma Roll(s: seq<Power>, at: nat, chip: nat)
    requires 0 < chip && at + chip < |s|
    ensures Sum(s, at + 1, at + 1 + chip) == Sum(s, at, at + chip) + s[at + chip] as int - s[at] as int
  {
    SumRoll(s, at, at + 1 + chip);
  }

  /** All decisions of a stream preceded by one silent symbol. */
  function StreamDecisions(stream: seq<Power>, chip: nat): (d: seq<Decision>)
    ensures |d| == |stream|
  {
    var padded := Zeros(2 * chip, 0) + stream;
    seq(|stream|, k requires 0 <= k < |stream| => Decide(padded, k, chip))
  }

  /** What the filter computes for one block from its window: the last symbol of
      the old samples and the new block. */
  function WindowDecisions(window: seq<Power>, chip: nat): (d: seq<Decision>)
    requires 2 * chip <= |window|
    ensures |d| == |window| - 2 * chip
  {
    seq(|window| - 2 * chip, k requires 0 <= k < |window| - 2 * chip => Decide(window, k, chip))
  }

  /** Filtering block by block is filtering the whole stream. */
  lemma BlockwiseIsStreamwise(stream: seq<Power>, block: seq<Power>, chip: nat)
    ensures StreamDecisions(stream + block, chip)
         == StreamDecisions(stream, chip) + WindowDecisions(Tail(stream + block, 2 * chip + |block|, 0), chip)
  {
    var whole := stream + block;
    var window := Tail(whole, 2 * chip + |block|, 0);
    var l, r := StreamDecisions(whole, chip), StreamDecisions(stream, chip) + WindowDecisions(window, chip);
    var padded := Zeros(2 * chip, 0) + whole;
    assert window == padded[|stream|..|padded|];
    forall k | 0 <= k < |l| ensures l[k] == r[k] {
      if k < |stream| {
        var short := Zeros(2 * chip, 0) + stream;
        assert short == padded[0..|short|];
        DecideSlice(padded, 0, |short|, k, chip);
      } else {
        DecideSlice(padded, |stream|, |padded|, k - |stream|, chip);
      }
    }
  }

  /** The last `n` decisions depend only on the last `n` samples and one symbol. */
  lemma RecentDecisions(earlier: seq<Power>, recent: seq<Power>, chip: nat, n: nat)
    requires n + 2 * chip <= |recent|
    ensures Tail(StreamDecisions(earlier + recent, chip), n, 0) == Tail(StreamDecisions(recent, chip), n, 0)
  {
    var a, b := StreamDecisions(earlier + recent, chip), StreamDecisions(recent, chip);
    var x, y := a[|a| - n..], b[|b| - n..];
    forall k | 0 <= k < n ensures x[k] == y[k] {
      SameDecision(Zeros(2 * chip, 0) + earlier, recent, chip, |recent| - n + k - 2 * chip);
      SameDecision(Zeros(2 * chip, 0), recent, chip, |recent| - n + k - 2 * chip);
      assert Zeros(2 * chip, 0) + (earlier + recent) == (Zeros(2 * chip, 0) + earlier) + recent;
    }
    assert Tail(a, n, 0) == x;
    assert Tail(b, n, 0) == y;
  }

  lemma SameDecision(before: seq<Power>, s: seq<Power>, chip: nat, at: nat)
    requires at + 2 * chip <= |s|
    ensures Decide(before + s, |before| + at, chip) == Decide(s, at, chip)
  {
    AppendedSlice(before, s, at, at + 2 * chip);
    DecideSlice(before + s, |before| + at, |before| + at + 2 * chip, 0, chip);
    DecideSlice(s, at, at + 2 * chip, 0, chip);
  }

  lemma AppendedSlice<T>(before: seq<T>, s: seq<T>, i: nat, j: nat)
    requires i <= j <= |s|
    ensures (before + s)[|before| + i..|before| + j] == s[i..j]
  {
  }
}
