/** Preamble search: eight sample phases at a time on packed decisions, and the
    older two-phase search, against the scalar definition of a match. */
module Search {
  import opened Basics
  import opened Histories
  import opened Packing
  import opened PowerHistory

  /** Every preamble symbol is found, `symbol` samples apart, from position `q` on. */
  ghost predicate Match(view: seq<Decision>, preamble: seq<Decision>, symbol: nat, q: nat)
  {
    forall p :: 0 <= p < |preamble| ==> SymbolAt(view, preamble, symbol, q, p)
  }

  ghost predicate SymbolAt(view: seq<Decision>, preamble: seq<Decision>, symbol: nat, q: nat, p: nat)
    requires p < |preamble|
  {
    q + At(p, symbol) < |view| && view[q + At(p, symbol)] == preamble[p]
  }

  /** The scalar search: all matching positions below `count`, in order. */
  ghost function Hits(view: seq<Decision>, preamble: seq<Decision>, symbol: nat, count: nat): (h: seq<nat>)
  {
    if count == 0 then []
    else
      Hits(view, preamble, symbol, count - 1) + (if Match(view, preamble, symbol, count - 1) then [count - 1] else [])
  }

  ghost predicate Ascending(s: seq<nat>)
  {
    forall i, j :: 0 <= i < j < |s| ==> s[i] < s[j]
  }

  lemma AppendAscending(s: seq<nat>, x: nat)
    requires Ascending(s) && forall q :: q in s ==> q < x
    ensures Ascending(s + [x])
  {
    forall i, j | 0 <= i < j < |s| + 1 ensures (s + [x])[i] < (s + [x])[j] {
      assert s[i] in s;
    }
  }

  lemma TakeBelow(a: seq<nat>, i: nat)
    requires Ascending(a) && i < |a|
    ensures forall q :: q in a[..i] ==> q in a && q < a[i]
    ensures forall q :: q in a[..i + 1] <==> q in a[..i] || q == a[i]
  {
    assert a[..i + 1] == a[..i] + [a[i]];
  }

  lemma {:induction false} HitsExact(view: seq<Decision>, preamble: seq<Decision>, symbol: nat, count: nat)
    ensures Ascending(Hits(view, preamble, symbol, count))
    ensures forall q: nat :: q in Hits(view, preamble, symbol, count) <==> q < count && Match(view, preamble, symbol, q)
  {
    hide Match;
    if count > 0 {
      HitsExact(view, preamble, symbol, count - 1);
      AppendAscending(Hits(view, preamble, symbol, count - 1), count - 1);
    }
  }

  lemma {:induction false} NoHits(view: seq<Decision>, preamble: seq<Decision>, symbol: nat, lo: nat, hi: nat)
    requires lo <= hi && forall q :: lo <= q < hi ==> !Match(view, preamble, symbol, q)
    ensures Hits(view, preamble, symbol, hi) == Hits(view, preamble, symbol, lo)
    decreases hi - lo
  {
    if lo < hi { NoHits(view, preamble, symbol, lo, hi - 1); }
  }

  /** 0x00 where the preamble has a one, 0xff where it has a zero. */
  function Flip(bit: Decision): bv8
  {
    (bit ^ 1) * 0xff
  }

  function LeadingZeros8(b: bv8): (n: nat)
    ensures n <= 8
    ensures forall k :: 0 <= k < n ==> !Bit(b, k)
    ensures b != 0 ==> n < 8 && Bit(b, n)
  {
    if b & 0x80 != 0 then 0 else if b & 0x40 != 0 then 1 else if b & 0x20 != 0 then 2 else if b & 0x10 != 0 then 3
    else if b & 0x08 != 0 then 4 else if b & 0x04 != 0 then 5 else if b & 0x02 != 0 then 6
    else if b & 0x01 != 0 then 7 else assert b == 0 by { ZeroByte(b); } 8
  }

  lemma ZeroByte(b: bv8)
    requires b & 0x80 == 0 && b & 0x40 == 0 && b & 0x20 == 0 && b & 0x10 == 0
    requires b & 0x08 == 0 && b & 0x04 == 0 && b & 0x02 == 0 && b & 0x01 == 0
    ensures b == 0
  {
  }

  lemma AndBit(a: bv8, b: bv8, k: nat)
    requires k < 8
    ensures Bit(a & b, k) <==> Bit(a, k) && Bit(b, k)
  {
  }

  lemma FlipBit(a: bv8, bit: Decision, k: nat)
    requires k < 8
    ensures Bit(a ^ Flip(bit), k) <==> (Bit(a, k) <==> bit == 1)
  {
  }

  lemma ClearBit(a: bv8, n: nat, k: nat)
    requires n < 8 && k < 8
    ensures Bit(a & !Mask(n), k) <==> Bit(a, k) && k != n
  {
  }

  ghost predicate InRange(packed: seq<bv8>, step: nat, q: nat, n: nat)
  {
    forall p :: 0 <= p < n ==> q + At(p, step) < |packed|
  }

  /** The phases of packed byte `q` at which the first `n` symbols match. */
  ghost function Candidates(packed: seq<bv8>, preamble: seq<Decision>, step: nat, q: nat, n: nat): bv8
    requires n <= |preamble| && InRange(packed, step, q, n)
  {
    if n == 0 then 0xff
    else Candidates(packed, preamble, step, q, n - 1) & (packed[q + At(n - 1, step)] ^ Flip(preamble[n - 1]))
  }

  lemma CandidateStep(packed: seq<bv8>, preamble: seq<Decision>, step: nat, q: nat, n: nat)
    requires n < |preamble| && InRange(packed, step, q, |preamble|)
    ensures Candidates(packed, preamble, step, q, n + 1)
         == Candidates(packed, preamble, step, q, n) & (packed[q + At(n, step)] ^ Flip(preamble[n]))
    ensures Candidates(packed, preamble, step, q, 0) == 0xff
  {
  }

  ghost predicate BitMatches(packed: seq<bv8>, preamble: seq<Decision>, step: nat, q: nat, k: nat, p: nat)
    requires k < 8 && p < |preamble|
  {
    q + At(p, step) < |packed| && (Bit(packed[q + At(p, step)], k) <==> preamble[p] == 1)
  }

  lemma AllBits(k: nat)
    requires k < 8
    ensures Bit(0xff, k)
  {
  }

  lemma {:induction false} CandidateBits(packed: seq<bv8>, preamble: seq<Decision>, step: nat, q: nat, n: nat, k: nat)
    requires n <= |preamble| && InRange(packed, step, q, |preamble|) && k < 8
    ensures Bit(Candidates(packed, preamble, step, q, n), k)
       <==> forall p :: 0 <= p < n ==> BitMatches(packed, preamble, step, q, k, p)
  {
    hide Bit, Flip, Candidates, BitMatches;
    if n == 0 {
      AllBits(k);
      assert Candidates(packed, preamble, step, q, 0) == 0xff by { NoSymbols(packed, preamble, step, q); }
    } else {
      CandidateBits(packed, preamble, step, q, n - 1, k);
      CandidateStep(packed, preamble, step, q, n - 1);
      AndBit(Candidates(packed, preamble, step, q, n - 1), packed[q + At(n - 1, step)] ^ Flip(preamble[n - 1]), k);
      LastMatches(packed, preamble, step, q, k, n - 1);
    }
  }

  lemma LastMatches(packed: seq<bv8>, preamble: seq<Decision>, step: nat, q: nat, k: nat, p: nat)
    requires p < |preamble| && q + At(p, step) < |packed| && k < 8
    ensures BitMatches(packed, preamble, step, q, k, p) <==> Bit(packed[q + At(p, step)] ^ Flip(preamble[p]), k)
  {
    FlipBit(packed[q + At(p, step)], preamble[p], k);
  }

  lemma NoSymbols(packed: seq<bv8>, preamble: seq<Decision>, step: nat, q: nat)
    requires InRange(packed, step, q, |preamble|)
    ensures Candidates(packed, preamble, step, q, 0) == 0xff
  {
  }

  /** Once no phase is left, further symbols cannot bring one back. */
  lemma {:induction false} NoneLeft(packed: seq<bv8>, preamble: seq<Decision>, step: nat, q: nat, m: nat, n: nat)
    requires m <= n <= |preamble| && InRange(packed, step, q, n)
    requires Candidates(packed, preamble, step, q, m) == 0
    ensures Candidates(packed, preamble, step, q, n) == 0
    decreases n
  {
    if m < n {
      NoneLeft(packed, preamble, step, q, m, n - 1);
      AndZero(packed[q + At(n - 1, step)] ^ Flip(preamble[n - 1]));
    }
  }

  lemma AndZero(b: bv8)
    ensures 0 & b == 0
  {
  }

  /** The packed window shows the byte-aligned decisions of `view`. */
  ghost predicate Shows(packed: seq<bv8>, view: seq<Decision>)
  {
    |packed| <= |view| / 8 && packed == Pack(view)[..|packed|]
  }

  lemma {:induction false} AlignedOffset(p: nat, step: nat)
    ensures At(p, 8 * step) == 8 * At(p, step)
  {
    if p > 0 { AlignedOffset(p - 1, step); }
  }

  /** A candidate bit is a scalar match. */
  lemma CandidateIsMatch(packed: seq<bv8>, view: seq<Decision>, preamble: seq<Decision>, step: nat, q: nat, k: nat)
    requires Shows(packed, view) && InRange(packed, step, q, |preamble|) && k < 8
    ensures Bit(Candidates(packed, preamble, step, q, |preamble|), k) <==> Match(view, preamble, 8 * step, 8 * q + k)
  {
    hide Bit, Pack, Candidates, SymbolAt, BitMatches;
    CandidateBits(packed, preamble, step, q, |preamble|, k);
    var at, symbol := 8 * q + k, 8 * step;
    forall p | 0 <= p < |preamble|
      ensures BitMatches(packed, preamble, step, q, k, p) <==> SymbolAt(view, preamble, symbol, at, p)
    {
      SymbolBit(packed, view, preamble, step, q, k, p);
    }
    SameMatch(packed, view, preamble, step, q, k, symbol, at);
  }

  lemma SameMatch(packed: seq<bv8>, view: seq<Decision>, preamble: seq<Decision>, step: nat, q: nat, k: nat,
      symbol: nat, at: nat)
    requires k < 8
    requires forall p :: 0 <= p < |preamble| ==>
               (BitMatches(packed, preamble, step, q, k, p) <==> SymbolAt(view, preamble, symbol, at, p))
    ensures (forall p :: 0 <= p < |preamble| ==> BitMatches(packed, preamble, step, q, k, p)) <==>
            Match(view, preamble, symbol, at)
  {
    hide BitMatches, SymbolAt;
  }

  lemma SymbolBit(packed: seq<bv8>, view: seq<Decision>, preamble: seq<Decision>, step: nat, q: nat, k: nat, p: nat)
    requires Shows(packed, view) && k < 8 && p < |preamble| && q + At(p, step) < |packed|
    ensures BitMatches(packed, preamble, step, q, k, p) <==> SymbolAt(view, preamble, 8 * step, 8 * q + k, p)
  {
    hide Bit, Pack;
    AlignedOffset(p, step);
    PackAt(view, q + At(p, step), k);
  }

  /** The phases left for byte `q`: four symbols at once, the rest one by one until
      no phase is left.  Preambles of fewer than four symbols take the plain loop. */
  method TestByte(packed: seq<bv8>, preamble: seq<Decision>, step: nat, q: nat) returns (candidates: bv8)
    requires InRange(packed, step, q, |preamble|)
    ensures candidates == Candidates(packed, preamble, step, q, |preamble|)
  {
    hide Flip, Candidates, At;
    if |preamble| < 4 {
      candidates := TestFew(packed, preamble, step, q);
    } else {
      candidates := (packed[q + At(0, step)] ^ Flip(preamble[0])) & (packed[q + At(1, step)] ^ Flip(preamble[1])) &
      (packed[q + At(2, step)] ^ Flip(preamble[2])) & (packed[q + At(3, step)] ^ Flip(preamble[3]));
      FirstFour(packed, preamble, step, q);
      candidates := TestRest(packed, preamble, step, q, candidates);
    }
  }

  method TestFew(packed: seq<bv8>, preamble: seq<Decision>, step: nat, q: nat) returns (candidates: bv8)
    requires InRange(packed, step, q, |preamble|)
    ensures candidates == Candidates(packed, preamble, step, q, |preamble|)
  {
    hide Flip, Candidates, At;
    NoSymbols(packed, preamble, step, q);
    candidates := 0xff;
    for p := 0 to |preamble|
      invariant candidates == Candidates(packed, preamble, step, q, p)
    {
      CandidateStep(packed, preamble, step, q, p);
      candidates := candidates & (packed[q + At(p, step)] ^ Flip(preamble[p]));
    }
  }

  method TestRest(packed: seq<bv8>, preamble: seq<Decision>, step: nat, q: nat, first: bv8) returns (candidates: bv8)
    requires 4 <= |preamble| && InRange(packed, step, q, |preamble|)
    requires first == Candidates(packed, preamble, step, q, 4)
    ensures candidates == Candidates(packed, preamble, step, q, |preamble|)
  {
    hide Flip, Candidates, At;
    candidates := first;
    var p := 4;
    while candidates != 0 && p < |preamble|
      invariant 4 <= p <= |preamble| && candidates == Candidates(packed, preamble, step, q, p)
      decreases |preamble| - p
    {
      CandidateStep(packed, preamble, step, q, p);
      candidates := candidates & (packed[q + At(p, step)] ^ Flip(preamble[p]));
      p := p + 1;
    }
    if candidates == 0 { NoneLeft(packed, preamble, step, q, p, |preamble|); }
  }

  lemma FirstFour(packed: seq<bv8>, preamble: seq<Decision>, step: nat, q: nat)
    requires 4 <= |preamble| && InRange(packed, step, q, |preamble|)
    ensures Candidates(packed, preamble, step, q, 4)
         == (packed[q + At(0, step)] ^ Flip(preamble[0])) & (packed[q + At(1, step)] ^ Flip(preamble[1])) &
            (packed[q + At(2, step)] ^ Flip(preamble[2])) & (packed[q + At(3, step)] ^ Flip(preamble[3]))
  {
    hide Flip, Candidates;
    NoSymbols(packed, preamble, step, q);
    CandidateStep(packed, preamble, step, q, 0);
    CandidateStep(packed, preamble, step, q, 1);
    CandidateStep(packed, preamble, step, q, 2);
    CandidateStep(packed, preamble, step, q, 3);
    AndOnes(packed[q + At(0, step)] ^ Flip(preamble[0]));
  }

  lemma AndOnes(b: bv8)
    ensures 0xff & b == b
  {
  }

  /** The byte-aligned search finds exactly what the scalar search finds. */
  method SearchByteAligned(packed: seq<bv8>, ghost view: seq<Decision>, preamble: seq<Decision>, step: nat,
      blockBytes: nat)
    returns (indices: seq<nat>)
    requires Shows(packed, view) && forall q :: 0 <= q < blockBytes ==> InRange(packed, step, q, |preamble|)
    ensures indices == Hits(view, preamble, 8 * step, 8 * blockBytes)
  {
    indices := [];
    for q := 0 to blockBytes
      invariant indices == Hits(view, preamble, 8 * step, 8 * q)
    {
      assert InRange(packed, step, q, |preamble|);
      var candidates := TestByte(packed, preamble, step, q);
      forall k | 0 <= k < 8 ensures Bit(candidates, k) <==> Match(view, preamble, 8 * step, 8 * q + k) {
        CandidateIsMatch(packed, view, preamble, step, q, k);
      }
      indices := Expand(candidates, q, indices, view, preamble, 8 * step);
    }
  }

  /** Appends the positions of a byte's candidate phases, leading bit first. */
  method Expand(mask: bv8, q: nat, found: seq<nat>, ghost view: seq<Decision>, ghost preamble: seq<Decision>,
      ghost symbol: nat)
    returns (indices: seq<nat>)
    requires found == Hits(view, preamble, symbol, 8 * q)
    requires forall k :: 0 <= k < 8 ==> (Bit(mask, k) <==> Match(view, preamble, symbol, 8 * q + k))
    ensures indices == Hits(view, preamble, symbol, 8 * q + 8)
  {
    hide Match, Bit, Mask;
    indices := found;
    var candidates := mask;
    ghost var done := 0;
    while candidates != 0
      invariant done <= 8 && indices == Hits(view, preamble, symbol, 8 * q + done)
      invariant forall k :: 0 <= k < 8 ==> (Bit(candidates, k) <==> Bit(mask, k) && done <= k)
      decreases 8 - done
    {
      var phase := LeadingZeros8(candidates);
      forall p | 8 * q + done <= p < 8 * q + phase ensures !Match(view, preamble, symbol, p) {
        assert !Bit(candidates, p - 8 * q);
      }
      NoHits(view, preamble, symbol, 8 * q + done, 8 * q + phase);
      assert Bit(candidates, phase);
      indices := indices + [8 * q + phase];
      forall k | 0 <= k < 8 ensures Bit(candidates & !Mask(phase), k) <==> Bit(mask, k) && phase + 1 <= k {
        ClearBit(candidates, phase, k);
      }
      candidates := candidates & !Mask(phase);
      done := phase + 1;
    }
    forall p | 8 * q + done <= p < 8 * q + 8 ensures !Match(view, preamble, symbol, p) {
      assert !Bit(candidates, p - 8 * q) by { NoBits(p - 8 * q); }
    }
    NoHits(view, preamble, symbol, 8 * q + done, 8 * q + 8);
  }

  lemma NoBits(k: nat)
    requires k < 8
    ensures !Bit(0, k)
  {
  }

  /** Whether the byte filter keeps byte `q`: at every symbol, whole bytes apart,
      some decision agrees with the preamble. */
  ghost predicate ByteKept(packed: seq<bv8>, preamble: seq<Decision>, step: nat, q: nat, n: nat)
    requires n <= |preamble|
  {
    forall p :: 0 <= p < n ==> ByteDiffers(packed, q, At(p, step), Flip(preamble[p]))
  }

  /** An ascending list is determined by its elements. */
  lemma {:induction false} AscendingUnique(a: seq<nat>, b: seq<nat>)
    requires Ascending(a) && Ascending(b)
    requires forall q: nat :: q in a <==> q in b
    ensures a == b
    decreases |a|
  {
    if b != [] { assert b[0] in a; }
    if a != [] {
      assert a[|a| - 1] in a;
      var x, y := a[|a| - 1], b[|b| - 1];
      assert y in b;
      assert x == y;
      var a', b' := a[..|a| - 1], b[..|b| - 1];
      forall q: nat ensures q in a' <==> q in b' {
        if q in a' { assert q in a && q != x; }
        if q in b' { assert q in b && q != y; }
      }
      AscendingUnique(a', b');
      assert a == a' + [x] && b == b' + [y];
    }
  }

  ghost predicate ByteDiffers(packed: seq<bv8>, q: nat, offset: nat, mask: bv8)
  {
    q + offset < |packed| && packed[q + offset] != mask
  }

  /** Keeps the byte positions at which `packed` differs from `mask`. */
  method SearchPassByte(mask: bv8, packed: seq<bv8>, offset: nat, a: seq<nat>) returns (b: seq<nat>)
    requires Ascending(a) && forall i :: 0 <= i < |a| ==> a[i] + offset < |packed|
    ensures Ascending(b) && forall q: nat :: q in b <==> q in a && ByteDiffers(packed, q, offset, mask)
  {
    b := [];
    for i := 0 to |a|
      invariant Ascending(b) && forall q: nat :: q in b <==> q in a[..i] && ByteDiffers(packed, q, offset, mask)
    {
      TakeBelow(a, i);
      if packed[a[i] + offset] != mask {
        AppendAscending(b, a[i]);
        b := b + [a[i]];
      }
    }
    assert a[..|a|] == a;
  }

  ghost predicate RingShows(ring: seq<Decision>, from: nat, q: nat, bit: Decision)
  {
    Wrap(from + q, |ring|) < |ring| && ring[Wrap(from + q, |ring|)] == bit
  }

  /** Keeps the positions whose decision in the ring, counted from `start`, is `bit`. */
  method SearchPassRing(bit: Decision, ring: seq<Decision>, start: nat, a: seq<nat>) returns (b: seq<nat>)
    requires Ascending(a) && start < 2 * |ring| && forall i :: 0 <= i < |a| ==> a[i] < |ring|
    ensures Ascending(b)
    ensures forall q: nat :: q in b <==> q in a && RingShows(ring, Wrap(start, |ring|), q, bit)
  {
    b := [];
    var from := start;
    if from >= |ring| { from := from - |ring|; }
    for i := 0 to |a|
      invariant Ascending(b)
      invariant forall q: nat :: q in b <==> q in a[..i] && RingShows(ring, from, q, bit)
    {
      TakeBelow(a, i);
      var idx := from + a[i];
      if idx >= |ring| { idx := idx - |ring|; }
      if ring[idx] == bit {
        AppendAscending(b, a[i]);
        b := b + [a[i]];
      }
    }
    assert a[..|a|] == a;
  }

  ghost predicate InByte(q: nat, bytes: seq<nat>)
  {
    q / 8 in bytes
  }

  /** The eight sample positions of each byte position. */
  method ExpandBytes(bytes: seq<nat>) returns (indices: seq<nat>)
    requires Ascending(bytes)
    ensures Ascending(indices) && forall q: nat :: q in indices <==> InByte(q, bytes)
  {
    indices := [];
    for i := 0 to |bytes|
      invariant Ascending(indices) && forall q: nat :: q in indices <==> InByte(q, bytes[..i])
    {
      TakeBelow(bytes, i);
      ghost var before := indices;
      for k := 0 to 8
        invariant Ascending(indices)
        invariant forall q: nat :: q in indices <==> q in before || 8 * bytes[i] <= q < 8 * bytes[i] + k
      {
        forall q | q in indices ensures q < 8 * bytes[i] + k {
          if q in before { assert InByte(q, bytes[..i]); }
        }
        AppendAscending(indices, 8 * bytes[i] + k);
        indices := indices + [8 * bytes[i] + k];
      }
      forall q: nat ensures q in indices <==> InByte(q, bytes[..i + 1]) {
        assert q in before <==> InByte(q, bytes[..i]);
      }
    }
    assert bytes[..|bytes|] == bytes;
  }

  /** The byte phase: positions whose byte is kept. */
  method FilterBytes(packed: seq<bv8>, preamble: seq<Decision>, step: nat, blockBytes: nat) returns (bytes: seq<nat>)
    requires 0 < |preamble| && forall q :: 0 <= q < blockBytes ==> InRange(packed, step, q, |preamble|)
    ensures Ascending(bytes)
    ensures forall q: nat :: q in bytes <==> q < blockBytes && ByteKept(packed, preamble, step, q, |preamble|)
  {
    hide Flip;
    bytes := [];
    for q := 0 to blockBytes
      invariant Ascending(bytes)
      invariant forall r: nat :: r in bytes <==> r < q && ByteDiffers(packed, r, 0, Flip(preamble[0]))
    {
      assert InRange(packed, step, q, |preamble|);
      assert q + At(0, step) < |packed|;
      if packed[q] != Flip(preamble[0]) {
        AppendAscending(bytes, q);
        bytes := bytes + [q];
      }
    }
    forall q: nat ensures q in bytes <==> q < blockBytes && ByteKept(packed, preamble, step, q, 1) {
      if q < blockBytes { assert InRange(packed, step, q, |preamble|); }
    }
    for p := 1 to |preamble|
      invariant Ascending(bytes)
      invariant forall q: nat :: q in bytes <==> q < blockBytes && ByteKept(packed, preamble, step, q, p)
    {
      forall i | 0 <= i < |bytes| ensures bytes[i] + At(p, step) < |packed| {
        assert bytes[i] in bytes;
        assert InRange(packed, step, bytes[i], |preamble|);
      }
      var kept := SearchPassByte(Flip(preamble[p]), packed, At(p, step), bytes);
      forall q: nat ensures q in kept <==> q < blockBytes && ByteKept(packed, preamble, step, q, p + 1) {
        if q < blockBytes { assert InRange(packed, step, q, |preamble|); }
      }
      bytes := kept;
    }
  }

  /** The two-phase search: bytes first, then single decisions read from the ring.
      For every symbol length it returns, in order, the scalar matches whose byte
      survives the first phase. */
  method SearchLegacy(packed: seq<bv8>, ring: seq<Decision>, start: nat, preamble: seq<Decision>, symbol: nat,
      blockBytes: nat)
    returns (indices: seq<nat>)
    requires start < |ring| && 0 < |preamble|
    requires forall q :: 0 <= q < blockBytes ==> InRange(packed, symbol / 8, q, |preamble|)
    requires 8 * blockBytes + At(|preamble| - 1, symbol) <= |ring|
    ensures Ascending(indices)
    ensures forall q: nat :: q in indices <==>
              q < 8 * blockBytes && ByteKept(packed, preamble, symbol / 8, q / 8, |preamble|) &&
              Match(Unrolled(ring, start), preamble, symbol, q)
  {
    hide ByteKept, Flip, Unrolled;
    ghost var view := Unrolled(ring, start);
    var bytes := FilterBytes(packed, preamble, symbol / 8, blockBytes);
    indices := ExpandBytes(bytes);
    ghost var expanded := indices;
    assert forall q: nat :: q in expanded ==> InByte(q, bytes) && q < 8 * blockBytes;
    for p := 0 to |preamble|
      invariant Ascending(indices)
      invariant forall q: nat :: q in indices <==>
                  q in expanded && forall r :: 0 <= r < p ==> SymbolAt(view, preamble, symbol, q, r)
    {
      Nearer(p, |preamble| - 1, symbol);
      ghost var before := indices;
      forall i | 0 <= i < |indices| ensures indices[i] < 8 * blockBytes { assert indices[i] in expanded; }
      indices := SearchPassRing(preamble[p], ring, start + At(p, symbol), indices);
      forall q: nat ensures q in indices <==> q in before && SymbolAt(view, preamble, symbol, q, p) {
        if q in before { RingAt(ring, start, At(p, symbol), q, preamble[p]); }
      }
    }
  }

  lemma Nearer(p: nat, last: nat, symbol: nat)
    requires p <= last
    ensures At(p, symbol) <= At(last, symbol)
  {
    if p < last { AtApart(p, last, symbol); }
  }

  lemma RingAt(ring: seq<Decision>, start: nat, offset: nat, q: nat, bit: Decision)
    requires start < |ring| && q + offset < |ring|
    ensures RingShows(ring, Wrap(start + offset, |ring|), q, bit) <==> Unrolled(ring, start)[q + offset] == bit
  {
  }

  /** A match at a byte-aligned symbol length keeps its byte. */
  lemma AlignedKept(packed: seq<bv8>, view: seq<Decision>, preamble: seq<Decision>, step: nat, q: nat)
    requires Shows(packed, view) && InRange(packed, step, q / 8, |preamble|)
    requires Match(view, preamble, 8 * step, q)
    ensures ByteKept(packed, preamble, step, q / 8, |preamble|)
  {
    forall p | 0 <= p < |preamble| ensures ByteDiffers(packed, q / 8, At(p, step), Flip(preamble[p])) {
      assert SymbolAt(view, preamble, 8 * step, q, p);
      AlignedOffset(p, step);
      PackAt(view, q / 8 + At(p, step), q % 8);
      FlipBit(packed[q / 8 + At(p, step)], preamble[p], q % 8);
      NoBits(q % 8);
    }
  }

  /** Complete for byte-aligned symbols: the two-phase search is the scalar search. */
  lemma LegacyComplete(packed: seq<bv8>, view: seq<Decision>, preamble: seq<Decision>, step: nat, blockBytes: nat,
      indices: seq<nat>)
    requires Shows(packed, view)
    requires forall q :: 0 <= q < blockBytes ==> InRange(packed, step, q, |preamble|)
    requires Ascending(indices)
    requires forall q: nat :: q in indices <==>
               q < 8 * blockBytes && ByteKept(packed, preamble, step, q / 8, |preamble|) &&
               Match(view, preamble, 8 * step, q)
    ensures indices == Hits(view, preamble, 8 * step, 8 * blockBytes)
  {
    hide Match, ByteKept;
    HitsExact(view, preamble, 8 * step, 8 * blockBytes);
    forall q: nat ensures q in indices <==> q in Hits(view, preamble, 8 * step, 8 * blockBytes) {
      if q < 8 * blockBytes && Match(view, preamble, 8 * step, q) {
        assert InRange(packed, step, q / 8, |preamble|);
        AlignedKept(packed, view, preamble, step, q);
      }
    }
    AscendingUnique(indices, Hits(view, preamble, 8 * step, 8 * blockBytes));
  }

  /** Of the preambles with more than one symbol, those the byte phase may lose: symbols
      are not whole bytes long, and not so short that all bytes looked at are one. */
  predicate Loses(preamble: seq<Decision>, symbol: nat)
  {
    |preamble| >= 2 && symbol % 8 != 0 && (symbol >= 8 || exists p :: 0 <= p < |preamble| && preamble[p] != preamble[0])
  }

  /** In every history of `length` samples, seen through a window of `window` bytes, every
      match keeps its byte. */
  ghost predicate KeepsMatches(preamble: seq<Decision>, symbol: nat, length: nat, window: nat)
  {
    forall view, packed, q: nat ::
      |view| == length && |packed| == window && Shows(packed, view) &&
      InRange(packed, symbol / 8, q / 8, |preamble|) && Match(view, preamble, symbol, q) ==>
      ByteKept(packed, preamble, symbol / 8, q / 8, |preamble|)
  }

  /** The history has room for a match at position 7, the window for its bytes. */
  ghost predicate Roomy(preamble: seq<Decision>, symbol: nat, length: nat, window: nat)
  {
    && 7 + At(|preamble|, symbol) < length && window <= length / 8
    && forall p :: 0 <= p < |preamble| ==> At(p, symbol / 8) < window
  }

  /** The preamble's first `n` symbols from position 7 on, among equal samples. */
  function Drawn(preamble: seq<Decision>, symbol: nat, n: nat, rest: Decision, length: nat): (view: seq<Decision>)
    requires n <= |preamble| && 7 + At(n, symbol) < length
    ensures |view| == length
  {
    if n == 0 then Zeros(length, rest)
    else
      var before := Drawn(preamble, symbol, n - 1, rest, length);
      before[7 + At(n - 1, symbol) := preamble[n - 1]]
  }

  lemma {:induction false} DrawnAt(preamble: seq<Decision>, symbol: nat, n: nat, rest: Decision, length: nat)
    requires n <= |preamble| && 7 + At(n, symbol) < length && 0 < symbol
    ensures var view := Drawn(preamble, symbol, n, rest, length);
      && (forall p :: 0 <= p < n ==> 7 + At(p, symbol) < length && view[7 + At(p, symbol)] == preamble[p])
      && (forall i :: 0 <= i < length && (forall p :: 0 <= p < n ==> i != 7 + At(p, symbol)) ==> view[i] == rest)
  {
    if n > 0 {
      DrawnAt(preamble, symbol, n - 1, rest, length);
      forall p | 0 <= p < n - 1 ensures At(p, symbol) < At(n - 1, symbol) { AtApart(p, n - 1, symbol); }
    }
  }

  ghost predicate Uniform(view: seq<Decision>, from: nat, bit: Decision)
  {
    forall j :: from <= j < from + 8 ==> j < |view| && view[j] == bit
  }

  /** A byte all of whose samples are the wrong ones is dropped. */
  lemma UniformByte(packed: seq<bv8>, view: seq<Decision>, i: nat, bit: Decision)
    requires Shows(packed, view) && i < |packed| && Uniform(view, 8 * i, 1 - bit)
    ensures packed[i] == Flip(bit)
  {
    forall k | 0 <= k < 8 ensures Bit(packed[i], k) <==> bit == 0 { PackAt(view, i, k); }
    AllSet(packed[i]);
    assert !Bit(packed[i], 0) ==> packed[i] == 0 by {
      if !Bit(packed[i], 0) {
        assert !Bit(packed[i], 1) && !Bit(packed[i], 2) && !Bit(packed[i], 3);
        assert !Bit(packed[i], 4) && !Bit(packed[i], 5) && !Bit(packed[i], 6) && !Bit(packed[i], 7);
        ZeroByte(packed[i]);
      }
    }
  }

  lemma AllSet(b: bv8)
    ensures (forall k :: 0 <= k < 8 ==> Bit(b, k)) ==> b == 0xff
  {
    if forall k :: 0 <= k < 8 ==> Bit(b, k) {
      assert Bit(b, 0) && Bit(b, 1) && Bit(b, 2) && Bit(b, 3) && Bit(b, 4) && Bit(b, 5) && Bit(b, 6) && Bit(b, 7);
    }
  }

  /** The symbol whose byte will hold none of the samples its matches need. */
  lemma Misled(preamble: seq<Decision>, symbol: nat) returns (d: nat)
    requires Loses(preamble, symbol)
    ensures 0 < d < |preamble| && (symbol >= 8 ==> d == 1) && (symbol < 8 ==> preamble[d] != preamble[0])
  {
    if symbol >= 8 { d := 1; } else { d :| 0 <= d < |preamble| && preamble[d] != preamble[0]; }
  }

  /** A match at position 7 is lost when the byte in which a later symbol is looked for
      ends before the sample that holds it. */
  lemma LegacyMissesUnaligned(preamble: seq<Decision>, symbol: nat, length: nat, window: nat)
      returns (view: seq<Decision>, packed: seq<bv8>)
    requires Loses(preamble, symbol) && Roomy(preamble, symbol, length, window)
    ensures |view| == length && |packed| == window && Shows(packed, view) && InRange(packed, symbol / 8, 0, |preamble|)
    ensures Match(view, preamble, symbol, 7) && !ByteKept(packed, preamble, symbol / 8, 0, |preamble|)
  {
    hide Pack, Flip, Drawn, Loses;
    var n, step := |preamble|, symbol / 8;
    NotWhole(preamble, symbol);
    var d := Misled(preamble, symbol);
    view := Drawn(preamble, symbol, n, 1 - preamble[d], length);
    packed := Pack(view)[..window];
    DrawnAt(preamble, symbol, n, 1 - preamble[d], length);
    forall p | 0 <= p < n ensures SymbolAt(view, preamble, symbol, 7, p) { AtApart(p, n, symbol); }
    var at := At(d, step);
    StepOfBytes(d, symbol);
    forall j | 8 * at <= j < 8 * at + 8 ensures view[j] == 1 - preamble[d] { Beside(preamble, symbol, d, j); }
    UniformByte(packed, view, at, preamble[d]);
    assert !ByteDiffers(packed, 0, at, Flip(preamble[d]));
  }

  /** Sample `j` of that byte is the first symbol's, and then wrong as well, or no
      symbol's at all. */
  lemma Beside(preamble: seq<Decision>, symbol: nat, d: nat, j: nat)
    requires 0 < d < |preamble| && 0 < symbol && symbol % 8 != 0
    requires if symbol >= 8 then d == 1 && 8 * (symbol / 8) <= j < 8 * (symbol / 8) + 8
             else preamble[d] != preamble[0] && j < 8
    ensures forall p :: 0 <= p < |preamble| && j == 7 + At(p, symbol) ==> preamble[p] == 1 - preamble[d]
  {
    forall p | 0 <= p < |preamble| && j == 7 + At(p, symbol) ensures preamble[p] == 1 - preamble[d] {
      OnwardsFromOne(p, symbol);
    }
  }

  lemma {:induction false} OnwardsFromOne(p: nat, symbol: nat)
    ensures At(0, symbol) == 0 && At(1, symbol) == symbol && (p >= 1 ==> At(p, symbol) >= symbol)
  {
    if p > 0 { OnwardsFromOne(p - 1, symbol); }
  }

  lemma NotWhole(preamble: seq<Decision>, symbol: nat)
    requires Loses(preamble, symbol)
    ensures symbol % 8 != 0
  {
  }

  lemma StepOfBytes(d: nat, symbol: nat)
    requires symbol >= 8 ==> d == 1
    ensures At(d, symbol / 8) == if symbol >= 8 then symbol / 8 else 0
  {
    if symbol >= 8 { assert At(0, symbol / 8) == 0; } else { AtIsProduct(d, 0); }
  }

  lemma SameByte(packed: seq<bv8>, view: seq<Decision>, preamble: seq<Decision>, q: nat, p: nat)
    requires Shows(packed, view) && p < |preamble| && q / 8 < |packed| && view[q] == preamble[p]
    ensures ByteDiffers(packed, q / 8, 0, Flip(preamble[p]))
  {
    PackAt(view, q / 8, q % 8);
    FlipBit(packed[q / 8], preamble[p], q % 8);
    NoBits(q % 8);
  }

  /** The two-phase search is complete for exactly these preambles and symbol lengths,
      whatever the lengths of history and window. */
  lemma LegacyCompleteExactly(preamble: seq<Decision>, symbol: nat, length: nat, window: nat)
    requires Roomy(preamble, symbol, length, window)
    ensures KeepsMatches(preamble, symbol, length, window) <==> !Loses(preamble, symbol)
  {
    hide ByteKept, Match, InRange, Shows, Roomy;
    if Loses(preamble, symbol) {
      var view, packed := LegacyMissesUnaligned(preamble, symbol, length, window);
      assert InRange(packed, symbol / 8, 7 / 8, |preamble|) &&
             !ByteKept(packed, preamble, symbol / 8, 7 / 8, |preamble|);
    } else {
      forall view, packed, q: nat
        | Shows(packed, view) && InRange(packed, symbol / 8, q / 8, |preamble|) && Match(view, preamble, symbol, q)
        ensures ByteKept(packed, preamble, symbol / 8, q / 8, |preamble|)
      {
        MatchKept(packed, view, preamble, symbol, q);
      }
    }
  }

  lemma MatchKept(packed: seq<bv8>, view: seq<Decision>, preamble: seq<Decision>, symbol: nat, q: nat)
    requires !Loses(preamble, symbol)
    requires Shows(packed, view) && InRange(packed, symbol / 8, q / 8, |preamble|) && Match(view, preamble, symbol, q)
    ensures ByteKept(packed, preamble, symbol / 8, q / 8, |preamble|)
  {
    hide ByteKept, Match, InRange, Shows;
    if symbol % 8 == 0 {
      assert 8 * (symbol / 8) == symbol;
      AlignedKept(packed, view, preamble, symbol / 8, q);
    } else {
      SameByteKept(packed, view, preamble, symbol, q);
    }
  }

  lemma SameByteKept(packed: seq<bv8>, view: seq<Decision>, preamble: seq<Decision>, symbol: nat, q: nat)
    requires Shows(packed, view) && InRange(packed, symbol / 8, q / 8, |preamble|) && Match(view, preamble, symbol, q)
    requires |preamble| >= 2 ==> symbol < 8 && forall p :: 0 <= p < |preamble| ==> preamble[p] == preamble[0]
    ensures ByteKept(packed, preamble, symbol / 8, q / 8, |preamble|)
  {
    forall p | 0 <= p < |preamble| ensures ByteDiffers(packed, q / 8, At(p, symbol / 8), Flip(preamble[p])) {
      assert SymbolAt(view, preamble, symbol, q, 0) && At(0, symbol) == 0 == At(0, symbol / 8);
      AtIsProduct(p, 0);
      SameByte(packed, view, preamble, q, p);
    }
  }
}
