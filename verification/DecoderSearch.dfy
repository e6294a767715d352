/** Preamble search on the decoder's histories: what a parser is handed after any run
    of blocks. */
module DecoderSearch {
  import opened Basics
  import opened Histories
  import opened Packing
  import opened PowerHistory
  import opened Power16Decoder
  import opened Search

  /** `preamble` is no longer than the longest registered one, which the geometry was
      derived from. */
  ghost predicate Fits(g: Geometry, preamble: seq<Decision>)
  {
    0 < |preamble| && At(|preamble|, g.Symbol()) <= g.preambleLength
  }

  lemma {:induction false} ByteStep(p: nat, symbol: nat)
    ensures 8 * At(p, symbol / 8) <= At(p, symbol)
  {
    if p > 0 { ByteStep(p - 1, symbol); }
  }

  /** The search never reads beyond the packed window. */
  lemma WindowCovers(g: Geometry, direct: bool, preamble: seq<Decision>, q: nat)
    requires g.Valid() && Fits(g, preamble) && q < g.blockSize / 8
    ensures forall p :: 0 <= p < |preamble| ==> q + At(p, g.Symbol() / 8) < g.SearchBytes(direct)
  {
    forall p | 0 <= p < |preamble| ensures q + At(p, g.Symbol() / 8) < g.SearchBytes(direct) {
      ByteStep(p, g.Symbol());
      AtApart(p, |preamble|, g.Symbol());
    }
  }

  lemma WindowShows(g: Geometry, direct: bool, view: seq<Decision>)
    requires g.Valid() && |view| == g.BufferLength()
    ensures g.SearchBytes(direct) <= |Pack(view)| == |view| / 8 && Shows(Pack(view)[..g.SearchBytes(direct)], view)
  {
  }

  /** What the search finds, for every symbol length: a match whose byte survives the
      byte-wise look at the packed window. */
  ghost predicate Found(g: Geometry, direct: bool, view: seq<Decision>, preamble: seq<Decision>, q: nat)
    requires g.Valid() && |view| == g.BufferLength()
  {
    WindowShows(g, direct, view);
    && q < g.blockSize && Match(view, preamble, g.Symbol(), q)
    && ByteKept(Pack(view)[..g.SearchBytes(direct)], preamble, g.Symbol() / 8, q / 8, |preamble|)
  }

  /** Every match is found unless the preamble is one the byte phase loses. */
  lemma FoundMatches(g: Geometry, direct: bool, view: seq<Decision>, preamble: seq<Decision>, q: nat)
    requires g.Valid() && |view| == g.BufferLength() && Fits(g, preamble) && !Loses(preamble, g.Symbol())
    ensures Found(g, direct, view, preamble, q) <==> q < g.blockSize && Match(view, preamble, g.Symbol(), q)
  {
    hide Pack, Match, ByteKept, Loses;
    if q < g.blockSize && Match(view, preamble, g.Symbol(), q) {
      WindowShows(g, direct, view);
      WindowCovers(g, direct, preamble, q / 8);
      MatchKept(Pack(view)[..g.SearchBytes(direct)], view, preamble, g.Symbol(), q);
    }
  }

  /** The decoder's history and window have room, so nothing less will do. */
  lemma DecoderKeeps(g: Geometry, direct: bool, preamble: seq<Decision>)
    requires g.Valid() && Fits(g, preamble)
    ensures KeepsMatches(preamble, g.Symbol(), g.BufferLength(), g.SearchBytes(direct)) <==>
            !Loses(preamble, g.Symbol())
  {
    WindowCovers(g, direct, preamble, 0);
    LegacyCompleteExactly(preamble, g.Symbol(), g.BufferLength(), g.SearchBytes(direct));
  }

  lemma AlignedFinds(preamble: seq<Decision>, symbol: nat)
    requires symbol % 8 == 0
    ensures !Loses(preamble, symbol)
  {
  }

  /** Exactly the positions `Found` describes, in order; all matches below the block size
      unless the preamble is one the byte phase loses. */
  method SearchPreamble(d: Decoder, preamble: seq<Decision>) returns (indices: seq<nat>)
    requires d.Valid() && Fits(d.g, preamble)
    ensures Ascending(indices)
    ensures forall q: nat :: q in indices <==> Found(d.g, d.direct, DecisionHistory(d.g, d.stream), preamble, q)
    ensures !Loses(preamble, d.g.Symbol()) ==>
            indices == Hits(DecisionHistory(d.g, d.stream), preamble, d.g.Symbol(), d.g.blockSize)
  {
    hide Pack, DecisionHistory, Match, ByteKept, Decoder.PackedPart, Loses;
    var g := d.g;
    ghost var view := DecisionHistory(g, d.stream);
    var packed := d.SearchWindow();
    WindowShows(g, d.direct, view);
    forall q | 0 <= q < g.blockSize / 8 ensures InRange(packed, g.Symbol() / 8, q, |preamble|) {
      WindowCovers(g, d.direct, preamble, q);
    }
    assert 8 * (g.blockSize / 8) == g.blockSize;
    HitsExact(view, preamble, g.Symbol(), g.blockSize);
    if g.Symbol() % 8 == 0 {
      assert 8 * (g.Symbol() / 8) == g.Symbol();
      AlignedFinds(preamble, g.Symbol());
      indices := SearchByteAligned(packed, view, preamble, g.Symbol() / 8, g.blockSize / 8);
    } else {
      AtApart(|preamble| - 1, |preamble|, g.Symbol());
      indices := SearchLegacy(packed, d.decisions.backing[..d.decisions.Length()], d.decisions.start, preamble,
                              g.Symbol(), g.blockSize / 8);
    }
    if !Loses(preamble, g.Symbol()) {
      HitsFound(g, d.direct, view, preamble);
      AscendingUnique(indices, Hits(view, preamble, g.Symbol(), g.blockSize));
    }
  }

  lemma HitsFound(g: Geometry, direct: bool, view: seq<Decision>, preamble: seq<Decision>)
    requires g.Valid() && |view| == g.BufferLength() && Fits(g, preamble) && !Loses(preamble, g.Symbol())
    ensures forall q: nat :: q in Hits(view, preamble, g.Symbol(), g.blockSize) <==> Found(g, direct, view, preamble, q)
  {
    hide Found, Match, Loses, Fits;
    HitsExact(view, preamble, g.Symbol(), g.blockSize);
    forall q: nat
      ensures Found(g, direct, view, preamble, q) <==> q in Hits(view, preamble, g.Symbol(), g.blockSize)
    {
      FoundMatches(g, direct, view, preamble, q);
    }
  }
}
