/** The Power16 decoder: power history, matched filter, decision ring and packed
    ring advanced together, one block at a time. */
module Power16Decoder {
  import opened Basics
  import opened Histories
  import opened Packing
  import opened PowerHistory
  import opened Filter

  /** Lengths in samples, as `Allocate` derives them. */
  datatype Geometry = Geometry(chip: nat, preambleLength: nat, packetLength: nat, blockSize: nat, overlap: nat)
  {
    function Symbol(): nat { 2 * chip }
    function BufferLength(): nat { packetLength + blockSize }
    /** The direct producer's window drops a last partial byte, the copying one's
        includes it. */
    function SearchBytes(direct: bool): nat { (blockSize + preambleLength + if direct then 0 else 7) / 8 }

    ghost predicate Valid()
    {
      && 0 < chip <= 33025
      && 0 < blockSize && blockSize % 8 == 0 && packetLength % 8 == 0
      && Symbol() <= blockSize && overlap <= blockSize
      && preambleLength <= packetLength
    }
  }

  /** The decision history after a stream of powers. */
  function DecisionHistory(g: Geometry, stream: seq<Power>): (d: seq<Decision>)
    ensures |d| == g.BufferLength()
  {
    Tail(StreamDecisions(stream, g.chip), g.BufferLength(), 0)
  }

  /** The power history after a stream of powers. */
  function PowerTail(g: Geometry, stream: seq<Power>): (d: seq<Power>)
    ensures |d| == g.BufferLength()
  {
    Tail(stream, g.BufferLength(), 0)
  }

  ghost predicate Small(s: seq<Power>)
  {
    forall k :: 0 <= k < |s| ==> s[k] <= 65025
  }

  lemma SmallPowers(stream: seq<Power>, input: seq<Byte>)
    requires Small(stream)
    ensures Small(stream + Powers(input))
  {
  }

  /** The 32-bit filter makes the exact decisions on this window. */
  ghost predicate Exact32(window: seq<Power>, g: Geometry)
  {
    && |window| == g.Symbol() + g.blockSize
    && forall k :: 0 <= k < g.blockSize ==> Decide32(window, k, g.chip) == WindowDecisions(window, g.chip)[k]
  }

  lemma TailOfTail<T>(stream: seq<T>, n: nat, m: nat, zero: T)
    requires m <= n
    ensures Tail(stream, n, zero)[n - m..] == Tail(stream, m, zero)
  {
  }

  lemma SmallTail(stream: seq<Power>, n: nat)
    requires Small(stream)
    ensures Small(Tail(stream, n, 0))
  {
  }

  /** One block's decisions, filtered from the history, are the next decisions of
      the whole stream. */
  lemma NextDecisions(g: Geometry, stream: seq<Power>, block: seq<Power>, window: seq<Power>)
    requires g.Valid() && |block| == g.blockSize && Small(stream + block)
    requires window == Tail(stream + block, g.Symbol() + g.blockSize, 0)
    ensures Shift(DecisionHistory(g, stream), WindowDecisions(window, g.chip)) == DecisionHistory(g, stream + block)
    ensures Exact32(window, g)
  {
    BlockwiseIsStreamwise(stream, block, g.chip);
    var before, made := StreamDecisions(stream, g.chip), WindowDecisions(window, g.chip);
    assert StreamDecisions(stream + block, g.chip) == before + made;
    TailShift(before, made, g.BufferLength(), 0);
    SmallTail(stream + block, g.Symbol() + g.blockSize);
    ExactWindow(window, g);
  }

  lemma ExactWindow(window: seq<Power>, g: Geometry)
    requires g.Valid() && Small(window) && |window| == g.Symbol() + g.blockSize
    ensures Exact32(window, g)
  {
    forall k | 0 <= k < g.blockSize ensures Decide32(window, k, g.chip) == WindowDecisions(window, g.chip)[k] {
      Int32Suffices(window, k, g.chip);
    }
  }

  class Decoder {
    const g: Geometry
    /** The producer writes into the rings itself; otherwise the block is copied and
        the search window is packed afresh. */
    const direct: bool
    const power: PowerRing
    const decisions: DecisionRing
    const packed: PackedRing
    const scratch: array<Decision>
    const window: array<bv8>

    /** Every power since allocation or the last reset. */
    ghost var stream: seq<Power>
    /** The decision history that belongs to `stream`. */
    ghost var view: seq<Decision>
    /** Where the logical decision history starts, in bytes of eight decisions. */
    ghost var startBytes: nat

    ghost function Repr(): set<object>
    {
      {this, power, power.backing, decisions, decisions.backing, packed, packed.backing, scratch, window}
    }

    ghost predicate Shape()
    {
      && g.Valid()
      && power.backing as object != decisions.backing && power.backing as object != packed.backing
      && power.backing as object != scratch && power.backing as object != window
      && decisions.backing as object != packed.backing && decisions.backing != scratch &&
         decisions.backing as object != window
      && packed.backing as object != scratch && packed.backing != window
      && scratch as object != window
      && power.blockSize == decisions.blockSize == g.blockSize && 8 * packed.blockBytes == g.blockSize
      && power.bufferLength == g.BufferLength() && power.symbolLength == g.Symbol()
      && power.overlap == (if g.overlap < g.Symbol() then g.Symbol() else g.overlap)
      && decisions.packetLength == g.packetLength && 8 * packed.packetBytes == g.packetLength
      && packed.lookahead == g.SearchBytes(true)
      && scratch.Length == g.blockSize && window.Length == g.SearchBytes(false)
    }

    ghost predicate PackedPart(v: seq<Decision>, at: nat)
      reads packed, packed.backing, window
    {
      if direct then packed.Holds(Pack(v), at)
      else packed.Valid() && window.Length <= |v| / 8 && window[..] == Pack(v)[..window.Length]
    }

    ghost predicate Valid()
      reads this, power, power.backing, decisions, decisions.backing, packed, packed.backing, scratch, window
    {
      && Shape() && Small(stream) && view == DecisionHistory(g, stream)
      && power.Holds(Tail(stream, power.Size(), 0))
      && decisions.Holds(view, 8 * startBytes)
      && PackedPart(view, startBytes)
    }

    constructor (g: Geometry, direct: bool)
      requires g.Valid()
      ensures Valid() && this.g == g && this.direct == direct && stream == []
    {
      this.g, this.direct := g, direct;
      power := new PowerRing(g.blockSize, g.BufferLength(), g.Symbol(), g.overlap);
      decisions := new DecisionRing(g.blockSize, g.packetLength);
      packed := new PackedRing(g.blockSize / 8, g.packetLength / 8, g.SearchBytes(true));
      scratch := new Decision[g.blockSize](_ => 0);
      window := new bv8[g.SearchBytes(false)](_ => 0);
      stream := [];
      view := Zeros(g.BufferLength(), 0);
      startBytes := 0;
      new;
      Silent();
    }

    /** Cleared storage holds the histories of the empty stream. */
    lemma Silent()
      requires Shape() && stream == [] && startBytes == 0 && view == Zeros(g.BufferLength(), 0)
      requires power.Holds(Zeros(power.Size(), 0))
      requires decisions.Holds(Zeros(decisions.Length(), 0), 0)
      requires packed.Holds(Zeros(packed.Length(), 0), 0)
      requires forall i :: 0 <= i < window.Length ==> window[i] == 0
      ensures Valid()
    {
      SilentHistory();
      SilentPacked();
    }

    lemma SilentPacked()
      requires Shape() && view == Zeros(g.BufferLength(), 0)
      requires packed.Holds(Zeros(packed.Length(), 0), 0)
      requires forall i :: 0 <= i < window.Length ==> window[i] == 0
      ensures PackedPart(view, 0)
    {
      SilentHistory();
      hide PackedRing.Holds, PowerRing.Holds, DecisionRing.Holds, PackedRing.Valid, Pack;
      assert decisions.Length() == g.BufferLength() == |view|;
      assert |view| / 8 == packed.Length();
      assert Pack(view) == Zeros(packed.Length(), 0);
      assert window[..] == Zeros(window.Length, 0);
      assert window[..] == Pack(view)[..window.Length];
      SilentValid();
      assert direct ==> packed.Holds(Pack(view), 0);
    }

    lemma SilentValid()
      requires packed.Holds(Zeros(packed.Length(), 0), 0)
      ensures packed.Valid()
    {
    }

    /** The histories of the empty stream. */
    lemma SilentHistory()
      requires Shape()
      ensures DecisionHistory(g, []) == Zeros(decisions.Length(), 0)
      ensures forall n: nat :: Tail<Power>([], n, 0) == Zeros(n, 0)
      ensures Pack(Zeros(decisions.Length(), 0)) == Zeros(packed.Length(), 0)
      ensures window.Length <= packed.Length() && Zeros<bv8>(packed.Length(), 0)[..window.Length] ==
              Zeros(window.Length, 0)
    {
      PackZeros(packed.Length());
      assert 8 * packed.Length() == decisions.Length();
      assert StreamDecisions([], g.chip) == [];
    }

    method Reset()
      requires Valid()
      modifies this, power, power.backing, decisions, decisions.backing, packed, packed.backing, scratch, window
      ensures Valid() && stream == []
    {
      hide Zeros, Tail, Pack, DecisionHistory, Small;
      assert power.Valid() && decisions.Valid() && packed.Valid() && Shape();
      hide Shape, PowerRing.Valid, DecisionRing.Valid, PackedRing.Valid, PowerRing.Holds, DecisionRing.Holds,
           PackedRing.Holds;
      power.Reset();
      decisions.Reset();
      packed.Reset();
      ClearCopies();
      stream, view, startBytes := [], Zeros(g.BufferLength(), 0), 0;
      Silent();
    }

    method ClearCopies()
      modifies scratch, window
      ensures forall i :: 0 <= i < window.Length ==> window[i] == 0
    {
      forall i | 0 <= i < scratch.Length { scratch[i] := 0; }
      forall i | 0 <= i < window.Length { window[i] := 0; }
    }

    /** Advances every history by one input block. */
    method Decode(input: seq<Byte>)
      requires Valid() && |input| == 2 * g.blockSize
      modifies this, power, power.backing, decisions, decisions.backing, packed, packed.backing, scratch, window
      ensures Valid() && stream == old(stream) + Powers(input)
    {
      hide Tail, Shift, StreamDecisions, WindowDecisions, DecisionHistory, Powers, Small, Exact32, Pack,
           PowerRing.Holds, DecisionRing.Holds, PackedRing.Holds;
      var filterWindow := AppendPower(input);
      ghost var made := WindowDecisions(filterWindow, g.chip);
      SmallPowers(stream, input);
      NextDecisions(g, stream, Powers(input), filterWindow);
      if direct {
        WriteDirect(filterWindow, made);
      } else {
        WriteCopied(filterWindow, made);
      }
      assert power.Holds(Tail(stream + Powers(input), power.Size(), 0));
      stream := stream + Powers(input);
      view := Shift(view, made);
      startBytes := NextStart();
    }

    ghost function NextStart(): nat
      reads this
    {
      Wrap(startBytes + packed.blockBytes, packed.Length())
    }

    method AppendPower(input: seq<Byte>) returns (filterWindow: seq<Power>)
      requires Shape() && power.Holds(Tail(stream, power.Size(), 0)) && |input| == 2 * g.blockSize
      modifies power, power.backing
      ensures power.Holds(Tail(stream + Powers(input), power.Size(), 0))
      ensures filterWindow == Tail(stream + Powers(input), g.Symbol() + g.blockSize, 0)
    {
      hide Shift, Tail, Powers;
      ghost var size := power.Size();
      var filterStart := power.Append(input);
      TailShift(stream, Powers(input), size, 0);
      TailOfTail(stream + Powers(input), size, g.Symbol() + g.blockSize, 0);
      filterWindow := power.backing[..][filterStart..filterStart + g.Symbol() + g.blockSize];
    }

    /** Filter and packer write into the rings; nothing is copied but the wrap. */
    method WriteDirect(filterWindow: seq<Power>, ghost made: seq<Decision>)
      requires Shape() && decisions.Holds(view, 8 * startBytes) && PackedPart(view, startBytes) && direct
      requires Exact32(filterWindow, g) && made == WindowDecisions(filterWindow, g.chip)
      modifies decisions, decisions.backing, packed, packed.backing
      ensures decisions.Holds(Shift(view, made), 8 * NextStart()) && PackedPart(Shift(view, made), NextStart())
    {
      hide Shift, Pack, WindowDecisions, Exact32;
      ghost var ring := decisions.backing[..decisions.Length()];
      var next, tail := FilterIntoRing(filterWindow, made);
      packed.Produce(decisions.backing[tail..tail + g.blockSize]);
      PackShift(view, made);
      assert packed.Holds(Pack(Shift(view, made)), NextStart());
      decisions.Commit(next, tail, g.blockSize, ring);
    }

    /** The filtering half of the direct producer; the ring is not committed yet. */
    method FilterIntoRing(filterWindow: seq<Power>, ghost made: seq<Decision>) returns (next: nat, tail: nat)
      requires Shape() && decisions.Holds(view, 8 * startBytes)
      requires Exact32(filterWindow, g) && made == WindowDecisions(filterWindow, g.chip)
      modifies decisions.backing
      ensures next == Wrap(decisions.start + g.blockSize, decisions.Length()) && tail == decisions.start
      ensures decisions.backing[tail..tail + g.blockSize] == made
      ensures forall i :: (0 <= i < tail || tail + g.blockSize <= i < decisions.Length()) ==>
              decisions.backing[i] == old(decisions.backing[i])
    {
      next, tail := decisions.NextOutput();
      Manchester(decisions.backing, tail, g.blockSize, filterWindow, g.chip);
      Written(decisions.backing[tail..tail + g.blockSize], made, filterWindow);
    }

    lemma Written(block: seq<Decision>, made: seq<Decision>, filterWindow: seq<Power>)
      requires Exact32(filterWindow, g) && made == WindowDecisions(filterWindow, g.chip)
      requires |block| == g.blockSize && forall k :: 0 <= k < |block| ==> block[k] == Decide32(filterWindow, k, g.chip)
      ensures block == made
    {
    }

    /** Filter into scratch storage, copy into the ring, pack the search window. */
    method WriteCopied(filterWindow: seq<Power>, ghost made: seq<Decision>)
      requires Shape() && decisions.Holds(view, 8 * startBytes) && PackedPart(view, startBytes) && !direct
      requires Exact32(filterWindow, g) && made == WindowDecisions(filterWindow, g.chip)
      modifies decisions, decisions.backing, scratch, window
      ensures decisions.Holds(Shift(view, made), 8 * NextStart()) && PackedPart(Shift(view, made), NextStart())
    {
      Manchester(scratch, 0, g.blockSize, filterWindow, g.chip);
      Written(scratch[..], made, filterWindow);
      decisions.Append(scratch[..]);
      assert decisions.start == 8 * NextStart();
      MultipleOfEight(NextStart(), decisions.start);
      MultipleOfEight(packed.Length(), decisions.Length());
      PackQuantizedRing(window, decisions.backing[..decisions.Length()], decisions.start);
    }

    lemma MultipleOfEight(k: nat, n: nat)
      requires n == 8 * k
      ensures n % 8 == 0
    {
    }

    /** The packed decisions a preamble search looks at. */
    method SearchWindow() returns (bytes: seq<bv8>)
      requires Valid()
      ensures g.SearchBytes(direct) <= |Pack(DecisionHistory(g, stream))|
      ensures bytes == Pack(DecisionHistory(g, stream))[..g.SearchBytes(direct)]
    {
      if direct {
        bytes := packed.SearchWindow();
      } else {
        bytes := window[..];
      }
    }

    /** A parser's view of the retained powers. */
    method Power16Window(idx: nat, length: nat) returns (samples: seq<Power>)
      requires Valid() && WindowAdmitted(idx, length, g.BufferLength(), power.overlap)
      ensures samples == PowerTail(g, stream)[idx..idx + length]
    {
      TailOfTail(stream, power.Size(), g.BufferLength(), 0);
      samples := power.Window(idx, length);
    }

    /** A decoder whose overlap is four chips may be asked for every window the R900
        parser reads, of every candidate, exactly when packets are at least 83 symbols
        longer than the preamble. */
    lemma ParserMayRead(preambleSymbols: nat, packetSymbols: nat)
      requires Shape() && 4 * g.chip <= g.overlap && 0 < preambleSymbols
      requires g.packetLength == 2 * (g.chip * packetSymbols)
      ensures (forall candidate: nat, k: nat, second :: candidate <= g.blockSize && k < 21 ==>
                 WindowAdmitted(SymbolWindow(candidate, g.chip, preambleSymbols, k, second), 4 * g.chip,
                                g.BufferLength(), power.overlap))
         <==> packetSymbols >= preambleSymbols + 83
    {
      ParserWindowsAdmitted(g.chip, preambleSymbols, packetSymbols, g.blockSize, power.overlap);
    }
  }
}
