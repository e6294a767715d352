/** The table-driven 16-bit CRC: what it computes is the remainder of a polynomial
    division over GF(2), and what that lets it detect. */
module Crc {
  import opened Words

  /** Multiplication of the register by x, modulo x^16 + poly. */
  function Shift(poly: bv16, r: bv16): bv16
  {
    if High(r) then Xor(Double(r), poly) else Double(r)
  }

  function ShiftBy(poly: bv16, r: bv16, n: nat): bv16
    decreases n
  {
    if n == 0 then r else ShiftBy(poly, Shift(poly, r), n - 1)
  }

  // ---- polynomial division, the meaning

  /** Long division by x^16 + poly: the dividend's leading sixteen coefficients are in
      `r`, the others in `rest`; what is left is the remainder. */
  function Remainder(poly: bv16, r: bv16, rest: seq<bool>): bv16
    decreases |rest|
  {
    if rest == [] then r else Remainder(poly, Xor(Shift(poly, r), Low(rest[0])), rest[1..])
  }

  /** Bits placed in the register from the top down. */
  function Placed(bits: seq<bool>): bv16
    decreases |bits|
  {
    if bits == [] then 0 else Xor(Top(bits[0]), Half(Placed(bits[1..])))
  }

  function Zeros(n: nat): (r: seq<bool>)
    ensures |r| == n
  {
    seq(n, _ => false)
  }

  /** The remainder of the message times x^16, with `init` added to its leading
      sixteen coefficients. */
  function Divided(poly: bv16, init: bv16, message: seq<bool>): bv16
  {
    var dividend := message + Zeros(16);
    Remainder(poly, Xor(init, Placed(dividend[..16])), dividend[16..])
  }

  // ---- one bit at a time

  function Feed(poly: bv16, r: bv16, bits: seq<bool>): bv16
    decreases |bits|
  {
    if bits == [] then r else Feed(poly, Shift(poly, Xor(r, Top(bits[0]))), bits[1..])
  }

  lemma ShiftXor(poly: bv16, a: bv16, b: bv16)
    ensures Shift(poly, Xor(a, b)) == Xor(Shift(poly, a), Shift(poly, b))
  {
    hide Xor, Double, High;
    HighXor(a, b);
    DoubleXor(a, b);
    XorSwap(Double(a), if High(a) then poly else 0, Double(b), if High(b) then poly else 0);
    XorZero(poly);
    XorZero(0);
    XorZero(Double(a));
    XorZero(Double(b));
    XorZero(Double(Xor(a, b)));
  }

  lemma {:induction false} ShiftByXor(poly: bv16, a: bv16, b: bv16, n: nat)
    ensures ShiftBy(poly, Xor(a, b), n) == Xor(ShiftBy(poly, a, n), ShiftBy(poly, b, n))
    decreases n
  {
    hide Xor, Shift;
    if n > 0 {
      ShiftXor(poly, a, b);
      ShiftByXor(poly, Shift(poly, a), Shift(poly, b), n - 1);
    }
  }

  // ---- placed bits

  /** Fewer than sixteen bits leave the low bit free. */
  lemma {:induction false} PlacedLow(bits: seq<bool>, room: nat)
    requires 1 <= room && |bits| + room <= 16
    ensures DoubleBy(Placed(bits), 16 - room) == 0 && !Odd(Placed(bits))
    decreases |bits|
  {
    hide Xor, Double, Half, Top, Odd;
    if bits == [] {
      DoubleZero(16 - room);
      assert !Odd(0) by { OddZero(); }
    } else {
      var w := Placed(bits[1..]);
      PlacedLow(bits[1..], room + 1);
      TopFacts(bits[0]);
      HalfLow(w);
      DoubleXor(Top(bits[0]), Half(w));
      XorZero(w);
      RoomIsEven(Placed(bits), 16 - room);
    }
  }

  lemma {:induction false} DoubleZero(n: nat)
    ensures DoubleBy(0, n) == 0
  {
    hide Double;
    OddZero();
    if n > 0 { DoubleZero(n - 1); }
  }

  /** A word that fewer than sixteen doublings exhaust is even. */
  lemma RoomIsEven(w: bv16, n: nat)
    requires n <= 15 && DoubleBy(w, n) == 0
    ensures !Odd(w)
  {
    DoubleMore(w, n, 15 - n);
    assert DoubleBy(w, 15) == 0;
    Fifteen(w);
  }

  lemma {:induction false} DoubleMore(w: bv16, n: nat, k: nat)
    requires DoubleBy(w, n) == 0
    ensures DoubleBy(w, n + k) == 0
    decreases n
  {
    hide Double;
    if n == 0 { DoubleZero(k); } else { DoubleMore(Double(w), n - 1, k); }
  }

  lemma Fifteen(w: bv16)
    requires DoubleBy(w, 15) == 0
    ensures !Odd(w)
  {
    hide Double, Odd;
    var w3 := Double(Double(Double(w)));
    var w6 := Double(Double(Double(w3)));
    var w9 := Double(Double(Double(w6)));
    var w12 := Double(Double(Double(w9)));
    assert DoubleBy(w, 15) == DoubleBy(Double(w), 14) == DoubleBy(Double(Double(w)), 13) == DoubleBy(w3, 12);
    assert DoubleBy(w3, 12) == DoubleBy(Double(w3), 11) == DoubleBy(Double(Double(w3)), 10) == DoubleBy(w6, 9);
    assert DoubleBy(w6, 9) == DoubleBy(Double(w6), 8) == DoubleBy(Double(Double(w6)), 7) == DoubleBy(w9, 6);
    assert DoubleBy(w9, 6) == DoubleBy(Double(w9), 5) == DoubleBy(Double(Double(w9)), 4) == DoubleBy(w12, 3);
    assert DoubleBy(w12, 3) == DoubleBy(Double(w12), 2) == DoubleBy(Double(Double(w12)), 1) ==
           DoubleBy(Double(Double(Double(w12))), 0);
    LastDoubles(w);
  }

  lemma LastDoubles(w: bv16)
    ensures var w3 := Double(Double(Double(w))); var w6 := Double(Double(Double(w3)));
            var w9 := Double(Double(Double(w6)));
      var w12 := Double(Double(Double(w9)));
      Odd(w) ==> Double(Double(Double(w12))) != 0
  {
  }

  lemma {:induction false} PlacedLast(bits: seq<bool>, b: bool)
    ensures Placed(bits + [b]) == Xor(Placed(bits), HalfBy(Top(b), |bits|))
    decreases |bits|
  {
    hide Xor, Half, Top;
    if bits == [] {
      assert (bits + [b])[1..] == [];
      OddZero();
      XorComm(Top(b), 0);
    } else {
      assert (bits + [b])[1..] == bits[1..] + [b];
      PlacedLast(bits[1..], b);
      var t, w := HalfBy(Top(b), |bits| - 1), Placed(bits[1..]);
      HalfXor(w, t);
      HalfByEnd(Top(b), |bits| - 1);
      XorAssoc(Top(bits[0]), Half(w), Half(t));
    }
  }

  lemma LastPlace(b: bool)
    ensures HalfBy(Top(b), 15) == Low(b)
  {
    hide Half;
    var a := Top(b);
    var a3 := Half(Half(Half(a)));
    var a6 := Half(Half(Half(a3)));
    var a9 := Half(Half(Half(a6)));
    var a12 := Half(Half(Half(a9)));
    assert HalfBy(a, 15) == HalfBy(Half(a), 14) == HalfBy(Half(Half(a)), 13) == HalfBy(a3, 12);
    assert HalfBy(a3, 12) == HalfBy(Half(a3), 11) == HalfBy(Half(Half(a3)), 10) == HalfBy(a6, 9);
    assert HalfBy(a6, 9) == HalfBy(Half(a6), 8) == HalfBy(Half(Half(a6)), 7) == HalfBy(a9, 6);
    assert HalfBy(a9, 6) == HalfBy(Half(a9), 5) == HalfBy(Half(Half(a9)), 4) == HalfBy(a12, 3);
    assert HalfBy(a12, 3) == HalfBy(Half(a12), 2) == HalfBy(Half(Half(a12)), 1) == HalfBy(Half(Half(Half(a12))), 0);
    LastHalves(b);
  }

  lemma LastHalves(b: bool)
    ensures var a3 := Half(Half(Half(Top(b)))); var a6 := Half(Half(Half(a3))); var a9 := Half(Half(Half(a6)));
      var a12 := Half(Half(Half(a9)));
      Half(Half(Half(a12))) == Low(b)
  {
  }

  /** A bit added at the top, and an even word below it, are shifted up together. */
  lemma AddBelow(poly: bv16, r: bv16, b: bool, w: bv16)
    requires !Odd(w)
    ensures Shift(poly, Xor(r, Xor(Top(b), Half(w)))) == Xor(Shift(poly, Xor(r, Top(b))), w)
  {
    HalfLow(w);
    assert Shift(poly, Half(w)) == w;
    hide Xor, Half, Double, High, Odd, Top, Shift;
    XorAssoc(r, Top(b), Half(w));
    ShiftXor(poly, Xor(r, Top(b)), Half(w));
  }

  /** Up to sixteen bits may be added to the register at once. */
  lemma {:induction false} FeedPlaced(poly: bv16, r: bv16, bits: seq<bool>)
    requires |bits| <= 16
    ensures Feed(poly, r, bits) == ShiftBy(poly, Xor(r, Placed(bits)), |bits|)
    decreases |bits|
  {
    hide Xor, Half, Top, Shift, Odd;
    if bits == [] {
      XorZero(r);
    } else {
      PlacedLow(bits[1..], 17 - |bits|);
      AddBelow(poly, r, bits[0], Placed(bits[1..]));
      FeedPlaced(poly, Shift(poly, Xor(r, Top(bits[0]))), bits[1..]);
    }
  }

  /** Feeding the message bit by bit divides it. */
  lemma {:induction false} FeedDivides(poly: bv16, r: bv16, message: seq<bool>)
    ensures Feed(poly, r, message) == Divided(poly, r, message)
    decreases |message|
  {
    hide Xor, Half, Top, Shift, Odd, Low, Placed;
    var dividend := message + Zeros(16);
    if message == [] {
      assert dividend[..16] == Zeros(16) && dividend[16..] == [];
      ZerosPlaced(16);
      XorZero(r);
    } else {
      var next := message[1..] + Zeros(16);
      var r' := Shift(poly, Xor(r, Top(message[0])));
      assert dividend[1..] == next && dividend[16..][1..] == next[16..] && dividend[16..][0] == dividend[16];
      NextWord(poly, r, dividend);
      assert dividend[1..17] == next[..16];
      FeedDivides(poly, r', message[1..]);
    }
  }

  lemma {:induction false} ZerosPlaced(n: nat)
    ensures Placed(Zeros(n)) == 0
  {
    hide Xor, Half, Top;
    if n > 0 {
      assert Zeros(n)[1..] == Zeros(n - 1);
      ZerosPlaced(n - 1);
      OddZero();
      XorZero(0);
      assert Top(false) == 0 by { TopZero(); }
    }
  }

  lemma TopZero()
    ensures Top(false) == 0
  {
  }

  lemma NextWord(poly: bv16, r: bv16, d: seq<bool>)
    requires |d| >= 17
    ensures Xor(Shift(poly, Xor(r, Placed(d[..16]))), Low(d[16])) ==
            Xor(Shift(poly, Xor(r, Top(d[0]))), Placed(d[1..17]))
  {
    hide Xor, Half, Top, Shift, Odd, Low;
    var w := Placed(d[1..16]);
    assert d[..16][1..] == d[1..16] && d[1..17] == d[1..16] + [d[16]];
    PlacedLow(d[1..16], 1);
    AddBelow(poly, r, d[0], w);
    PlacedLast(d[1..16], d[16]);
    LastPlace(d[16]);
    XorAssoc(Shift(poly, Xor(r, Top(d[0]))), w, Low(d[16]));
  }

  lemma {:induction false} FeedConcat(poly: bv16, r: bv16, a: seq<bool>, b: seq<bool>)
    ensures Feed(poly, r, a + b) == Feed(poly, Feed(poly, r, a), b)
    decreases |a|
  {
    hide Xor, Top, Shift;
    if a == [] {
      assert a + b == b;
    } else {
      assert (a + b)[1..] == a[1..] + b;
      FeedConcat(poly, Shift(poly, Xor(r, Top(a[0]))), a[1..], b);
    }
  }

  // ---- one byte at a time

  /** The top `n` bits of a word, first bit first. */
  function WordBits(w: bv16, n: nat): (r: seq<bool>)
    ensures |r| == n
    decreases n
  {
    if n == 0 then [] else [High(w)] + WordBits(Double(w), n - 1)
  }

  function Raised(x: bv16): bv16 { x << 8 }
  function Lowered(x: bv16): bv16 { x >> 8 }
  function LowHalf(x: bv16): bv16 { x & 0xff }
  function Word(v: bv8): bv16 { v as bv16 }

  function Upper(v: bv8): bv16
  {
    Raised(Word(v))
  }

  function ByteBits(v: bv8): (r: seq<bool>)
    ensures |r| == 8
  {
    WordBits(Upper(v), 8)
  }

  function Bits(data: seq<bv8>): (r: seq<bool>)
    ensures |r| == 8 * |data|
  {
    if data == [] then [] else ByteBits(data[0]) + Bits(data[1..])
  }

  lemma {:induction false} WordBitsPlaced(w: bv16, n: nat)
    requires DoubleBy(w, n) == 0
    ensures Placed(WordBits(w, n)) == w
    decreases n
  {
    hide Xor, Half, Top, Double, High;
    if n > 0 {
      WordBitsPlaced(Double(w), n - 1);
      assert WordBits(w, n)[1..] == WordBits(Double(w), n - 1);
      SplitTop(w);
    }
  }

  lemma EightDoubles(w: bv16)
    ensures DoubleBy(w, 8) == Double(Double(Double(Double(Double(Double(Double(Double(w))))))))
  {
    hide Double;
    var w3 := Double(Double(Double(w)));
    var w6 := Double(Double(Double(w3)));
    assert DoubleBy(w, 8) == DoubleBy(Double(w), 7) == DoubleBy(Double(Double(w)), 6) == DoubleBy(w3, 5);
    assert DoubleBy(w3, 5) == DoubleBy(Double(w3), 4) == DoubleBy(Double(Double(w3)), 3) == DoubleBy(w6, 2);
    assert DoubleBy(w6, 2) == DoubleBy(Double(w6), 1) == DoubleBy(Double(Double(w6)), 0);
  }

  lemma UpperRoom(v: bv8)
    ensures DoubleBy(Upper(v), 8) == 0
  {
    EightDoubles(Upper(v));
    UpperDoubles(Word(v));
    hide Double, Word, Raised;
  }

  lemma UpperDoubles(x: bv16)
    ensures Double(Double(Double(Double(Double(Double(Double(Double(Raised(x))))))))) == 0
  {
  }

  /** The table's entry for one byte. */
  function Entry(poly: bv16, t: bv16): bv16
  {
    ShiftBy(poly, Raised(t), 8)
  }

  lemma LowByteShifts(w: bv16)
    requires w <= 0xff
    ensures var w1 := Double(w); var w2 := Double(w1); var w3 := Double(w2); var w4 := Double(w3); var w5 := Double(w4);
      var w6 := Double(w5); var w7 := Double(w6);
      && !High(w) && !High(w1) && !High(w2) && !High(w3) && !High(w4) && !High(w5) && !High(w6) && !High(w7) &&
         Double(w7) == Raised(w)
  {
  }

  /** Eight shifts move a lone low byte up unchanged. */
  lemma LowByte(poly: bv16, w: bv16)
    requires w <= 0xff
    ensures ShiftBy(poly, w, 8) == Raised(w)
  {
    LowByteShifts(w);
    hide Double, High, Xor, Raised;
    var w1 := Double(w);
    var w2 := Double(w1);
    var w3 := Double(w2);
    var w4 := Double(w3);
    var w5 := Double(w4);
    var w6 := Double(w5);
    var w7 := Double(w6);
    assert ShiftBy(poly, w, 8) == ShiftBy(poly, w1, 7) == ShiftBy(poly, w2, 6) == ShiftBy(poly, w3, 5);
    assert ShiftBy(poly, w3, 5) == ShiftBy(poly, w4, 4) == ShiftBy(poly, w5, 3) == ShiftBy(poly, w6, 2);
    assert ShiftBy(poly, w6, 2) == ShiftBy(poly, w7, 1) == ShiftBy(poly, Double(w7), 0);
  }

  /** The table index: the register's high byte and the next byte. */
  function Index(crc: bv16, v: bv8): bv16
  {
    Xor(Lowered(crc), Word(v))
  }

  function TableStep(poly: bv16, crc: bv16, v: bv8): bv16
  {
    Xor(Raised(crc), Entry(poly, Index(crc, v)))
  }

  lemma SplitWord(crc: bv16, x: bv16)
    ensures Xor(crc, Raised(x)) == Xor(Raised(Xor(Lowered(crc), x)), LowHalf(crc))
  {
    RaisedXor(Lowered(crc), x);
    SplitAtByte(crc);
    hide Xor, Raised, Lowered, LowHalf;
    XorAssoc(Raised(Lowered(crc)), Raised(x), LowHalf(crc));
    XorComm(Raised(x), LowHalf(crc));
    XorAssoc(Raised(Lowered(crc)), LowHalf(crc), Raised(x));
  }

  lemma RaisedXor(a: bv16, b: bv16)
    ensures Raised(Xor(a, b)) == Xor(Raised(a), Raised(b))
  {
  }

  lemma SplitAtByte(crc: bv16)
    ensures Xor(Raised(Lowered(crc)), LowHalf(crc)) == crc
  {
  }

  lemma LowPart(crc: bv16)
    ensures LowHalf(crc) <= 0xff && Raised(LowHalf(crc)) == Raised(crc)
  {
  }

  lemma IndexInRange(crc: bv16, v: bv8)
    ensures Index(crc, v) <= 0xff
  {
    assert Word(v) <= 0xff && Lowered(crc) <= 0xff;
    XorSmall(Lowered(crc), Word(v));
    hide Lowered, Word;
  }

  lemma XorSmall(a: bv16, b: bv16)
    requires a <= 0xff && b <= 0xff
    ensures Xor(a, b) <= 0xff
  {
  }

  /** One table look-up does the work of eight single bits. */
  lemma TableStepFeeds(poly: bv16, crc: bv16, v: bv8)
    ensures TableStep(poly, crc, v) == Feed(poly, crc, ByteBits(v))
  {
    hide Xor, Feed, ShiftBy, WordBits, DoubleBy, Raised, Lowered, LowHalf, Word;
    UpperRoom(v);
    WordBitsPlaced(Upper(v), 8);
    FeedPlaced(poly, crc, ByteBits(v));
    SplitWord(crc, Word(v));
    LowPart(crc);
    ShiftByXor(poly, Raised(Index(crc, v)), LowHalf(crc), 8);
    LowByte(poly, LowHalf(crc));
    XorComm(Raised(crc), Entry(poly, Index(crc, v)));
  }

  /** The checksum of a message, as the remainder it stands for. */
  function Crc16(poly: bv16, init: bv16, data: seq<bv8>): bv16
  {
    Divided(poly, init, Bits(data))
  }

  lemma {:induction false} BitsLast(data: seq<bv8>, v: bv8)
    ensures Bits(data + [v]) == Bits(data) + ByteBits(v)
  {
    hide ByteBits;
    if data == [] {
      assert Bits([v]) == ByteBits(v) + Bits([]);
    } else {
      assert (data + [v])[1..] == data[1..] + [v];
      BitsLast(data[1..], v);
      assert ByteBits(data[0]) + (Bits(data[1..]) + ByteBits(v)) == Bits(data) + ByteBits(v);
    }
  }

  /** One more byte costs one table look-up. */
  lemma Crc16Last(poly: bv16, init: bv16, data: seq<bv8>, v: bv8)
    ensures Crc16(poly, init, data + [v]) == TableStep(poly, Crc16(poly, init, data), v)
  {
    hide Divided, Feed, TableStep, Bits, ByteBits;
    BitsLast(data, v);
    FeedDivides(poly, init, Bits(data));
    FeedDivides(poly, init, Bits(data + [v]));
    FeedConcat(poly, init, Bits(data), ByteBits(v));
    TableStepFeeds(poly, Crc16(poly, init, data), v);
  }

  lemma Crc16Empty(poly: bv16, init: bv16)
    ensures Crc16(poly, init, []) == init
  {
    hide Divided;
    FeedDivides(poly, init, []);
  }

  // ---- the program

  /** The table holds every byte's entry. */
  ghost predicate TableFor(table: array<bv16>, poly: bv16)
    reads table
  {
    table.Length == 256 && forall k :: 0 <= k < 256 ==> table[k] == Entry(poly, k as bv16)
  }

  method NewTable(poly: bv16) returns (table: array<bv16>)
    ensures fresh(table) && TableFor(table, poly)
  {
    hide ShiftBy, Entry;
    table := new bv16[256];
    for k := 0 to 256
      invariant forall j :: 0 <= j < k ==> table[j] == Entry(poly, j as bv16)
    {
      var crc := TableEntry(poly, k as bv16);
      table[k] := crc;
    }
  }

  method TableEntry(poly: bv16, t: bv16) returns (crc: bv16)
    ensures crc == Entry(poly, t)
  {
    hide Xor, High, Double;
    crc := Raised(t);
    for bit := 0 to 8
      invariant ShiftBy(poly, crc, 8 - bit) == Entry(poly, t)
    {
      crc := ShiftOnce(poly, crc);
    }
  }

  method ShiftOnce(poly: bv16, crc: bv16) returns (r: bv16)
    ensures r == Shift(poly, crc)
  {
    if crc & 0x8000 != 0 { r := (crc << 1) ^ poly; } else { r := crc << 1; }
  }

  lemma RoundTrip(t: bv16)
    requires t <= 0xff
    ensures t as int < 256 && (t as int) as bv16 == t
  {
  }

  /** The table-driven checksum is the remainder of the division. */
  method Checksum(init: bv16, data: seq<bv8>, table: array<bv16>, ghost poly: bv16) returns (crc: bv16)
    requires TableFor(table, poly)
    ensures crc == Crc16(poly, init, data)
  {
    hide Crc16, Entry, Xor, Lowered, Word, Raised;
    crc := init;
    Crc16Empty(poly, init);
    for k := 0 to |data|
      invariant crc == Crc16(poly, init, data[..k])
    {
      var t := Index(crc, data[k]);
      Crc16Last(poly, init, data[..k], data[k]);
      assert data[..k + 1] == data[..k] + [data[k]];
      IndexInRange(crc, data[k]);
      RoundTrip(t);
      crc := Xor(Raised(crc), table[t as int]);
    }
    assert data[..|data|] == data;
  }

  // ---- what it is good for

  function HighByte(crc: bv16): bv8 { ((crc >> 8) & 0xff) as bv8 }
  function LowByteOf(crc: bv16): bv8 { (crc & 0xff) as bv8 }

  lemma EntryZero(poly: bv16)
    ensures Entry(poly, 0) == 0
  {
    assert Raised(0) == 0;
    hide Raised, Shift;
    ShiftByZero(poly, 8);
  }

  lemma {:induction false} ShiftByZero(poly: bv16, n: nat)
    ensures ShiftBy(poly, 0, n) == 0
    decreases n
  {
    OddZero();
    hide Double, High, Xor;
    if n > 0 { ShiftByZero(poly, n - 1); }
  }

  lemma AppendHigh(crc: bv16)
    ensures Index(crc, HighByte(crc)) == 0 && Lowered(Raised(crc)) == LowHalf(crc) && Raised(Raised(crc)) == 0
  {
    assert Word(HighByte(crc)) == Lowered(crc);
    XorZero(Lowered(crc));
  }

  lemma AppendLow(crc: bv16)
    ensures Index(Raised(crc), LowByteOf(crc)) == 0
  {
    assert Word(LowByteOf(crc)) == LowHalf(crc);
    AppendHigh(crc);
    hide Raised, Lowered, LowHalf, Word;
    XorZero(LowHalf(crc));
  }

  /** A message followed by its own big-endian checksum has checksum zero. */
  lemma ResidueZero(poly: bv16, init: bv16, data: seq<bv8>)
    ensures var crc := Crc16(poly, init, data); Crc16(poly, init, data + [HighByte(crc), LowByteOf(crc)]) == 0
  {
    hide Crc16, Entry, Raised, Lowered, Word, Index, Xor, HighByte, LowByteOf, LowHalf;
    var crc := Crc16(poly, init, data);
    Crc16Last(poly, init, data, HighByte(crc));
    Crc16Last(poly, init, data + [HighByte(crc)], LowByteOf(crc));
    assert data + [HighByte(crc)] + [LowByteOf(crc)] == data + [HighByte(crc), LowByteOf(crc)];
    AppendHigh(crc);
    AppendLow(crc);
    EntryZero(poly);
    XorZero(Raised(crc));
    XorZero(Raised(Raised(crc)));
  }

  lemma OddNotDouble(d: bv16, poly: bv16)
    requires Odd(poly)
    ensures Xor(Double(d), poly) != 0
  {
    DoubleFacts(d);
    OddXor(Double(d), poly);
    hide Xor, Double;
    OddZero();
  }

  /** With an odd polynomial no two registers are shifted onto one. */
  lemma ShiftInjective(poly: bv16, a: bv16, b: bv16)
    requires Odd(poly) && Shift(poly, a) == Shift(poly, b)
    ensures a == b
  {
    hide Xor, Double, High, Odd;
    var d := Xor(a, b);
    ShiftXor(poly, a, b);
    XorZero(Shift(poly, a));
    OddNotDouble(d, poly);
    DoubleFacts(d);
    XorEqual(a, b);
  }

  lemma XorCancel(a: bv16, b: bv16, c: bv16)
    requires Xor(a, c) == Xor(b, c)
    ensures a == b
  {
    hide Xor;
    XorAssoc(a, c, c);
    XorAssoc(b, c, c);
    XorZero(c);
    XorZero(a);
    XorZero(b);
  }

  lemma {:induction false} ShiftByInjective(poly: bv16, a: bv16, b: bv16, n: nat)
    requires Odd(poly) && ShiftBy(poly, a, n) == ShiftBy(poly, b, n)
    ensures a == b
    decreases n
  {
    hide Shift, Odd;
    if n > 0 {
      ShiftByInjective(poly, Shift(poly, a), Shift(poly, b), n - 1);
      ShiftInjective(poly, a, b);
    }
  }

  /** Registers that differ still differ after the same bits. */
  lemma {:induction false} FeedInjective(poly: bv16, a: bv16, b: bv16, bits: seq<bool>)
    requires Odd(poly) && Feed(poly, a, bits) == Feed(poly, b, bits)
    ensures a == b
    decreases |bits|
  {
    hide Shift, Odd, Xor, Top;
    if bits != [] {
      FeedInjective(poly, Shift(poly, Xor(a, Top(bits[0]))), Shift(poly, Xor(b, Top(bits[0]))), bits[1..]);
      ShiftInjective(poly, Xor(a, Top(bits[0])), Xor(b, Top(bits[0])));
      XorCancel(a, b, Top(bits[0]));
    }
  }

  /** Up to sixteen bits are told apart by where they are placed. */
  lemma {:induction false} PlacedInjective(a: seq<bool>, b: seq<bool>)
    requires |a| == |b| <= 16 && Placed(a) == Placed(b)
    ensures a == b
    decreases |a|
  {
    hide Xor, Half, Top, Double, High, Odd;
    if a != [] {
      var v, w := Placed(a[1..]), Placed(b[1..]);
      PlacedLow(a[1..], 17 - |a|);
      PlacedLow(b[1..], 17 - |b|);
      PlacedParts(a[0], v);
      PlacedParts(b[0], w);
      PlacedInjective(a[1..], b[1..]);
      assert a == [a[0]] + a[1..] && b == [b[0]] + b[1..];
    }
  }

  lemma PlacedParts(b: bool, w: bv16)
    requires !Odd(w)
    ensures High(Xor(Top(b), Half(w))) == b && Double(Xor(Top(b), Half(w))) == w
  {
    hide Xor, Half, Top, Double, High, Odd;
    TopFacts(b);
    HalfLow(w);
    HighXor(Top(b), Half(w));
    DoubleXor(Top(b), Half(w));
    XorZero(w);
  }

  /** Any change confined to sixteen consecutive bits changes the checksum, whatever
      the message and however long it is, if the polynomial is odd. */
  lemma BurstDetected(poly: bv16, init: bv16, sent: seq<bv8>, received: seq<bv8>, before: seq<bool>, a: seq<bool>,
      b: seq<bool>, after: seq<bool>)
    requires Odd(poly) && |a| == |b| <= 16 && a != b
    requires Bits(sent) == before + a + after && Bits(received) == before + b + after
    ensures Crc16(poly, init, sent) != Crc16(poly, init, received)
  {
    hide Odd, Xor, Shift, Placed, Divided, Bits;
    var r := Feed(poly, init, before);
    FeedDivides(poly, init, before + a + after);
    FeedDivides(poly, init, before + b + after);
    FeedConcat(poly, init, before + a, after);
    FeedConcat(poly, init, before + b, after);
    FeedConcat(poly, init, before, a);
    FeedConcat(poly, init, before, b);
    if Crc16(poly, init, sent) == Crc16(poly, init, received) {
      FeedInjective(poly, Feed(poly, r, a), Feed(poly, r, b), after);
      FeedPlaced(poly, r, a);
      FeedPlaced(poly, r, b);
      ShiftByInjective(poly, Xor(r, Placed(a)), Xor(r, Placed(b)), |a|);
      XorComm(r, Placed(a));
      XorComm(r, Placed(b));
      XorCancel(Placed(a), Placed(b), r);
      PlacedInjective(a, b);
    }
  }

  lemma {:induction false} PlacedConcat(a: seq<bool>, b: seq<bool>)
    ensures Placed(a + b) == Xor(Placed(a), HalfBy(Placed(b), |a|))
  {
    hide Xor, Half, Top;
    XorZero(Placed(b));
    if a == [] {
      assert a + b == b;
    } else {
      assert (a + b)[1..] == a[1..] + b;
      PlacedConcat(a[1..], b);
      HalfXor(Placed(a[1..]), HalfBy(Placed(b), |a| - 1));
      HalfByEnd(Placed(b), |a| - 1);
      XorAssoc(Top(a[0]), Half(Placed(a[1..])), HalfBy(Placed(b), |a|));
    }
  }

  lemma EightHalves(d: bv16)
    ensures var u := Upper(LowByteOf(d));
      Xor(Upper(HighByte(d)), Half(Half(Half(Half(Half(Half(Half(Half(u))))))))) == d
  {
  }

  lemma BytePlaced(v: bv8)
    ensures Placed(ByteBits(v)) == Upper(v)
  {
    hide Double, High, Upper;
    UpperRoom(v);
    WordBitsPlaced(Upper(v), 8);
  }

  /** Two bytes whose bits are those of a given word. */
  lemma WordPlaced(d: bv16)
    ensures Placed(Bits([HighByte(d), LowByteOf(d)])) == d && |Bits([HighByte(d), LowByteOf(d)])| == 16
  {
    hide ByteBits, Placed, Xor, Half, Upper, HighByte, LowByteOf;
    var h, l := HighByte(d), LowByteOf(d);
    assert Bits([l]) == ByteBits(l) + Bits([]) == ByteBits(l);
    assert [h, l][1..] == [l] && Bits([h, l]) == ByteBits(h) + ByteBits(l);
    PlacedConcat(ByteBits(h), ByteBits(l));
    BytePlaced(h);
    BytePlaced(l);
    var u := Upper(l);
    var u4 := Half(Half(Half(Half(u))));
    assert HalfBy(u, 8) == HalfBy(Half(u), 7) == HalfBy(Half(Half(u)), 6) == HalfBy(Half(Half(Half(u))), 5) ==
           HalfBy(u4, 4);
    assert HalfBy(u4, 4) == HalfBy(Half(u4), 3) == HalfBy(Half(Half(u4)), 2) == HalfBy(Half(Half(Half(u4))), 1) ==
           HalfBy(Half(Half(Half(Half(u4)))), 0);
    EightHalves(d);
  }

  /** With an even polynomial it fails: some two messages of two bytes have the same
      checksum, whatever the initial value. */
  lemma EvenPolynomialMisses(poly: bv16) returns (sent: seq<bv8>, received: seq<bv8>)
    requires !Odd(poly)
    ensures |sent| == |received| == 2 && sent != received
    ensures forall init :: Crc16(poly, init, sent) == Crc16(poly, init, received)
  {
    hide Xor, Double, High, Top, Half, Odd, Bits, Placed, HighByte, LowByteOf, Shift;
    var d := Xor(Top(true), Half(poly));
    PlacedParts(true, poly);
    sent, received := [HighByte(d), LowByteOf(d)], [HighByte(0), LowByteOf(0)];
    WordPlaced(d);
    WordPlaced(0);
    OddZero();
    assert Shift(poly, d) == 0 by { HalfPolynomial(poly); }
    ShiftByZero(poly, 15);
    forall init ensures Crc16(poly, init, sent) == Crc16(poly, init, received) {
      FeedDivides(poly, init, Bits(sent));
      FeedDivides(poly, init, Bits(received));
      FeedPlaced(poly, init, Bits(sent));
      FeedPlaced(poly, init, Bits(received));
      ShiftByXor(poly, init, d, 16);
      XorZero(ShiftBy(poly, init, 16));
      XorZero(init);
    }
  }

  /** The top bit and half of an even polynomial are shifted into nothing. */
  lemma HalfPolynomial(poly: bv16)
    requires !Odd(poly)
    ensures Shift(poly, Xor(Top(true), Half(poly))) == 0
  {
    hide Xor, Double, High, Top, Half, Odd;
    PlacedParts(true, poly);
    XorZero(poly);
  }

  // ---- the complemented checksum

  const CCITT: bv16 := 0x1021

  lemma ComplementHigh(crc: bv16)
    ensures Xor(Lowered(crc), Lowered(Xor(crc, 0xffff))) == 0xff
  {
  }

  lemma ComplementLow(crc: bv16)
    ensures LowHalf(Xor(crc, 0xffff)) == Xor(LowHalf(crc), 0xff)
  {
  }

  lemma HighByteIs(w: bv16)
    ensures Word(HighByte(w)) == Lowered(w) && Word(LowByteOf(w)) == LowHalf(w)
  {
  }

  lemma LoweredXor(a: bv16, b: bv16)
    ensures Lowered(Xor(a, b)) == Xor(Lowered(a), Lowered(b))
  {
  }

  /** The two entries of the CCITT table that a complemented checksum meets. */
  lemma CcittEntries()
    ensures Entry(CCITT, 0xff) == 0x1ef0 && Entry(CCITT, 0xe1) == 0xed0f
  {
    CcittShifts();
    assert Raised(0xff) == 0xff00 && Raised(0xe1) == 0xe100;
    hide Shift, Raised;
    assert ShiftBy(CCITT, 0xff00, 8) == ShiftBy(CCITT, 0xee21, 7) == ShiftBy(CCITT, 0xcc63, 6) ==
           ShiftBy(CCITT, 0x88e7, 5);
    assert ShiftBy(CCITT, 0x88e7, 5) == ShiftBy(CCITT, 0x01ef, 4) == ShiftBy(CCITT, 0x03de, 3) ==
           ShiftBy(CCITT, 0x07bc, 2);
    assert ShiftBy(CCITT, 0x07bc, 2) == ShiftBy(CCITT, 0x0f78, 1) == ShiftBy(CCITT, 0x1ef0, 0);
    assert ShiftBy(CCITT, 0xe100, 8) == ShiftBy(CCITT, 0xd221, 7) == ShiftBy(CCITT, 0xb463, 6) ==
           ShiftBy(CCITT, 0x78e7, 5);
    assert ShiftBy(CCITT, 0x78e7, 5) == ShiftBy(CCITT, 0xf1ce, 4) == ShiftBy(CCITT, 0xf3bd, 3) ==
           ShiftBy(CCITT, 0xf75b, 2);
    assert ShiftBy(CCITT, 0xf75b, 2) == ShiftBy(CCITT, 0xfe97, 1) == ShiftBy(CCITT, 0xed0f, 0);
  }

  lemma CcittShifts()
    ensures Shift(CCITT, 0xff00) == 0xee21 && Shift(CCITT, 0xee21) == 0xcc63 && Shift(CCITT, 0xcc63) == 0x88e7 &&
            Shift(CCITT, 0x88e7) == 0x01ef
    ensures Shift(CCITT, 0x01ef) == 0x03de && Shift(CCITT, 0x03de) == 0x07bc && Shift(CCITT, 0x07bc) == 0x0f78 &&
            Shift(CCITT, 0x0f78) == 0x1ef0
    ensures Shift(CCITT, 0xe100) == 0xd221 && Shift(CCITT, 0xd221) == 0xb463 && Shift(CCITT, 0xb463) == 0x78e7 &&
            Shift(CCITT, 0x78e7) == 0xf1ce
    ensures Shift(CCITT, 0xf1ce) == 0xf3bd && Shift(CCITT, 0xf3bd) == 0xf75b && Shift(CCITT, 0xf75b) == 0xfe97 &&
            Shift(CCITT, 0xfe97) == 0xed0f
  {
  }

  /** A message followed by its complemented CCITT checksum leaves the same residue
      whatever the message and the initial value. */
  lemma CcittResidue(init: bv16, data: seq<bv8>)
    ensures var c := Xor(Crc16(CCITT, init, data), 0xffff);
            Crc16(CCITT, init, data + [HighByte(c), LowByteOf(c)]) == 0x1d0f
  {
    assert Lowered(0x1ef0) == 0x1e && Raised(0x1ef0) == 0xf000 && Xor(0x1e, 0xff) == 0xe1 &&
           Xor(0xf000, 0xed0f) == 0x1d0f;
    hide Crc16, Entry, Raised, Lowered, Word, Xor, HighByte, LowByteOf, LowHalf;
    var crc := Crc16(CCITT, init, data);
    var c := Xor(crc, 0xffff);
    Crc16Last(CCITT, init, data, HighByte(c));
    Crc16Last(CCITT, init, data + [HighByte(c)], LowByteOf(c));
    assert data + [HighByte(c)] + [LowByteOf(c)] == data + [HighByte(c), LowByteOf(c)];
    CcittEntries();
    HighByteIs(c);
    ComplementHigh(crc);
    ComplementLow(crc);
    AppendHigh(crc);
    var next := Xor(Raised(crc), 0x1ef0);
    LoweredXor(Raised(crc), 0x1ef0);
    RaisedXor(Raised(crc), 0x1ef0);
    XorZero(0xf000);
    var low := LowHalf(crc);
    XorComm(low, 0x1e);
    XorSwap(0x1e, low, low, 0xff);
    XorSwap(low, 0x1e, low, 0xff);
    XorZero(low);
    XorZero(0xe1);
  }
}
