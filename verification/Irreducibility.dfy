/** The search for a factor of the field's polynomial.  What it finds makes two
    elements other than zero multiply to zero. */
module Irreducibility {
  import opened Words
  import opened GaloisField

  /** The product of polynomials, without any reduction. */
  function Carryless(k: bv16, q: bv16, n: nat): bv16
    decreases n
  {
    if n == 0 then 0 else Xor(if Odd(k) then q else 0, Double(Carryless(Half(k), q, n - 1)))
  }

  lemma {:induction false} CarrylessXor(a: bv16, b: bv16, q: bv16, n: nat)
    ensures Carryless(Xor(a, b), q, n) == Xor(Carryless(a, q, n), Carryless(b, q, n))
    decreases n
  {
    hide Xor, Double, Half, Odd;
    XorZero(0);
    if n > 0 {
      HalfXor(a, b);
      OddXor(a, b);
      CarrylessXor(Half(a), Half(b), q, n - 1);
      var u, v := Carryless(Half(a), q, n - 1), Carryless(Half(b), q, n - 1);
      DoubleXor(u, v);
      var zero: bv16 := 0;
      XorSwap(if Odd(a) then q else zero, Double(u), if Odd(b) then q else zero, Double(v));
      XorZero(q);
    }
  }

  lemma {:induction false} CarrylessZero(q: bv16, n: nat)
    ensures Carryless(0, q, n) == 0
    decreases n
  {
    hide Xor, Double, Half, Odd;
    OddZero();
    XorZero(0);
    if n > 0 { CarrylessZero(q, n - 1); }
  }

  /** A single power of x shifts the other factor. */
  lemma {:induction false} CarrylessPower(q: bv16, s: nat, n: nat)
    requires s < n <= 16
    ensures Carryless(DoubleBy(1, s), q, n) == DoubleBy(q, s)
    decreases s
  {
    hide Xor, Double, Half, Odd, High;
    OddZero();
    if s == 0 {
      CarrylessZero(q, n - 1);
      XorZero(q);
    } else {
      DoubleByConcat(1, s - 1, 1);
      DoubleByConcat(q, s - 1, 1);
      var w := DoubleBy(1, s - 1);
      PowerNotHigh(s - 1);
      DoubleFacts(w);
      CarrylessPower(q, s - 1, n - 1);
      XorZero(Double(DoubleBy(q, s - 1)));
    }
  }

  /** 2^s, for an exponent that leaves room in a word. */
  lemma PowerNotHigh(s: nat)
    requires s < 15
    ensures !High(DoubleBy(1, s))
  {
    hide High, Double;
    PowerValue(s);
    SmallPowers(s);
  }

  function Pow2(s: nat): bv16
  {
    match s
    case 0 => 1 case 1 => 2 case 2 => 4 case 3 => 8 case 4 => 16 case 5 => 32 case 6 => 64 case 7 => 128 case 8 => 256
    case 9 => 512 case 10 => 1024 case 11 => 2048 case 12 => 4096 case 13 => 8192 case 14 => 16384 case 15 => 32768
    case _ => 0
  }

  lemma SmallPowers(s: nat)
    ensures s < 15 ==> !High(Pow2(s))
    ensures 0 < s < 16 ==> Double(Pow2(s - 1)) == Pow2(s) && Half(Pow2(s)) == Pow2(s - 1)
  {
  }

  lemma {:induction false} PowerValue(s: nat)
    requires s < 16
    ensures DoubleBy(1, s) == Pow2(s)
  {
    hide Double, Pow2;
    if s == 0 {
      assert Pow2(0) == 1 by { FirstPower(); }
    } else {
      PowerValue(s - 1);
      DoubleByConcat(1, s - 1, 1);
      SmallPowers(s);
    }
  }

  lemma FirstPower()
    ensures Pow2(0) == 1
  {
  }

  // ---- reduction only happens at the end

  lemma DoubleBelow(c: bv16, q: bv16, order: bv16)
    requires OneBit(order) && Below(q, order) && Below(Xor(q, Double(c)), order) && !High(c)
    ensures Below(c, order) && !Meets(Double(c), order)
  {
  }

  lemma ZeroBelow(order: bv16)
    requires OneBit(order)
    ensures Below(0, order)
  {
  }

  /** The polynomial's leading term is the field's order. */
  predicate Leads(poly: bv16, order: bv16)
  {
    !Below(poly, order) && Below(poly, Double(order))
  }

  lemma UsableLeads(p: Params)
    requires Usable(p)
    ensures Leads(p.poly, Order(p.m))
  {
  }

  lemma LastDouble(c: bv16, q: bv16, order: bv16, poly: bv16)
    requires OneBit(order) && Below(q, order) && Leads(poly, order) && Xor(q, Double(c)) == poly && !High(c)
    ensures Below(c, order) && Meets(Double(c), order)
  {
  }

  lemma {:induction false} HalfByXor(a: bv16, b: bv16, n: nat)
    ensures HalfBy(Xor(a, b), n) == Xor(HalfBy(a, n), HalfBy(b, n))
    decreases n
  {
    hide Xor, Half;
    if n > 0 {
      HalfXor(a, b);
      HalfByXor(Half(a), Half(b), n - 1);
    }
  }

  /** A word of fewer than sixteen bits has its top bit clear. */
  lemma ShortNotHigh(c: bv16, n: nat)
    requires n <= 15 && HalfBy(c, n) == 0
    ensures !High(c)
  {
    hide Half, High;
    HalfByMore(c, n, 15 - n);
    var c3 := Half(Half(Half(c)));
    var c6 := Half(Half(Half(c3)));
    var c9 := Half(Half(Half(c6)));
    var c12 := Half(Half(Half(c9)));
    assert HalfBy(c, 15) == HalfBy(Half(c), 14) == HalfBy(Half(Half(c)), 13) == HalfBy(c3, 12);
    assert HalfBy(c3, 12) == HalfBy(Half(c3), 11) == HalfBy(Half(Half(c3)), 10) == HalfBy(c6, 9);
    assert HalfBy(c6, 9) == HalfBy(Half(c6), 8) == HalfBy(Half(Half(c6)), 7) == HalfBy(c9, 6);
    assert HalfBy(c9, 6) == HalfBy(Half(c9), 5) == HalfBy(Half(Half(c9)), 4) == HalfBy(c12, 3);
    assert HalfBy(c12, 3) == HalfBy(Half(c12), 2) == HalfBy(Half(Half(c12)), 1) == HalfBy(Half(Half(Half(c12))), 0);
    FifteenHalves(c);
  }

  lemma FifteenHalves(c: bv16)
    ensures var c3 := Half(Half(Half(c))); var c6 := Half(Half(Half(c3))); var c9 := Half(Half(Half(c6)));
      var c12 := Half(Half(Half(c9)));
      High(c) ==> Half(Half(Half(c12))) != 0
  {
  }

  lemma {:induction false} CarrylessBits(k: bv16, q: bv16, n: nat)
    requires HalfBy(q, 8) == 0 && n <= 7
    ensures HalfBy(Carryless(k, q, n), 8 + n) == 0 && !High(Carryless(k, q, n))
    decreases n
  {
    hide Xor, Half, Odd, Double, High;
    HalfByZero(8 + n);
    if n > 0 {
      var c := Carryless(Half(k), q, n - 1);
      CarrylessBits(Half(k), q, n - 1);
      DoubleFacts(c);
      HalfByMore(q, 8, n);
      HalfByXor(if Odd(k) then q else 0, Double(c), 8 + n);
      XorZero(0);
    }
    ShortNotHigh(Carryless(k, q, n), 8 + n);
  }

  /** A product that fits is not reduced. */
  lemma {:induction false} CarrylessAgrees(p: Params, k: bv16, q: bv16, n: nat)
    requires In(p, q) && n <= 7 && In(p, Carryless(k, q, n))
    ensures Horner(p, k, q, n) == Carryless(k, q, n)
    decreases n
  {
    hide Xor, Half, Odd, Double, High, Below, Meets, Order, OneBit;
    if n > 0 {
      var c := Carryless(Half(k), q, n - 1);
      OrderIsBit(p.m);
      ZeroBelow(Order(p.m));
      Exhausted(p, q);
      CarrylessBits(Half(k), q, n - 1);
      DoubleBelow(c, if Odd(k) then q else 0, Order(p.m));
      CarrylessAgrees(p, Half(k), q, n - 1);
    }
  }

  /** Two elements other than zero whose product is the field's polynomial. */
  ghost predicate Splits(p: Params, k: bv16, q: bv16)
  {
    In(p, k) && In(p, q) && k != 0 && q != 0 && Carryless(k, q, 8) == p.poly
  }

  lemma Unfolded(p: Params, k: bv16, q: bv16)
    ensures Carryless(k, q, 8) == Xor(if Odd(k) then q else 0, Double(Carryless(Half(k), q, 7)))
    ensures Horner(p, k, q, 8) == Xor(if Odd(k) then q else 0, Times2(p, Horner(p, Half(k), q, 7)))
  {
    hide Xor, Half, Odd, Double, Times2;
  }

  /** Doubling into the polynomial's leading term leaves nothing. */
  lemma LastStep(p: Params, c: bv16, low: bv16)
    requires Usable(p) && In(p, low) && !High(c) && Xor(low, Double(c)) == p.poly
    ensures In(p, c) && Xor(low, Times2(p, c)) == 0
  {
    OrderIsBit(p.m);
    UsableLeads(p);
    hide Xor, Half, Odd, Double, High, Below, Meets, Order, OneBit, Usable, Leads;
    LastDouble(c, low, Order(p.m), p.poly);
    XorAssoc(low, Double(c), p.poly);
    XorZero(p.poly);
  }

  /** In the field their product is zero. */
  lemma FactorsVanish(p: Params, k: bv16, q: bv16)
    requires Usable(p) && Splits(p, k, q)
    ensures Product(p, k, q) == 0
  {
    hide Xor, Half, Odd, Double, High, Usable, Times2, Horner, Carryless, HalfBy, In;
    Unfolded(p, k, q);
    OneIn(p);
    Exhausted(p, q);
    CarrylessBits(Half(k), q, 7);
    LastStep(p, Carryless(Half(k), q, 7), if Odd(k) then q else 0);
    CarrylessAgrees(p, Half(k), q, 7);
    Exhausted(p, k);
    HornerStable(p, k, q, 8, 8);
  }

  // ---- significant bits

  ghost predicate Significant(w: bv16, n: nat)
  {
    HalfBy(w, n) == 0 && (n > 0 ==> HalfBy(w, n - 1) != 0)
  }

  /** Fewer bits than `q` has. */
  ghost predicate Shorter(r: bv16, q: bv16)
  {
    exists n: nat :: 0 < n && Significant(q, n) && HalfBy(r, n - 1) == 0
  }

  lemma OneLeft(w: bv16)
    requires Half(w) == 0 && w != 0
    ensures w == 1
  {
  }

  lemma LeadingOne(w: bv16, n: nat)
    requires Significant(w, n) && 0 < n
    ensures HalfBy(w, n - 1) == 1
  {
    hide Half;
    HalfByEnd(w, n - 1);
    OneLeft(HalfBy(w, n - 1));
  }

  lemma {:induction false} SignificantExists(w: bv16, most: nat) returns (n: nat)
    requires HalfBy(w, most) == 0
    ensures Significant(w, n) && n <= most
    decreases most
  {
    hide Half;
    if most > 0 && HalfBy(w, most - 1) == 0 { n := SignificantExists(w, most - 1); } else { n := most; }
  }

  lemma SignificantDouble(w: bv16, n: nat)
    requires Significant(w, n) && 0 < n && !High(w)
    ensures Significant(Double(w), n + 1)
  {
    hide Half, Double, High;
    DoubleFacts(w);
  }

  lemma SignificantXor(b: bv16, a: bv16, n: nat)
    requires Significant(a, n) && 0 < n && HalfBy(b, n - 1) == 0
    ensures Significant(Xor(b, a), n)
  {
    hide Half, Xor;
    HalfByMore(b, n - 1, 1);
    HalfByXor(b, a, n);
    HalfByXor(b, a, n - 1);
    XorZero(HalfBy(a, n - 1));
    XorZero(0);
  }

  /** Degrees add up. */
  lemma {:induction false} ProductBits(d: bv16, q: bv16, j: nat, n: nat, length: nat)
    requires Significant(d, j) && Significant(q, n) && 1 <= j <= length <= 8 && 1 <= n && j + n <= 17
    ensures Significant(Carryless(d, q, length), j + n - 1)
    decreases length
  {
    hide Half, Xor, Double, High, Odd;
    var c := Carryless(Half(d), q, length - 1);
    OddZero();
    XorZero(q);
    if j == 1 {
      OneLeft(d);
      CarrylessZero(q, length - 1);
    } else {
      ProductBits(Half(d), q, j - 1, n, length - 1);
      ShortNotHigh(c, j + n - 2);
      SignificantDouble(c, j + n - 2);
      HalfByMore(q, n, j - 2);
      HalfByZero(j + n - 2);
      SignificantXor(if Odd(d) then q else 0, Double(c), j + n - 1);
    }
  }

  /** Quotient and remainder are unique: a factor divides without remainder. */
  lemma FactorDivides(poly: bv16, k: bv16, k': bv16, q: bv16, r: bv16)
    requires HalfBy(k, 8) == 0 && HalfBy(k', 8) == 0 && HalfBy(q, 8) == 0
    requires Carryless(k, q, 8) == poly && Xor(Carryless(k', q, 8), r) == poly && Shorter(r, q)
    ensures r == 0
  {
    hide Half, Xor, Carryless;
    var d := Xor(k, k');
    HalfByXor(k, k', 8);
    XorZero(0);
    CarrylessXor(k, k', q, 8);
    XorAssoc(Carryless(k', q, 8), r, Carryless(k', q, 8));
    XorComm(r, Carryless(k', q, 8));
    XorAssoc(Carryless(k', q, 8), Carryless(k', q, 8), r);
    XorZero(Carryless(k', q, 8));
    XorZero(r);
    assert Carryless(d, q, 8) == r;
    var n: nat :| 0 < n && Significant(q, n) && HalfBy(r, n - 1) == 0;
    var j := SignificantExists(d, 8);
    if j > 0 {
      var n' := SignificantExists(q, 8);
      SameBits(q, n, n');
      ProductBits(d, q, j, n, 8);
      HalfByMore(r, n - 1, j - 1);
    } else {
      CarrylessZero(q, 8);
    }
  }

  lemma SameBits(w: bv16, m: nat, n: nat)
    requires Significant(w, m) && Significant(w, n)
    ensures m == n
  {
    hide Half;
    if m < n { HalfByMore(w, m, n - 1 - m); }
    if n < m { HalfByMore(w, n, m - 1 - n); }
  }

  // ---- the field's product is a remainder

  /** `r` is what is left of `c` when it is divided by the field's polynomial; `k` is
      the quotient. */
  ghost predicate IsRemainder(p: Params, c: bv16, k: bv16, r: bv16)
  {
    In(p, r) && HalfBy(k, 7) == 0 && c == Xor(Carryless(k, p.poly, 8), r)
  }

  /** Doubling and reducing takes the polynomial off once more if the top overflows. */
  lemma TakenOff(p: Params, y: bv16)
    ensures Double(y) == Xor(if Overflows(p, Double(y)) then p.poly else 0, Times2(p, y))
  {
    hide Xor, Double, Overflows;
    XorZero(Double(y));
    XorZero(p.poly);
    XorComm(Double(y), p.poly);
    XorAssoc(p.poly, p.poly, Double(y));
  }

  lemma HalfOfBit(b: bool)
    ensures Half(Low(b)) == 0 && Odd(Low(b)) == b
  {
  }

  /** One more coefficient of the quotient. */
  lemma NextQuotient(q: bv16, k: bv16, b: bool, n: nat)
    requires !High(k) && 0 < n
    ensures var next := Xor(Double(k), Low(b));
      Half(next) == k && Carryless(next, q, n) == Xor(if b then q else 0, Double(Carryless(k, q, n - 1)))
  {
    hide Xor, Double, Half, Odd, High, Low;
    DoubleFacts(k);
    HalfOfBit(b);
    HalfXor(Double(k), Low(b));
    OddXor(Double(k), Low(b));
    XorZero(k);
  }

  lemma NextRemainder(p: Params, x: bv16, y: bv16, n: nat, c: bv16)
    requires 0 < n && !High(c)
    requires Carryless(Half(x), y, n - 1) == Xor(Carryless(c, p.poly, n - 1), Horner(p, Half(x), y, n - 1))
    ensures var k := Xor(Double(c), Low(Overflows(p, Double(Horner(p, Half(x), y, n - 1)))));
      Half(k) == c && Carryless(x, y, n) == Xor(Carryless(k, p.poly, n), Horner(p, x, y, n))
  {
    hide Xor, Double, Half, Odd, High, Low, Overflows, Times2;
    var zero: bv16 := 0;
    var a, h, e := if Odd(x) then y else zero, Horner(p, Half(x), y, n - 1), Carryless(c, p.poly, n - 1);
    var over := Overflows(p, Double(h));
    var o := if over then p.poly else zero;
    NextQuotient(p.poly, c, over, n);
    DoubleXor(e, h);
    TakenOff(p, h);
    hide Carryless, Horner;
    Regroup(a, Double(e), o, Times2(p, h));
    Unfold(p, x, y, n);
  }

  lemma Unfold(p: Params, x: bv16, y: bv16, n: nat)
    requires 0 < n
    ensures var zero: bv16 := 0; var a := if Odd(x) then y else zero;
      && Carryless(x, y, n) == Xor(a, Double(Carryless(Half(x), y, n - 1)))
      && Horner(p, x, y, n) == Xor(a, Times2(p, Horner(p, Half(x), y, n - 1)))
  {
    hide Xor, Double, Half, Odd, Times2;
  }

  lemma {:induction false} HornerLeaves(p: Params, x: bv16, y: bv16, n: nat) returns (k: bv16)
    requires n <= 8
    ensures HalfBy(k, if n == 0 then 0 else n - 1) == 0
    ensures Carryless(x, y, n) == Xor(Carryless(k, p.poly, n), Horner(p, x, y, n))
    decreases n
  {
    hide Xor, Double, Half, Odd, High, Low, Overflows, Times2;
    XorZero(0);
    k := 0;
    if n > 0 {
      var c := HornerLeaves(p, Half(x), y, n - 1);
      var over := Overflows(p, Double(Horner(p, Half(x), y, n - 1)));
      ShortNotHigh(c, if n == 1 then 0 else n - 2);
      NextRemainder(p, x, y, n, c);
      k := Xor(Double(c), Low(over));
      if n == 1 { FirstQuotient(p, over); }
    }
  }

  lemma FirstQuotient(p: Params, over: bool)
    requires over == Overflows(p, Double(0))
    ensures !over && Xor(Double(0), Low(over)) == 0
  {
    OddZero();
    assert 0 & Order(p.m) == 0;
  }

  lemma Regroup(a: bv16, d: bv16, o: bv16, t: bv16)
    ensures Xor(a, Xor(d, Xor(o, t))) == Xor(Xor(o, d), Xor(a, t))
  {
  }

  /** A quotient other than zero leaves nothing shorter than the polynomial. */
  lemma NoQuotient(p: Params, k: bv16)
    requires Usable(p) && HalfBy(k, 7) == 0 && In(p, Carryless(k, p.poly, 8))
    ensures Carryless(k, p.poly, 8) == 0
  {
    hide Xor, Half, Carryless, Usable, In, Order;
    var c := Carryless(k, p.poly, 8);
    var j := SignificantExists(k, 7);
    if j > 0 {
      PolynomialLength(p);
      ElementLength(p, c);
      ProductBits(k, p.poly, j, p.m + 1, 8);
      HalfByMore(c, p.m, j - 1);
    } else {
      CarrylessZero(p.poly, 8);
    }
  }

  /** The product in the field is the remainder of the product of polynomials by the
      field's own, and nothing else is. */
  lemma ProductIsRemainder(p: Params, x: bv16, y: bv16, r: bv16)
    requires Usable(p) && In(p, x) && In(p, y)
    ensures (exists k :: IsRemainder(p, Carryless(x, y, 8), k, r)) <==> r == Product(p, x, y)
  {
    hide Xor, Half, Horner, Carryless, Usable, In;
    Exhausted(p, x);
    HornerStable(p, x, y, 8, 8);
    ProductIn(p, x, y);
    var z := Product(p, x, y);
    var k := HornerLeaves(p, x, y, 8);
    assert IsRemainder(p, Carryless(x, y, 8), k, z);
    if k' :| IsRemainder(p, Carryless(x, y, 8), k', r) {
      CarrylessXor(k, k', p.poly, 8);
      HalfByXor(k, k', 7);
      XorZero(0);
      Difference(Carryless(k, p.poly, 8), z, Carryless(k', p.poly, 8), r);
      XorIn(p, z, r);
      NoQuotient(p, Xor(k, k'));
      XorEqual(z, r);
    }
  }

  lemma Difference(a: bv16, z: bv16, b: bv16, r: bv16)
    requires Xor(a, z) == Xor(b, r)
    ensures Xor(a, b) == Xor(z, r)
  {
    hide Xor;
    XorSwap(a, z, b, r);
    XorZero(Xor(a, z));
    XorEqual(Xor(a, b), Xor(z, r));
  }

  // ---- the product commutes

  lemma {:induction false} CarrylessXorRight(k: bv16, a: bv16, b: bv16, n: nat)
    ensures Carryless(k, Xor(a, b), n) == Xor(Carryless(k, a, n), Carryless(k, b, n))
    decreases n
  {
    hide Xor, Double, Half, Odd;
    XorZero(0);
    if n > 0 {
      CarrylessXorRight(Half(k), a, b, n - 1);
      var u, v := Carryless(Half(k), a, n - 1), Carryless(Half(k), b, n - 1);
      DoubleXor(u, v);
      var zero: bv16 := 0;
      XorSwap(if Odd(k) then a else zero, Double(u), if Odd(k) then b else zero, Double(v));
    }
  }

  lemma {:induction false} CarrylessDouble(k: bv16, a: bv16, n: nat)
    ensures Carryless(k, Double(a), n) == Double(Carryless(k, a, n))
    decreases n
  {
    hide Xor, Double, Half, Odd;
    OddZero();
    if n > 0 {
      CarrylessDouble(Half(k), a, n - 1);
      var zero: bv16 := 0;
      DoubleXor(if Odd(k) then a else zero, Double(Carryless(Half(k), a, n - 1)));
    }
  }

  lemma {:induction false} CarrylessOne(k: bv16, n: nat)
    requires HalfBy(k, n) == 0
    ensures Carryless(k, 1, n) == k && Carryless(k, 0, n) == 0
    decreases n
  {
    hide Xor, Double, Half, Odd, Low;
    OddZero();
    XorZero(0);
    if n > 0 {
      CarrylessOne(Half(k), n - 1);
      SplitLow(k);
    }
  }

  lemma {:induction false} CarrylessCommutes(k: bv16, q: bv16, n: nat)
    requires HalfBy(k, n) == 0 && HalfBy(q, 8) == 0
    ensures Carryless(k, q, n) == Carryless(q, k, 8)
    decreases n
  {
    hide Xor, Double, Half, Odd, Low;
    OddZero();
    CarrylessOne(q, 8);
    if n > 0 {
      CarrylessCommutes(Half(k), q, n - 1);
      SplitLow(k);
      CarrylessXorRight(q, Low(Odd(k)), Double(Half(k)), 8);
      CarrylessDouble(q, Half(k), 8);
    }
  }

  // ---- the program's search

  /** The number of significant bits. */
  method NBit(p: bv16) returns (n: nat)
    ensures Significant(p, n)
  {
    hide Half;
    n := 0;
    var rest := p;
    ghost var left: nat := 16;
    SixteenHalves(p);
    while rest > 0
      invariant rest == HalfBy(p, n) && (n > 0 ==> HalfBy(p, n - 1) != 0) && HalfBy(rest, left) == 0
      decreases left
    {
      assert left > 0 by { assert rest != 0; }
      HalfByEnd(p, n);
      rest, n, left := Half(rest), n + 1, left - 1;
    }
  }

  lemma SixteenHalves(p: bv16)
    ensures HalfBy(p, 16) == 0
  {
    hide Half;
    var p3 := Half(Half(Half(p)));
    var p6 := Half(Half(Half(p3)));
    var p9 := Half(Half(Half(p6)));
    var p12 := Half(Half(Half(p9)));
    assert HalfBy(p, 16) == HalfBy(Half(p), 15) == HalfBy(Half(Half(p)), 14) == HalfBy(p3, 13);
    assert HalfBy(p3, 13) == HalfBy(Half(p3), 12) == HalfBy(Half(Half(p3)), 11) == HalfBy(p6, 10);
    assert HalfBy(p6, 10) == HalfBy(Half(p6), 9) == HalfBy(Half(Half(p6)), 8) == HalfBy(p9, 7);
    assert HalfBy(p9, 7) == HalfBy(Half(p9), 6) == HalfBy(Half(Half(p9)), 5) == HalfBy(p12, 4);
    assert HalfBy(p12, 4) == HalfBy(Half(p12), 3) == HalfBy(Half(Half(p12)), 2) == HalfBy(Half(Half(Half(p12))), 1);
    assert HalfBy(Half(Half(Half(p12))), 1) == HalfBy(Half(Half(Half(Half(p12)))), 0);
    AllHalves(p);
  }

  lemma AllHalves(p: bv16)
    ensures var p3 := Half(Half(Half(p))); var p6 := Half(Half(Half(p3))); var p9 := Half(Half(Half(p6)));
      var p12 := Half(Half(Half(p9)));
      Half(Half(Half(Half(p12)))) == 0
  {
  }

  lemma HalvedMeets(k: bv16, w: bv16)
    requires SomePower(w)
    ensures Meets(Half(k), w) <==> Meets(k, Double(w))
  {
  }

  lemma MeetsOne(k: bv16)
    ensures Meets(k, 1) <==> Odd(k)
  {
  }

  /** Bit `i` of a word is the low bit after `i` halvings. */
  lemma {:induction false} BitAt(r: bv16, i: nat)
    requires i <= 15
    ensures Meets(r, Pow2(i)) <==> Odd(HalfBy(r, i))
    decreases i
  {
    hide Half, Double, Meets, Odd, Pow2, SomePower;
    if i == 0 {
      FirstPower();
      MeetsOne(r);
    } else {
      SmallPowers(i);
      PowerIs(i - 1);
      BitAt(Half(r), i - 1);
      HalvedMeets(r, Pow2(i - 1));
    }
  }

  lemma OneOrNone(w: bv16)
    requires Half(w) == 0
    ensures w == if Odd(w) then 1 else 0
  {
  }

  /** Halving undoes doubling while nothing is lost at the top. */
  lemma {:induction false} HalfDoubleBy(q: bv16, s: nat, n: nat, bits: nat)
    requires HalfBy(q, bits) == 0 && s + bits <= 15
    ensures HalfBy(DoubleBy(q, s), s + n) == HalfBy(q, n)
    decreases s
  {
    hide Half, Double, High;
    if s > 0 {
      ShortNotHigh(q, bits);
      DoubleFacts(q);
      HalfDoubleBy(Double(q), s - 1, n + 1, bits + 1);
    }
  }

  /** One step of the division clears the leading bit. */
  lemma ClearsLeading(r: bv16, q: bv16, np: nat, nq: nat)
    requires HalfBy(r, np) == 0 && Significant(q, nq) && 0 < nq <= np <= 15
    ensures HalfBy(if Meets(r, Pow2(np - 1)) then Xor(r, DoubleBy(q, np - nq)) else r, np - 1) == 0
  {
    hide Half, Xor, Meets, Pow2, Odd;
    BitAt(r, np - 1);
    HalfByEnd(r, np - 1);
    OneOrNone(HalfBy(r, np - 1));
    HalfDoubleBy(q, np - nq, nq - 1, nq);
    LeadingOne(q, nq);
    HalfByXor(r, DoubleBy(q, np - nq), np - 1);
    XorZero(1);
  }

  lemma HalvedBelow(k: bv16, w: bv16)
    requires SomePower(w)
    ensures Below(Half(k), w) <==> Below(k, Double(w))
  {
  }

  predicate SomePower(w: bv16)
  {
    w == 1 || w == 2 || w == 4 || w == 8 || w == 16 || w == 32 || w == 64 || w == 128 || w == 256 || w == 512 ||
    w == 1024 || w == 2048 || w == 4096 || w == 8192 || w == 16384
  }

  lemma PowerIs(n: nat)
    requires n < 15
    ensures SomePower(Pow2(n))
  {
  }

  lemma BelowOne(k: bv16)
    ensures Below(k, 1) <==> k == 0
  {
  }

  /** A word has at most `n` bits exactly if it is below 2^n. */
  lemma {:induction false} ShortIff(k: bv16, n: nat)
    requires n <= 15
    ensures HalfBy(k, n) == 0 <==> Below(k, Pow2(n))
    decreases n
  {
    hide Half, Double, High, Below, Pow2, SomePower;
    SmallPowers(n);
    if n == 0 {
      FirstPower();
      BelowOne(k);
    } else {
      PowerIs(n - 1);
      ShortIff(Half(k), n - 1);
      HalvedBelow(k, Pow2(n - 1));
    }
  }

  lemma OrderIsPower(m: nat)
    requires 2 <= m <= 8
    ensures Order(m) == Pow2(m) && Double(Order(m)) == Pow2(m + 1)
  {
  }

  /** The field's polynomial has one bit more than the field's degree. */
  lemma PolynomialBits(p: Params, n: nat)
    requires Usable(p) && HalfBy(p.poly, n) == 0 && (n > 0 ==> HalfBy(p.poly, n - 1) != 0)
    ensures n == p.m + 1
  {
    OrderIsPower(p.m);
    PolynomialBelow(p);
    hide Half, Order, Pow2, Below;
    ShortIff(p.poly, p.m);
    ShortIff(p.poly, p.m + 1);
    if n > p.m + 1 { HalfByMore(p.poly, p.m + 1, n - 1 - (p.m + 1)); }
    if n <= p.m { HalfByMore(p.poly, n, p.m - n); }
  }

  lemma PolynomialLength(p: Params)
    requires Usable(p)
    ensures Significant(p.poly, p.m + 1) && p.m <= 8
  {
    OrderIsPower(p.m);
    PolynomialBelow(p);
    hide Half, Order, Pow2, Below;
    ShortIff(p.poly, p.m);
    ShortIff(p.poly, p.m + 1);
  }

  lemma ElementLength(p: Params, c: bv16)
    requires Usable(p) && In(p, c)
    ensures HalfBy(c, p.m) == 0
  {
    OrderIsPower(p.m);
    hide Half, Order, Pow2, Below;
    ShortIff(c, p.m);
  }

  lemma PolynomialBelow(p: Params)
    requires Usable(p)
    ensures Below(p.poly, Double(Order(p.m))) && !Below(p.poly, Order(p.m)) && 2 <= p.m <= 8 && p.poly != 0
  {
    OrderIsBit(p.m);
    hide Order, Below, Double, OneBit;
    ZeroBelow(Order(p.m));
  }

  lemma {:induction false} PowerShort(s: nat, m: nat)
    requires s < m <= 8
    ensures HalfBy(Pow2(s), m) == 0
    decreases s
  {
    hide Half, Pow2;
    if s == 0 {
      FirstPower();
      OddZero();
      HalfByZero(m - 1);
    } else {
      SmallPowers(s);
      PowerShort(s - 1, m - 1);
    }
  }

  /** At least two bits from 2 on. */
  predicate AtLeastTwo(q: bv16)
  {
    2 <= q
  }

  lemma TwoBits(q: bv16, n: nat)
    requires AtLeastTwo(q) && HalfBy(q, n) == 0
    ensures 2 <= n
  {
    assert HalfBy(q, 1) == Half(q);
    HalfPositive(q);
  }

  lemma HalfPositive(q: bv16)
    requires AtLeastTwo(q)
    ensures Half(q) != 0 && q != 0
  {
  }

  /** Polynomial division: `k` is the quotient, and the remainder is shorter than the
      divisor. */
  method PolyDiv(f: Params, q: bv16) returns (r: bv16, ghost k: bv16)
    requires Usable(f) && AtLeastTwo(q)
    ensures Xor(Carryless(k, q, 8), r) == f.poly && HalfBy(k, f.m) == 0 && Shorter(r, q)
  {
    hide Xor, Half, Carryless, Pow2, Meets, DoubleBy, HalfBy, Usable;
    PolynomialBelow(f);
    var np := NBit(f.poly);
    var nq := NBit(q);
    PolynomialBits(f, np);
    TwoBits(q, nq);
    r, k := f.poly, 0;
    CarrylessZero(q, 8);
    XorZero(f.poly);
    HalfByZero(f.m);
    if np < nq { HalfByMore(r, np, nq - 1 - np); }
    while np >= nq
      invariant np <= f.m + 1 && Xor(Carryless(k, q, 8), r) == f.poly && HalfBy(k, f.m) == 0
      invariant HalfBy(r, if np >= nq then np else nq - 1) == 0
      decreases np
    {
      ClearsLeading(r, q, np, nq);
      if Meets(r, Pow2(np - 1)) {
        var s := np - nq;
        ghost var shifted := DoubleBy(q, s);
        PowerValue(s);
        PowerShort(s, f.m);
        CarrylessXor(k, Pow2(s), q, 8);
        CarrylessPower(q, s, 8);
        HalfByXor(k, Pow2(s), f.m);
        XorSwap(Carryless(k, q, 8), shifted, r, shifted);
        XorZero(shifted);
        XorZero(f.poly);
        XorZero(0);
        k := Xor(k, Pow2(s));
        r := Xor(r, DoubleBy(q, s));
      }
      np := np - 1;
    }
  }

  /** `x` is a factor to be found, with cofactor `y`. */
  ghost predicate Divides(f: Params, x: bv16, y: bv16)
  {
    AtLeastTwo(x) && In(f, x) && HalfBy(y, 8) == 0 && Carryless(y, x, 8) == f.poly
  }

  ghost predicate NoneBelow(f: Params, q: bv16)
  {
    forall x, y :: Divides(f, x, y) ==> !Below(x, q)
  }

  /** The program's search: it finds a factor exactly if the polynomial splits. */
  method Reducible(f: Params) returns (found: bool)
    requires Usable(f)
    ensures found <==> exists k, q :: Splits(f, k, q)
  {
    hide Xor, Half, Carryless, Pow2, HalfBy, Order, Usable, Below, Double, AtLeastTwo, Successor, Left, Divides;
    PolynomialBelow(f);
    var np := NBit(f.poly);
    PolynomialBits(f, np);
    OrderIsPower(f.m);
    var bits := np / 2 + 1;
    var q: bv16 := 2;
    FactorBound(bits);
    StartFactors(f);
    while Below(q, Pow2(bits))
      invariant AtLeastTwo(q) && NoneBelow(f, q)
      decreases Left(q, Pow2(bits))
    {
      var r, k := PolyDiv(f, q);
      FactorIn(f, q, bits);
      if r == 0 {
        HalfPositive(q);
        XorZero(Carryless(k, q, 8));
        ShortIff(k, f.m);
        CarrylessZero(q, 8);
        assert Splits(f, k, q);
        return true;
      }
      NotThisOne(f, q, k, r);
      NextFactor(q, Pow2(bits));
      NoneUpTo(f, q, Pow2(bits));
      q := Successor(q);
    }
    found := false;
    NoFactor(f, q, bits);
  }

  lemma FactorIn(f: Params, q: bv16, bits: nat)
    requires bits <= f.m <= 8 && 2 <= f.m && Below(q, Pow2(bits))
    ensures In(f, q)
  {
    OrderIsPower(f.m);
    hide Half, Pow2, Below, Order;
    ShortIff(q, bits);
    HalfByMore(q, bits, f.m - bits);
    ShortIff(q, f.m);
  }

  /** A divisor that leaves a remainder is no factor. */
  lemma NotThisOne(f: Params, q: bv16, k: bv16, r: bv16)
    requires Usable(f) && In(f, q) && Xor(Carryless(k, q, 8), r) == f.poly && HalfBy(k, f.m) == 0 && Shorter(r, q) &&
             r != 0
    ensures forall y :: !Divides(f, q, y)
  {
    hide Xor, Half, Carryless, HalfBy, Usable, In, Shorter, AtLeastTwo;
    PolynomialBelow(f);
    HalfByMore(k, f.m, 8 - f.m);
    Exhausted(f, q);
    forall y ensures !Divides(f, q, y) {
      if Divides(f, q, y) { FactorDivides(f.poly, y, k, q, r); }
    }
  }

  lemma StartFactors(f: Params)
    ensures AtLeastTwo(2) && NoneBelow(f, 2)
  {
    forall x, y | Divides(f, x, y) ensures !Below(x, 2) { NotBelowTwo(x); }
  }

  lemma NotBelowTwo(x: bv16)
    requires AtLeastTwo(x)
    ensures !Below(x, 2)
  {
  }

  lemma NoneUpTo(f: Params, q: bv16, bound: bv16)
    requires bound == 4 || bound == 8 || bound == 16 || bound == 32
    requires Below(q, bound) && NoneBelow(f, q) && forall y :: !Divides(f, q, y)
    ensures NoneBelow(f, Successor(q))
  {
    hide Below, Divides, Successor;
    forall x, y | Divides(f, x, y) ensures !Below(x, Successor(q)) { UpTo(x, q, bound); }
  }

  lemma UpTo(x: bv16, q: bv16, bound: bv16)
    requires bound == 4 || bound == 8 || bound == 16 || bound == 32
    requires Below(q, bound)
    ensures Below(x, Successor(q)) ==> Below(x, q) || x == q
  {
    hide Below, Successor;
    if Below(x, Successor(q)) {
      BelowThirtyTwo(q, bound);
      UpToThirtyTwo(x, q);
    }
  }

  lemma BelowThirtyTwo(q: bv16, bound: bv16)
    requires bound == 4 || bound == 8 || bound == 16 || bound == 32
    requires Below(q, bound)
    ensures Below(q, 32)
  {
    if bound == 4 { assert q < 4; } else if bound == 8 { assert q < 8; } else if bound == 16 { assert q < 16; }
  }

  lemma UpToThirtyTwo(x: bv16, q: bv16)
    requires Below(x, Successor(q)) && Below(q, 32)
    ensures Below(x, q) || x == q
  {
  }

  lemma Outgrown(x: bv16, q: bv16, bound: bv16)
    requires bound == 4 || bound == 8 || bound == 16 || bound == 32
    requires Below(x, bound) && !Below(q, bound)
    ensures Below(x, q)
  {
    hide Below;
    if bound == 4 { Past4(x, q); }
    else if bound == 8 { Past8(x, q); }
    else if bound == 16 { Past16(x, q); }
    else { Past32(x, q); }
  }

  lemma Past4(x: bv16, q: bv16)
    requires Below(x, 4) && !Below(q, 4)
    ensures Below(x, q)
  {
  }

  lemma Past8(x: bv16, q: bv16)
    requires Below(x, 8) && !Below(q, 8)
    ensures Below(x, q)
  {
  }

  lemma Past16(x: bv16, q: bv16)
    requires Below(x, 16) && !Below(q, 16)
    ensures Below(x, q)
  {
  }

  lemma Past32(x: bv16, q: bv16)
    requires Below(x, 32) && !Below(q, 32)
    ensures Below(x, q)
  {
  }

  /** Of two factors one has at most half the bits, so the search has seen it. */
  lemma NoFactor(f: Params, q: bv16, bits: nat)
    requires Usable(f) && bits == (f.m + 1) / 2 + 1 && !Below(q, Pow2(bits)) && NoneBelow(f, q)
    ensures forall k, x :: !Splits(f, k, x)
  {
    hide Half, Carryless, HalfBy, Usable, Below, Pow2, Divides, In, Splits;
    forall k, x ensures !Splits(f, k, x) {
      if Splits(f, k, x) {
        PolynomialBelow(f);
        FactorBound(bits);
        if Below(x, Pow2(bits)) {
          SplitDivides(f, k, x);
          Outgrown(x, q, Pow2(bits));
        } else {
          SmallerFactor(f, k, x, bits);
          SplitsEitherWay(f, k, x);
          SplitDivides(f, x, k);
          Outgrown(k, q, Pow2(bits));
        }
      }
    }
  }

  lemma SplitsEitherWay(f: Params, k: bv16, x: bv16)
    requires Splits(f, k, x)
    ensures Splits(f, x, k)
  {
    hide Carryless, In;
    Exhausted(f, k);
    Exhausted(f, x);
    CarrylessCommutes(k, x, 8);
  }

  lemma SplitDivides(f: Params, k: bv16, x: bv16)
    requires Usable(f) && Splits(f, k, x)
    ensures Divides(f, x, k)
  {
    hide Carryless, Usable, Order;
    Exhausted(f, k);
    PolynomialBelow(f);
    CarrylessOne(k, 8);
    hide Below, HalfBy;
    assert x != 1;
    FromTwoOn(x);
  }

  lemma FromTwoOn(x: bv16)
    requires x != 0 && x != 1
    ensures AtLeastTwo(x)
  {
  }

  lemma SmallerFactor(f: Params, k: bv16, x: bv16, bits: nat)
    requires Usable(f) && Splits(f, k, x) && bits == (f.m + 1) / 2 + 1 && !Below(x, Pow2(bits))
    ensures Below(k, Pow2(bits))
  {
    hide Half, Carryless, HalfBy, Usable, Below, Pow2, In;
    PolynomialBelow(f);
    Exhausted(f, k);
    Exhausted(f, x);
    var j := SignificantExists(k, 8);
    var n := SignificantExists(x, 8);
    NotNone(k, j);
    NotNone(x, n);
    ProductBits(k, x, j, n, 8);
    PolynomialBits(f, j + n - 1);
    ShortIff(x, bits);
    ShortIff(k, bits);
    if n <= bits { HalfByMore(x, n, bits - n); }
    HalfByMore(k, j, bits - j);
  }

  lemma NotNone(w: bv16, n: nat)
    requires w != 0 && Significant(w, n)
    ensures 0 < n
  {
  }

  function Successor(q: bv16): bv16
  {
    q + 1
  }

  function Left(q: bv16, bound: bv16): bv16
  {
    bound - q
  }

  lemma NextFactor(q: bv16, bound: bv16)
    requires bound == 4 || bound == 8 || bound == 16 || bound == 32
    ensures AtLeastTwo(q) && Below(q, bound) ==> AtLeastTwo(Successor(q)) && Left(Successor(q), bound) < Left(q, bound)
  {
  }

  lemma FactorBound(bits: nat)
    requires 2 <= bits <= 5
    ensures var bound := Pow2(bits); bound == 4 || bound == 8 || bound == 16 || bound == 32
  {
  }
}
