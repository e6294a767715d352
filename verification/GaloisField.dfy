/** Arithmetic in GF(2^m): multiplication of polynomials over GF(2) modulo a fixed
    one, its laws, and the exponential and logarithm tables. */
module GaloisField {
  import opened Words

  /** The field's degree and polynomial. */
  datatype Params = Params(m: nat, poly: bv16)

  /** The number of elements. */
  function Order(m: nat): bv16
  {
    match m
    case 2 => 4 case 3 => 8 case 4 => 16 case 5 => 32 case 6 => 64 case 7 => 128 case _ => 256
  }

  /** The number of elements other than zero. */
  function Units(m: nat): (n: nat)
    ensures 3 <= n <= 255
  {
    match m
    case 2 => 3 case 3 => 7 case 4 => 15 case 5 => 31 case 6 => 63 case 7 => 127 case _ => 255
  }

  predicate Below(x: bv16, order: bv16)
  {
    x < order
  }

  predicate Usable(p: Params)
  {
    2 <= p.m <= 8 && !Below(p.poly, Order(p.m)) && Below(p.poly, Double(Order(p.m)))
  }

  predicate In(p: Params, x: bv16)
  {
    Below(x, Order(p.m))
  }

  predicate Meets(x: bv16, bit: bv16)
  {
    x & bit != 0
  }

  predicate Overflows(p: Params, x: bv16)
  {
    Meets(x, Order(p.m))
  }

  /** The product with x. */
  function Times2(p: Params, y: bv16): bv16
  {
    if Overflows(p, Double(y)) then Xor(Double(y), p.poly) else Double(y)
  }

  /** The product of polynomials modulo the field's, by Horner's rule on the lowest
      `n` coefficients of the first. */
  function Horner(p: Params, x: bv16, y: bv16, n: nat): bv16
    decreases n
  {
    if n == 0 then 0 else Xor(if Odd(x) then y else 0, Times2(p, Horner(p, Half(x), y, n - 1)))
  }

  function Product(p: Params, x: bv16, y: bv16): bv16
  {
    Horner(p, x, y, 16)
  }

  // ---- laws of one doubling

  predicate OneBit(b: bv16)
  {
    b == 4 || b == 8 || b == 16 || b == 32 || b == 64 || b == 128 || b == 256
  }

  lemma OrderIsBit(m: nat)
    ensures OneBit(Order(m))
  {
  }

  lemma OverflowXor(p: Params, a: bv16, b: bv16)
    ensures Overflows(p, Xor(a, b)) == (Overflows(p, a) != Overflows(p, b))
  {
    OrderIsBit(p.m);
    hide Xor, Meets, Order, OneBit;
    MeetsXor(a, b, Order(p.m));
  }

  lemma MeetsXor(a: bv16, b: bv16, bit: bv16)
    requires OneBit(bit)
    ensures Meets(Xor(a, b), bit) == (Meets(a, bit) != Meets(b, bit))
  {
  }

  lemma Times2Xor(p: Params, a: bv16, b: bv16)
    ensures Times2(p, Xor(a, b)) == Xor(Times2(p, a), Times2(p, b))
  {
    hide Xor, Double, Overflows;
    DoubleXor(a, b);
    OverflowXor(p, Double(a), Double(b));
    XorSwap(Double(a), if Overflows(p, Double(a)) then p.poly else 0,
            Double(b), if Overflows(p, Double(b)) then p.poly else 0);
    XorZero(p.poly);
    XorZero(0);
    XorZero(Double(a));
    XorZero(Double(b));
    XorZero(Double(Xor(a, b)));
  }

  lemma Times2In(p: Params, y: bv16)
    requires Usable(p) && In(p, y)
    ensures In(p, Times2(p, y))
  {
    OrderIsBit(p.m);
    hide Order, OneBit, Xor, Double, Meets;
    Reduced(y, Order(p.m), p.poly);
  }

  lemma Reduced(y: bv16, order: bv16, poly: bv16)
    requires OneBit(order) && Below(y, order) && !Below(poly, order) && Below(poly, Double(order))
    ensures Below(if Meets(Double(y), order) then Xor(Double(y), poly) else Double(y), order)
  {
  }

  lemma XorIn(p: Params, a: bv16, b: bv16)
    requires In(p, a) && In(p, b)
    ensures In(p, Xor(a, b))
  {
    OrderIsBit(p.m);
    hide Order, OneBit, Xor, Below;
    XorBelow(a, b, Order(p.m));
  }

  lemma XorBelow(a: bv16, b: bv16, order: bv16)
    requires OneBit(order) && Below(a, order) && Below(b, order)
    ensures Below(Xor(a, b), order)
  {
  }

  /** Halving and doubling an element needs no reduction. */
  lemma HalfIn(p: Params, x: bv16)
    requires In(p, x)
    ensures In(p, Half(x)) && Times2(p, Half(x)) == Double(Half(x)) && In(p, 0) && In(p, 1) && In(p, Low(Odd(x))) &&
            !High(x)
  {
    OrderIsBit(p.m);
    hide Order, OneBit, Xor, Double, Meets, Half, Low, Odd, High;
    HalfBelow(x, Order(p.m));
    LowBelow(Odd(x), Order(p.m));
  }

  lemma HalfBelow(x: bv16, order: bv16)
    requires OneBit(order) && x < order
    ensures Half(x) < order && !Meets(Double(Half(x)), order) && 0 < order && 1 < order && !High(x)
  {
  }

  lemma LowBelow(b: bool, order: bv16)
    requires OneBit(order)
    ensures Low(b) < order
  {
  }

  lemma {:induction false} HornerIn(p: Params, x: bv16, y: bv16, n: nat)
    requires Usable(p) && In(p, y)
    ensures In(p, Horner(p, x, y, n))
    decreases n
  {
    hide Xor, Half, Odd, Times2, In, Usable;
    OneIn(p);
    if n > 0 {
      HornerIn(p, Half(x), y, n - 1);
      Times2In(p, Horner(p, Half(x), y, n - 1));
      XorIn(p, if Odd(x) then y else 0, Times2(p, Horner(p, Half(x), y, n - 1)));
    }
  }

  lemma OneIn(p: Params)
    ensures In(p, 1) && In(p, 0)
  {
  }

  // ---- laws of the product

  lemma Times2Zero(p: Params)
    ensures Times2(p, 0) == 0
  {
    OddZero();
    assert 0 & Order(p.m) == 0;
  }

  lemma {:induction false} HornerZero(p: Params, y: bv16, n: nat)
    ensures Horner(p, 0, y, n) == 0
    decreases n
  {
    hide Xor, Half, Odd, Times2;
    if n > 0 {
      HornerZero(p, y, n - 1);
      OddZero();
      Times2Zero(p);
      XorZero(0);
    }
  }

  /** Linear in the second factor. */
  lemma {:induction false} HornerXor(p: Params, x: bv16, a: bv16, b: bv16, n: nat)
    ensures Horner(p, x, Xor(a, b), n) == Xor(Horner(p, x, a, n), Horner(p, x, b, n))
    decreases n
  {
    hide Xor, Half, Odd, Times2, Usable;
    XorZero(0);
    if n > 0 {
      HornerXor(p, Half(x), a, b, n - 1);
      var u, v := Horner(p, Half(x), a, n - 1), Horner(p, Half(x), b, n - 1);
      Times2Xor(p, u, v);
      var zero: bv16 := 0;
      XorSwap(if Odd(x) then a else zero, Times2(p, u), if Odd(x) then b else zero, Times2(p, v));
    }
  }

  /** Doubling the second factor doubles the product. */
  lemma {:induction false} HornerTimes2(p: Params, x: bv16, y: bv16, n: nat)
    ensures Horner(p, x, Times2(p, y), n) == Times2(p, Horner(p, x, y, n))
    decreases n
  {
    hide Xor, Half, Odd, Times2;
    Times2Zero(p);
    if n > 0 {
      HornerTimes2(p, Half(x), y, n - 1);
      Times2Xor(p, if Odd(x) then y else 0, Times2(p, Horner(p, Half(x), y, n - 1)));
    }
  }

  lemma {:induction false} HornerOne(p: Params, x: bv16, n: nat)
    requires In(p, x) && HalfBy(x, n) == 0
    ensures Horner(p, x, 1, n) == x
    decreases n
  {
    hide Xor, Half, Odd, Times2, Double, Low, In;
    if n > 0 {
      HalfIn(p, x);
      HornerOne(p, Half(x), n - 1);
      SplitLow(x);
      OddZero();
    }
  }

  lemma {:induction false} HornerStable(p: Params, x: bv16, y: bv16, n: nat, k: nat)
    requires HalfBy(x, n) == 0
    ensures Horner(p, x, y, n + k) == Horner(p, x, y, n)
    decreases n
  {
    hide Xor, Half, Odd, Times2;
    if n == 0 { HornerZero(p, y, k); } else { HornerStable(p, Half(x), y, n - 1, k); }
  }

  /** An element has at most eight coefficients. */
  lemma Exhausted(p: Params, x: bv16)
    requires In(p, x)
    ensures HalfBy(x, 8) == 0
  {
    var h3 := Half(Half(Half(x)));
    var h6 := Half(Half(Half(h3)));
    OrderIsBit(p.m);
    hide Order;
    EightHalves(x, Order(p.m));
    hide Half, OneBit, Below;
    assert HalfBy(x, 8) == HalfBy(Half(x), 7) == HalfBy(Half(Half(x)), 6) == HalfBy(h3, 5);
    assert HalfBy(h3, 5) == HalfBy(Half(h3), 4) == HalfBy(Half(Half(h3)), 3) == HalfBy(h6, 2);
    assert HalfBy(h6, 2) == HalfBy(Half(h6), 1) == HalfBy(Half(Half(h6)), 0);
  }

  lemma EightHalves(x: bv16, order: bv16)
    requires OneBit(order) && Below(x, order)
    ensures var h3 := Half(Half(Half(x))); var h6 := Half(Half(Half(h3))); Half(Half(h6)) == 0
  {
  }

  lemma ProductIn(p: Params, x: bv16, y: bv16)
    requires Usable(p) && In(p, y)
    ensures In(p, Product(p, x, y))
  {
    HornerIn(p, x, y, 16);
  }

  /** The product by the first factor's lowest coefficient. */
  lemma ProductStep(p: Params, x: bv16, y: bv16)
    requires In(p, x)
    ensures Product(p, x, y) == Xor(if Odd(x) then y else 0, Times2(p, Product(p, Half(x), y)))
  {
    hide Xor, Half, Odd, Times2, In;
    Exhausted(p, x);
    HalfByMore(x, 8, 8);
    HornerStable(p, Half(x), y, 15, 1);
  }

  lemma ProductXor(p: Params, x: bv16, a: bv16, b: bv16)
    ensures Product(p, x, Xor(a, b)) == Xor(Product(p, x, a), Product(p, x, b))
  {
    HornerXor(p, x, a, b, 16);
  }

  lemma ProductTimes2(p: Params, x: bv16, y: bv16)
    ensures Product(p, x, Times2(p, y)) == Times2(p, Product(p, x, y))
  {
    HornerTimes2(p, x, y, 16);
  }

  lemma ProductOne(p: Params, x: bv16)
    requires In(p, x)
    ensures Product(p, x, 1) == x
  {
    Exhausted(p, x);
    HalfByMore(x, 8, 8);
    HornerOne(p, x, 16);
  }

  lemma ProductZero(p: Params, x: bv16)
    ensures Product(p, x, 0) == 0 && Product(p, 0, x) == 0
  {
    hide Horner, Xor;
    HornerZero(p, x, 16);
    HornerXor(p, x, 0, 0, 16);
    XorZero(0);
    XorZero(Product(p, x, 0));
  }

  lemma {:induction false} CommutesFor(p: Params, x: bv16, y: bv16, n: nat)
    requires In(p, x) && In(p, y) && HalfBy(x, n) == 0
    ensures Product(p, x, y) == Product(p, y, x)
    decreases n
  {
    hide Product, Xor, Half, Odd, Low, Double, Times2, In;
    ProductZero(p, y);
    if n > 0 {
      HalfIn(p, x);
      CommutesFor(p, Half(x), y, n - 1);
      ProductStep(p, x, y);
      SplitLow(x);
      ProductXor(p, y, Low(Odd(x)), Double(Half(x)));
      ProductTimes2(p, y, Half(x));
      OddZero();
      ProductOne(p, y);
    }
  }

  /** The product commutes. */
  lemma Commutes(p: Params, x: bv16, y: bv16)
    requires In(p, x) && In(p, y)
    ensures Product(p, x, y) == Product(p, y, x)
  {
    Exhausted(p, x);
    CommutesFor(p, x, y, 8);
  }

  lemma ProductTimes2Left(p: Params, x: bv16, y: bv16)
    requires Usable(p) && In(p, x) && In(p, y)
    ensures Product(p, Times2(p, x), y) == Times2(p, Product(p, x, y))
  {
    hide Product, Times2, In;
    Times2In(p, x);
    Commutes(p, Times2(p, x), y);
    ProductTimes2(p, y, x);
    Commutes(p, x, y);
  }

  lemma ProductXorLeft(p: Params, a: bv16, b: bv16, y: bv16)
    requires In(p, a) && In(p, b) && In(p, y)
    ensures Product(p, Xor(a, b), y) == Xor(Product(p, a, y), Product(p, b, y))
  {
    hide Product, Xor, In;
    XorIn(p, a, b);
    Commutes(p, Xor(a, b), y);
    ProductXor(p, y, a, b);
    Commutes(p, a, y);
    Commutes(p, b, y);
  }

  lemma {:induction false} AssociatesFor(p: Params, x: bv16, y: bv16, z: bv16, n: nat)
    requires Usable(p) && In(p, x) && In(p, y) && In(p, z) && HalfBy(x, n) == 0
    ensures Product(p, Product(p, x, y), z) == Product(p, x, Product(p, y, z))
    decreases n
  {
    hide Product, Xor, Half, Odd, Low, Double, Times2, In, Usable;
    ProductZero(p, y);
    ProductZero(p, z);
    ProductZero(p, Product(p, y, z));
    if n > 0 {
      HalfIn(p, x);
      var h := Product(p, Half(x), y);
      AssociatesFor(p, Half(x), y, z, n - 1);
      ProductStep(p, x, y);
      ProductStep(p, x, Product(p, y, z));
      ProductIn(p, Half(x), y);
      Times2In(p, h);
      ProductXorLeft(p, if Odd(x) then y else 0, Times2(p, h), z);
      ProductTimes2Left(p, h, z);
    }
  }

  /** The product associates. */
  lemma Associates(p: Params, x: bv16, y: bv16, z: bv16)
    requires Usable(p) && In(p, x) && In(p, y) && In(p, z)
    ensures Product(p, Product(p, x, y), z) == Product(p, x, Product(p, y, z))
  {
    Exhausted(p, x);
    AssociatesFor(p, x, y, z, 8);
  }

  // ---- the multiplication loop

  /** The program's multiplication: it doubles one factor while it halves the other. */
  method Mul(p: Params, a: bv16, b: bv16) returns (z: bv16)
    requires Usable(p) && In(p, a) && In(p, b)
    ensures z == Product(p, a, b)
  {
    hide Xor, Half, Odd, Times2, Double, In, Usable, Overflows;
    var x, y := a, b;
    z := 0;
    ghost var n: nat := 16;
    Exhausted(p, a);
    HalfByMore(a, 8, 8);
    XorZero(Horner(p, x, y, n));
    while x > 0
      invariant Xor(z, Horner(p, x, y, n)) == Product(p, a, b)
      invariant HalfBy(x, n) == 0
      decreases n
    {
      assert n > 0 by { assert x != 0; }
      ghost var rest := Horner(p, Half(x), y, n - 1);
      HornerTimes2(p, Half(x), y, n - 1);
      XorAssoc(z, if Odd(x) then y else 0, Times2(p, rest));
      XorZero(z);
      if Odd(x) { z := Xor(z, y); }
      x, n := Half(x), n - 1;
      y := DoubleReduced(p, y);
    }
    HornerZero(p, y, n);
    XorZero(z);
  }

  method DoubleReduced(p: Params, y: bv16) returns (r: bv16)
    ensures r == Times2(p, y)
  {
    hide Double, Xor, Meets, Order;
    r := Double(y);
    if Meets(r, Order(p.m)) { r := Xor(r, p.poly); }
  }
}
