/** Sixteen-bit words as polynomials over GF(2).  The operations are named so that
    proofs can use their laws without looking at bits. */
module Words {

  function Xor(a: bv16, b: bv16): bv16 { a ^ b }
  function Double(a: bv16): bv16 { a << 1 }
  function Half(a: bv16): bv16 { a >> 1 }
  predicate High(a: bv16) { a & 0x8000 != 0 }
  predicate Odd(a: bv16) { a & 1 != 0 }
  function Top(b: bool): bv16 { if b then 0x8000 else 0 }
  function Low(b: bool): bv16 { if b then 1 else 0 }

  lemma XorComm(a: bv16, b: bv16)
    ensures Xor(a, b) == Xor(b, a)
  {
  }

  lemma XorAssoc(a: bv16, b: bv16, c: bv16)
    ensures Xor(Xor(a, b), c) == Xor(a, Xor(b, c))
  {
  }

  lemma XorZero(a: bv16)
    ensures Xor(a, 0) == a && Xor(0, a) == a && Xor(a, a) == 0
  {
  }

  lemma XorEqual(a: bv16, b: bv16)
    requires Xor(a, b) == 0
    ensures a == b
  {
  }

  /** Sums of pairs may be taken in either order. */
  lemma XorSwap(a: bv16, b: bv16, c: bv16, d: bv16)
    ensures Xor(Xor(a, b), Xor(c, d)) == Xor(Xor(a, c), Xor(b, d))
  {
    hide Xor;
    XorAssoc(a, b, Xor(c, d));
    XorAssoc(b, c, d);
    XorComm(b, c);
    XorAssoc(c, b, d);
    XorAssoc(a, c, Xor(b, d));
  }

  lemma DoubleXor(a: bv16, b: bv16)
    ensures Double(Xor(a, b)) == Xor(Double(a), Double(b))
  {
  }

  lemma HalfXor(a: bv16, b: bv16)
    ensures Half(Xor(a, b)) == Xor(Half(a), Half(b))
  {
  }

  lemma HighXor(a: bv16, b: bv16)
    ensures High(Xor(a, b)) == (High(a) != High(b))
  {
  }

  lemma OddXor(a: bv16, b: bv16)
    ensures Odd(Xor(a, b)) == (Odd(a) != Odd(b))
  {
  }

  lemma TopFacts(b: bool)
    ensures High(Top(b)) == b && Double(Top(b)) == 0 && !High(Half(Top(b)))
  {
  }

  lemma HalfLow(a: bv16)
    ensures !High(Half(a)) && (!Odd(a) ==> Double(Half(a)) == a)
  {
  }

  lemma TopIs(a: bv16)
    ensures Top(High(a)) == a & 0x8000
  {
  }

  lemma LowIs(a: bv16)
    ensures Low(Odd(a)) == a & 1
  {
  }

  /** A word is its top bit and the rest. */
  lemma SplitTop(a: bv16)
    ensures Xor(Top(High(a)), Half(Double(a))) == a
  {
    TopIs(a);
    hide Top, High;
  }

  /** A word is its low bit and the rest. */
  lemma SplitLow(a: bv16)
    ensures Xor(Low(Odd(a)), Double(Half(a))) == a
  {
    LowIs(a);
    hide Low, Odd;
  }

  lemma DoubleFacts(a: bv16)
    ensures !Odd(Double(a)) && (!High(a) ==> Half(Double(a)) == a)
    ensures Double(a) == 0 && !High(a) ==> a == 0
  {
  }

  function HalfBy(a: bv16, n: nat): bv16
    decreases n
  {
    if n == 0 then a else HalfBy(Half(a), n - 1)
  }

  function DoubleBy(a: bv16, n: nat): bv16
    decreases n
  {
    if n == 0 then a else DoubleBy(Double(a), n - 1)
  }

  lemma OddZero()
    ensures !Odd(0) && Double(0) == 0 && Half(0) == 0 && !High(0) && Odd(1) && Half(1) == 0 && Low(true) == 1 &&
            Low(false) == 0
  {
  }

  lemma {:induction false} HalfByEnd(a: bv16, n: nat)
    ensures HalfBy(a, n + 1) == Half(HalfBy(a, n))
    decreases n
  {
    hide Half;
    if n > 0 { HalfByEnd(Half(a), n - 1); }
  }

  lemma {:induction false} DoubleByConcat(w: bv16, m: nat, n: nat)
    ensures DoubleBy(w, m + n) == DoubleBy(DoubleBy(w, m), n)
    decreases m
  {
    hide Double;
    if m > 0 { DoubleByConcat(Double(w), m - 1, n); }
  }

  lemma {:induction false} HalfByMore(x: bv16, n: nat, k: nat)
    requires HalfBy(x, n) == 0
    ensures HalfBy(x, n + k) == 0
    decreases n
  {
    hide Half;
    if n == 0 { HalfByZero(k); } else { HalfByMore(Half(x), n - 1, k); }
  }

  lemma {:induction false} HalfByZero(n: nat)
    ensures HalfBy(0, n) == 0
  {
    OddZero();
    hide Half;
    if n > 0 { HalfByZero(n - 1); }
  }
}
