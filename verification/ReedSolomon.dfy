/** Reed-Solomon syndromes and what passing them says: two messages that pass `t`
    consecutive syndromes and differ in at most `t` places are the same. */
module ReedSolomon {
  import opened Words
  import opened GaloisField
  import opened FieldTables

  ghost predicate Elements(p: Params, s: seq<bv16>)
  {
    forall i :: 0 <= i < |s| ==> In(p, s[i])
  }

  /** The message as a polynomial, first symbol first, evaluated at `x`. */
  function Value(p: Params, message: seq<bv16>, x: bv16): bv16
  {
    if message == [] then 0
    else
      var n := |message| - 1;
      Xor(Product(p, Value(p, message[..n], x), x), message[n])
  }

  lemma {:induction false} ValueIn(p: Params, message: seq<bv16>, x: bv16)
    requires Usable(p) && Elements(p, message) && In(p, x)
    ensures In(p, Value(p, message, x))
    decreases |message|
  {
    hide Product, In, Usable, Xor;
    OneIn(p);
    if message != [] {
      var n := |message| - 1;
      ValueIn(p, message[..n], x);
      ProductIn(p, Value(p, message[..n], x), x);
      XorIn(p, Product(p, Value(p, message[..n], x), x), message[n]);
    }
  }

  /** The `j`th syndrome of a message, for syndromes that start at exponent `b`. */
  function SyndromeAt(p: Params, a: bv16, message: seq<bv16>, b: nat, j: nat): bv16
  {
    Value(p, message, Power(p, a, b + j))
  }

  /** The first `t` syndromes are zero. */
  ghost predicate Passes(p: Params, a: bv16, message: seq<bv16>, b: nat, t: nat)
  {
    forall j: nat :: j < t ==> SyndromeAt(p, a, message, b, j) == 0
  }

  datatype Syndromes = Ok(values: seq<bv16>) | InvalidOffset | InvalidParity

  /** The program's syndromes: the message's values at consecutive powers of the
      generator; an error for an offset or count out of range. */
  method Syndrome(f: Field, message: seq<bv16>, count: int, offset: int) returns (r: Syndromes)
    requires f.Valid() && Elements(f.p, message)
    ensures r.InvalidOffset? <==> offset < 0 || offset > Units(f.p.m)
    ensures r.InvalidParity? <==> 0 <= offset <= Units(f.p.m) && (count < 0 || count > |message|)
    ensures r.Ok? ==> |r.values| == count
    ensures r.Ok? ==> forall k: nat :: k < count ==> r.values[k] == SyndromeAt(f.p, f.generator, message, offset, k)
  {
    hide Power, Units, Generates, Product, Value, In, Doubled, Index;
    if offset < 0 || offset > Units(f.p.m) { return InvalidOffset; }
    if count < 0 || count > |message| { return InvalidParity; }
    var values: seq<bv16> := [];
    for k := 0 to count
      invariant |values| == k
      invariant forall j: nat :: j < k ==> values[j] == SyndromeAt(f.p, f.generator, message, offset, j)
    {
      var syn := Evaluate(f, message, offset + k);
      values := values + [syn];
    }
    r := Ok(values);
  }

  method Evaluate(f: Field, message: seq<bv16>, e: nat) returns (syn: bv16)
    requires f.Valid() && Elements(f.p, message) && message != []
    ensures syn == Value(f.p, message, Power(f.p, f.generator, e))
  {
    hide Power, Units, Generates, Product, In, Doubled, Index, Xor;
    GeneratesIn(f.p, f.generator);
    syn := message[0];
    ghost var x := Power(f.p, f.generator, e);
    FirstValue(f.p, message[0], x);
    assert message[..1] == [message[0]];
    for i := 1 to |message|
      invariant syn == Value(f.p, message[..i], x) && In(f.p, syn)
    {
      assert message[..i + 1][..i] == message[..i];
      var y := f.Exp(e);
      var z := f.Mul(syn, y);
      syn := Xor(z, message[i]);
      XorIn(f.p, z, message[i]);
    }
    assert message[..|message|] == message;
  }

  lemma FirstValue(p: Params, v: bv16, x: bv16)
    ensures Value(p, [v], x) == v
  {
    hide Product, Xor;
    assert [v][..0] == [];
    ProductZero(p, x);
    XorZero(v);
  }

  // ---- sums over positions

  function Sum(s: seq<bv16>): bv16
  {
    if s == [] then 0 else Xor(Sum(s[..|s| - 1]), s[|s| - 1])
  }

  /** The number of nonzero entries. */
  function Weight(s: seq<bv16>): nat
  {
    if s == [] then 0 else Weight(s[..|s| - 1]) + if s[|s| - 1] != 0 then 1 else 0
  }

  lemma {:induction false} SumXor(a: seq<bv16>, b: seq<bv16>, c: seq<bv16>)
    requires |a| == |b| == |c| && forall i :: 0 <= i < |a| ==> c[i] == Xor(a[i], b[i])
    ensures Sum(c) == Xor(Sum(a), Sum(b))
    decreases |a|
  {
    hide Xor;
    XorZero(0);
    if a != [] {
      var n := |a| - 1;
      SumXor(a[..n], b[..n], c[..n]);
      XorSwap(Sum(a[..n]), Sum(b[..n]), a[n], b[n]);
    }
  }

  lemma {:induction false} SumIn(p: Params, s: seq<bv16>)
    requires Elements(p, s)
    ensures In(p, Sum(s))
    decreases |s|
  {
    hide Xor, In;
    OneIn(p);
    if s != [] {
      SumIn(p, s[..|s| - 1]);
      XorIn(p, Sum(s[..|s| - 1]), s[|s| - 1]);
    }
  }

  lemma {:induction false} SumTimes(p: Params, a: seq<bv16>, y: bv16, c: seq<bv16>)
    requires Usable(p) && Elements(p, a) && In(p, y)
    requires |a| == |c| && forall i :: 0 <= i < |a| ==> c[i] == Product(p, a[i], y)
    ensures Sum(c) == Product(p, Sum(a), y)
    decreases |a|
  {
    hide Xor, Product, In, Usable;
    ProductZero(p, y);
    if a != [] {
      var n := |a| - 1;
      SumTimes(p, a[..n], y, c[..n]);
      SumIn(p, a[..n]);
      ProductXorLeft(p, Sum(a[..n]), a[n], y);
    }
  }

  lemma {:induction false} SumOfZeros(s: seq<bv16>)
    requires forall i :: 0 <= i < |s| ==> s[i] == 0
    ensures Sum(s) == 0
    decreases |s|
  {
    hide Xor;
    XorZero(0);
    if s != [] { SumOfZeros(s[..|s| - 1]); }
  }

  lemma {:induction false} SumOfOne(s: seq<bv16>, q: nat)
    requires q < |s| && forall i :: 0 <= i < |s| && i != q ==> s[i] == 0
    ensures Sum(s) == s[q]
    decreases |s|
  {
    hide Xor;
    var n := |s| - 1;
    XorZero(s[q]);
    if q < n { SumOfOne(s[..n], q); } else { SumOfZeros(s[..n]); }
  }

  lemma {:induction false} NoWeight(s: seq<bv16>)
    requires Weight(s) == 0
    ensures forall i :: 0 <= i < |s| ==> s[i] == 0
    decreases |s|
  {
    if s != [] {
      var n := |s| - 1;
      NoWeight(s[..n]);
      forall i | 0 <= i < |s| ensures s[i] == 0 { if i < n { assert s[..n][i] == s[i]; } }
    }
  }

  lemma {:induction false} WeightAtMost(a: seq<bv16>, b: seq<bv16>)
    requires |a| == |b| && forall i :: 0 <= i < |a| && b[i] != 0 ==> a[i] != 0
    ensures Weight(b) <= Weight(a)
    decreases |a|
  {
    if a != [] {
      var n := |a| - 1;
      WeightAtMost(a[..n], b[..n]);
    }
  }

  lemma {:induction false} WeightLess(a: seq<bv16>, b: seq<bv16>, q: nat)
    requires |a| == |b| && q < |a| && a[q] != 0 && b[q] == 0 && forall i :: 0 <= i < |a| && b[i] != 0 ==> a[i] != 0
    ensures Weight(b) < Weight(a)
    decreases |a|
  {
    var n := |a| - 1;
    if q < n { WeightLess(a[..n], b[..n], q); } else { WeightAtMost(a[..n], b[..n]); }
  }

  // ---- elimination

  /** The errors `es` at the places `xs`, as the `j`th syndrome sees them. */
  function Seen(p: Params, es: seq<bv16>, xs: seq<bv16>, j: nat): (r: seq<bv16>)
    requires |es| == |xs|
    ensures |r| == |es|
  {
    seq(|es|, i requires 0 <= i < |es| => Product(p, es[i], Power(p, xs[i], j)))
  }

  function Eliminated(p: Params, es: seq<bv16>, xs: seq<bv16>, q: nat): (r: seq<bv16>)
    requires |es| == |xs| && q < |es|
    ensures |r| == |es|
  {
    seq(|es|, i requires 0 <= i < |es| => Product(p, es[i], Xor(xs[i], xs[q])))
  }

  lemma SeenStep(p: Params, e: bv16, x: bv16, y: bv16, j: nat)
    requires Usable(p) && In(p, e) && In(p, x) && In(p, y)
    ensures Product(p, Product(p, e, Xor(x, y)), Power(p, x, j)) ==
            Xor(Product(p, e, Power(p, x, j + 1)), Product(p, Product(p, e, Power(p, x, j)), y))
  {
    hide Xor, Product, Power, In, Usable;
    var w := Power(p, x, j);
    PowerIn(p, x, j);
    PowerNext(p, x, j);
    XorIn(p, x, y);
    Associates(p, e, Xor(x, y), w);
    Commutes(p, Xor(x, y), w);
    ProductXor(p, w, x, y);
    ProductIn(p, w, x);
    ProductIn(p, w, y);
    ProductXor(p, e, Product(p, w, x), Product(p, w, y));
    Associates(p, e, w, y);
  }

  /** Eliminating one place uses up one syndrome. */
  lemma EliminatedSeen(p: Params, es: seq<bv16>, xs: seq<bv16>, q: nat, j: nat)
    requires Usable(p) && Elements(p, es) && Elements(p, xs) && |es| == |xs| && q < |es|
    ensures Sum(Seen(p, Eliminated(p, es, xs, q), xs, j)) ==
            Xor(Sum(Seen(p, es, xs, j + 1)), Product(p, Sum(Seen(p, es, xs, j)), xs[q]))
  {
    hide Xor, Product, Power, In, Usable, Sum;
    var a, b, c := Seen(p, es, xs, j + 1), Seen(p, es, xs, j), Seen(p, Eliminated(p, es, xs, q), xs, j);
    var d := seq(|es|, i requires 0 <= i < |es| => Product(p, b[i], xs[q]));
    forall i | 0 <= i < |es| ensures c[i] == Xor(a[i], d[i]) && In(p, b[i]) {
      SeenStep(p, es[i], xs[i], xs[q], j);
      PowerIn(p, xs[i], j);
      ProductIn(p, es[i], Power(p, xs[i], j));
    }
    SumTimes(p, b, xs[q], d);
    SumXor(a, d, c);
  }

  ghost predicate Distinct(xs: seq<bv16>)
  {
    forall i, j :: 0 <= i < j < |xs| ==> xs[i] != xs[j]
  }

  /** No nonzero error in at most `t` distinct places escapes `t` syndromes. */
  lemma {:induction false} NothingEscapes(p: Params, a: bv16, es: seq<bv16>, xs: seq<bv16>, t: nat)
    requires Generates(p, a) && Elements(p, es) && Elements(p, xs) && |es| == |xs| && Distinct(xs)
    requires Weight(es) <= t && forall j: nat :: j < t ==> Sum(Seen(p, es, xs, j)) == 0
    ensures forall i :: 0 <= i < |es| ==> es[i] == 0
    decreases t
  {
    hide Xor, Product, Power, In, Generates, Usable, Sum, Weight;
    if q :| 0 <= q < |es| && es[q] != 0 {
      GeneratesIn(p, a);
      WeightPositive(es, q);
      var e' := Eliminated(p, es, xs, q);
      EliminatedFacts(p, a, es, xs, q);
      forall j: nat | j < t - 1 ensures Sum(Seen(p, e', xs, j)) == 0 {
        EliminatedSeen(p, es, xs, q, j);
        ProductZero(p, xs[q]);
        XorZero(0);
      }
      NothingEscapes(p, a, e', xs, t - 1);
      SumOfOne(es, q);
      SeenAtZero(p, es, xs);
      assert false;
    }
  }

  lemma WeightPositive(es: seq<bv16>, q: nat)
    requires q < |es| && es[q] != 0
    ensures Weight(es) > 0
  {
    if Weight(es) == 0 { NoWeight(es); }
  }

  lemma SeenAtZero(p: Params, es: seq<bv16>, xs: seq<bv16>)
    requires Elements(p, es) && |es| == |xs|
    ensures Seen(p, es, xs, 0) == es
  {
    hide Product, In;
    forall i | 0 <= i < |es| ensures Seen(p, es, xs, 0)[i] == es[i] { ProductOne(p, es[i]); }
  }

  lemma EliminatedFacts(p: Params, a: bv16, es: seq<bv16>, xs: seq<bv16>, q: nat)
    requires Generates(p, a) && Elements(p, es) && Elements(p, xs) && |es| == |xs| && Distinct(xs) && q < |es| &&
             es[q] != 0
    ensures var e' := Eliminated(p, es, xs, q);
      && Elements(p, e') && Weight(e') < Weight(es) &&
         (forall i :: 0 <= i < |es| && i != q && e'[i] == 0 ==> es[i] == 0)
  {
    hide Xor, Product, In, Generates, Usable, Weight;
    GeneratesIn(p, a);
    var e' := Eliminated(p, es, xs, q);
    forall i | 0 <= i < |es|
      ensures In(p, e'[i]) && (e'[i] != 0 ==> es[i] != 0) && (i == q ==> e'[i] == 0) &&
              (i != q && e'[i] == 0 ==> es[i] == 0)
    {
      XorIn(p, xs[i], xs[q]);
      ProductIn(p, es[i], Xor(xs[i], xs[q]));
      ProductZero(p, es[i]);
      ProductZero(p, Xor(xs[i], xs[q]));
      XorZero(xs[q]);
      if i != q {
        if Xor(xs[i], xs[q]) == 0 { XorEqual(xs[i], xs[q]); }
        if es[i] != 0 { NoZeroDivisors(p, a, es[i], Xor(xs[i], xs[q])); }
      }
    }
    WeightLess(es, e', q);
  }

  // ---- from syndromes to sums

  /** The message's terms at `x`: the last symbol is the constant term. */
  function Terms(p: Params, message: seq<bv16>, x: bv16): (r: seq<bv16>)
    ensures |r| == |message|
  {
    seq(|message|, i requires 0 <= i < |message| => Product(p, message[i], Power(p, x, |message| - 1 - i)))
  }

  /** Horner's rule adds up the terms. */
  lemma {:induction false} ValueIsSum(p: Params, message: seq<bv16>, x: bv16)
    requires Usable(p) && Elements(p, message) && In(p, x)
    ensures Value(p, message, x) == Sum(Terms(p, message, x))
    decreases |message|
  {
    hide Product, In, Usable, Xor, Power;
    if message != [] {
      var n := |message| - 1;
      ValueIsSum(p, message[..n], x);
      var before, now := Terms(p, message[..n], x), Terms(p, message, x);
      forall i | 0 <= i < n ensures now[..n][i] == Product(p, before[i], x) && In(p, before[i]) {
        PowerIn(p, x, n - 1 - i);
        PowerNext(p, x, n - 1 - i);
        Associates(p, message[i], Power(p, x, n - 1 - i), x);
        ProductIn(p, message[i], Power(p, x, n - 1 - i));
      }
      SumTimes(p, before, x, now[..n]);
      PowerNext(p, x, 0);
      ProductOne(p, message[n]);
    }
  }

  lemma {:induction false} PowerProduct(p: Params, x: bv16, y: bv16, k: nat)
    requires Usable(p) && In(p, x) && In(p, y)
    ensures Power(p, Product(p, x, y), k) == Product(p, Power(p, x, k), Power(p, y, k))
    decreases k
  {
    hide Product, In, Usable;
    OneIn(p);
    if k == 0 {
      ProductOne(p, 1);
    } else {
      PowerProduct(p, x, y, k - 1);
      var u, v := Power(p, x, k - 1), Power(p, y, k - 1);
      PowerIn(p, x, k - 1);
      PowerIn(p, y, k - 1);
      ProductIn(p, x, y);
      ProductIn(p, v, y);
      Associates(p, u, v, Product(p, x, y));
      Commutes(p, x, y);
      Associates(p, v, y, x);
      Commutes(p, Product(p, v, y), x);
      Associates(p, u, x, Product(p, v, y));
    }
  }

  lemma {:induction false} PowerSwap(p: Params, a: bv16, j: nat, k: nat)
    requires Usable(p) && In(p, a)
    ensures Power(p, Power(p, a, j), k) == Power(p, Power(p, a, k), j)
    decreases j
  {
    hide Product, In, Usable, Power;
    OneIn(p);
    PowerNext(p, a, 0);
    PowerIn(p, a, k);
    PowerNext(p, Power(p, a, k), 0);
    if j == 0 {
      PowersOfOne(p, k);
    } else {
      PowerSwap(p, a, j - 1, k);
      PowerIn(p, a, j - 1);
      PowerNext(p, a, j - 1);
      PowerProduct(p, Power(p, a, j - 1), a, k);
      PowerNext(p, Power(p, a, k), j - 1);
    }
  }

  lemma {:induction false} PowersOfOne(p: Params, k: nat)
    ensures Power(p, 1, k) == 1
  {
    hide Product;
    if k > 0 {
      PowersOfOne(p, k - 1);
      OneIn(p);
      ProductOne(p, 1);
    }
  }

  function Places(p: Params, a: bv16, n: nat): (r: seq<bv16>)
    ensures |r| == n
  {
    seq(n, i requires 0 <= i < n => Power(p, a, n - 1 - i))
  }

  /** The terms at consecutive powers are what consecutive syndromes see of the first. */
  lemma TermsSeen(p: Params, a: bv16, d: seq<bv16>, b: nat, j: nat)
    requires Usable(p) && In(p, a) && Elements(p, d)
    ensures Terms(p, d, Power(p, a, b + j)) == Seen(p, Terms(p, d, Power(p, a, b)), Places(p, a, |d|), j)
  {
    hide Product, In, Usable, Power;
    var l, r := Terms(p, d, Power(p, a, b + j)), Seen(p, Terms(p, d, Power(p, a, b)), Places(p, a, |d|), j);
    forall i | 0 <= i < |d| ensures l[i] == r[i] {
      var k := |d| - 1 - i;
      PowerAdd(p, a, b, j);
      PowerIn(p, a, b);
      PowerIn(p, a, j);
      PowerIn(p, a, k);
      PowerProduct(p, Power(p, a, b), Power(p, a, j), k);
      PowerSwap(p, a, j, k);
      PowerIn(p, Power(p, a, b), k);
      PowerIn(p, Power(p, a, k), j);
      Associates(p, d[i], Power(p, Power(p, a, b), k), Power(p, Power(p, a, k), j));
    }
  }

  lemma PlacesDistinct(p: Params, a: bv16, n: nat)
    requires Generates(p, a) && n <= Units(p.m)
    ensures Distinct(Places(p, a, n)) && Elements(p, Places(p, a, n))
  {
    hide Product, In, Power, Units, Usable;
    var xs := Places(p, a, n);
    forall i, j | 0 <= i < j < n ensures xs[i] != xs[j] {
      assert Power(p, a, n - 1 - j) != Power(p, a, n - 1 - i);
    }
    forall i | 0 <= i < n ensures In(p, xs[i]) { PowerIn(p, a, n - 1 - i); }
  }

  lemma {:induction false} PowerNotZero(p: Params, a: bv16, x: bv16, k: nat)
    requires Generates(p, a) && In(p, x) && x != 0
    ensures Power(p, x, k) != 0 && In(p, Power(p, x, k))
    decreases k
  {
    hide Product, In, Generates, Usable;
    GeneratesIn(p, a);
    OneIn(p);
    PowerIn(p, x, k);
    if k > 0 {
      PowerNotZero(p, a, x, k - 1);
      NoZeroDivisors(p, a, Power(p, x, k - 1), x);
    }
  }

  lemma GeneratorIsNotZero(p: Params, a: bv16)
    requires Generates(p, a)
    ensures a != 0 && In(p, a) && Usable(p)
  {
    hide Product, In, Power, Units, Usable;
    GeneratesIn(p, a);
    PowerNext(p, a, 0);
    assert Power(p, a, 1) != 0;
  }

  /** A term vanishes exactly with its symbol. */
  lemma TermsFacts(p: Params, a: bv16, d: seq<bv16>, b: nat)
    requires Generates(p, a) && Elements(p, d)
    ensures var ts := Terms(p, d, Power(p, a, b));
      Elements(p, ts) && forall i :: 0 <= i < |d| ==> (ts[i] == 0 <==> d[i] == 0)
  {
    hide Product, In, Generates, Usable, Power;
    GeneratorIsNotZero(p, a);
    PowerNotZero(p, a, a, b);
    var x := Power(p, a, b);
    var ts := Terms(p, d, x);
    forall i | 0 <= i < |d| ensures In(p, ts[i]) && (ts[i] == 0 <==> d[i] == 0) {
      var y := Power(p, x, |d| - 1 - i);
      PowerNotZero(p, a, x, |d| - 1 - i);
      ProductIn(p, d[i], y);
      ProductZero(p, y);
      if d[i] != 0 { NoZeroDivisors(p, a, d[i], y); }
    }
  }

  /** A word of no more symbols than there are units, with at most `t` of them other
      than zero, has a syndrome other than zero among any `t` consecutive ones. */
  lemma LightWordIsZero(p: Params, a: bv16, d: seq<bv16>, b: nat, t: nat)
    requires Generates(p, a) && Elements(p, d) && |d| <= Units(p.m) && Weight(d) <= t
    requires Passes(p, a, d, b, t)
    ensures forall i :: 0 <= i < |d| ==> d[i] == 0
  {
    hide Product, In, Generates, Usable, Power, Units, Weight, Sum, Value;
    GeneratesIn(p, a);
    var es, xs := Terms(p, d, Power(p, a, b)), Places(p, a, |d|);
    TermsFacts(p, a, d, b);
    PlacesDistinct(p, a, |d|);
    WeightAtMost(d, es);
    forall j: nat | j < t ensures Sum(Seen(p, es, xs, j)) == 0 {
      assert SyndromeAt(p, a, d, b, j) == 0;
      PowerIn(p, a, b + j);
      ValueIsSum(p, d, Power(p, a, b + j));
      TermsSeen(p, a, d, b, j);
    }
    NothingEscapes(p, a, es, xs, t);
  }

  function Difference(a: seq<bv16>, b: seq<bv16>): (r: seq<bv16>)
    requires |a| == |b|
    ensures |r| == |a|
  {
    seq(|a|, i requires 0 <= i < |a| => Xor(a[i], b[i]))
  }

  lemma {:induction false} ValueXor(p: Params, m: seq<bv16>, n: seq<bv16>, x: bv16)
    requires Usable(p) && Elements(p, m) && Elements(p, n) && |m| == |n| && In(p, x)
    ensures Value(p, Difference(m, n), x) == Xor(Value(p, m, x), Value(p, n, x))
    decreases |m|
  {
    hide Product, In, Usable, Xor;
    XorZero(0);
    if m != [] {
      var k := |m| - 1;
      assert Difference(m, n)[..k] == Difference(m[..k], n[..k]);
      ValueXor(p, m[..k], n[..k], x);
      var u, v := Value(p, m[..k], x), Value(p, n[..k], x);
      ValueIn(p, m[..k], x);
      ValueIn(p, n[..k], x);
      ProductXorLeft(p, u, v, x);
      XorSwap(Product(p, u, x), Product(p, v, x), m[k], n[k]);
    }
  }

  /** Two words that pass the same `t` consecutive syndromes and differ in at most `t`
      symbols are equal. */
  lemma PassingWordsFarApart(p: Params, a: bv16, m: seq<bv16>, n: seq<bv16>, b: nat, t: nat)
    requires Generates(p, a) && Elements(p, m) && Elements(p, n) && |m| == |n| <= Units(p.m)
    requires Weight(Difference(m, n)) <= t
    requires Passes(p, a, m, b, t) && Passes(p, a, n, b, t)
    ensures m == n
  {
    hide Product, In, Generates, Usable, Power, Units, Weight, Value, Xor;
    GeneratesIn(p, a);
    var d := Difference(m, n);
    forall i | 0 <= i < |d| ensures In(p, d[i]) { XorIn(p, m[i], n[i]); }
    forall j: nat | j < t ensures SyndromeAt(p, a, d, b, j) == 0 {
      assert SyndromeAt(p, a, m, b, j) == 0 && SyndromeAt(p, a, n, b, j) == 0;
      PowerIn(p, a, b + j);
      ValueXor(p, m, n, Power(p, a, b + j));
      XorZero(0);
    }
    LightWordIsZero(p, a, d, b, t);
    forall i | 0 <= i < |m| ensures m[i] == n[i] {
      assert d[i] == 0;
      XorEqual(m[i], n[i]);
    }
  }

  // ---- the R900 payload

  const R900: Params := Params(5, 37)
  const R900_GENERATOR: bv16 := 2
  const R900_OFFSET: nat := 29
  const R900_PARITY: nat := 5

  /** Sixteen data symbols, ten zeros, five checksum symbols. */
  function Padded(symbols: seq<bv16>): (r: seq<bv16>)
    requires |symbols| == 21
    ensures |r| == 31
  {
    symbols[..16] + [0, 0, 0, 0, 0, 0, 0, 0, 0, 0] + symbols[16..]
  }

  ghost predicate R900Accepted(symbols: seq<bv16>)
    requires |symbols| == 21
  {
    Passes(R900, R900_GENERATOR, Padded(symbols), R900_OFFSET, R900_PARITY)
  }

  lemma PaddedElements(symbols: seq<bv16>)
    requires |symbols| == 21 && Elements(R900, symbols)
    ensures Elements(R900, Padded(symbols))
  {
    OneIn(R900);
    hide In;
  }

  lemma FiveZero(a: bv16, b: bv16, c: bv16, d: bv16, e: bv16)
    ensures a | b | c | d | e == 0 <==> a == 0 && b == 0 && c == 0 && d == 0 && e == 0
  {
  }

  /** The parser's syndrome test. */
  method AcceptPayload(f: Field, symbols: seq<bv16>) returns (ok: bool)
    requires f.Valid() && f.p == R900 && f.generator == R900_GENERATOR
    requires |symbols| == 21 && Elements(R900, symbols)
    ensures ok <==> R900Accepted(symbols)
  {
    hide Generates, Power, SyndromeAt, Doubled, Index, In;
    PaddedElements(symbols);
    var r := Syndrome(f, Padded(symbols), R900_PARITY, R900_OFFSET);
    FiveZero(r.values[0], r.values[1], r.values[2], r.values[3], r.values[4]);
    ok := r.values[0] | r.values[1] | r.values[2] | r.values[3] | r.values[4] == 0;
  }

  // The test in terms of the symbols as they are received.

  /** The power of the locator at which a received symbol stands in the code word. */
  function PayloadPlace(i: nat): nat
    requires i < 21
  {
    if i < 16 then 30 - i else 20 - i
  }

  /** One of the checks: the symbols weighted with powers of the generator. */
  function PayloadCheck(symbols: seq<bv16>, e: nat): (terms: seq<bv16>)
    requires |symbols| == 21
    ensures |terms| == 21
  {
    seq(21, i requires 0 <= i < 21 => Product(R900, symbols[i], Power(R900, R900_GENERATOR, e * PayloadPlace(i))))
  }

  lemma {:induction false} PowerOfPower(p: Params, a: bv16, e: nat, k: nat)
    requires Usable(p) && In(p, a)
    ensures Power(p, Power(p, a, e), k) == Power(p, a, e * k)
    decreases k
  {
    hide Product, In, Usable;
    if k > 0 {
      PowerOfPower(p, a, e, k - 1);
      PowerAdd(p, a, e * (k - 1), e);
      assert e * (k - 1) + e == e * k;
    } else {
      assert e * k == 0;
    }
  }

  lemma {:induction false} SumConcat(a: seq<bv16>, b: seq<bv16>)
    ensures Sum(a + b) == Xor(Sum(a), Sum(b))
    decreases |b|
  {
    hide Xor;
    XorZero(Sum(a));
    if b == [] {
      assert a + b == a;
    } else {
      var n := |b| - 1;
      assert (a + b)[..|a| + n] == a + b[..n];
      SumConcat(a, b[..n]);
      XorAssoc(Sum(a), Sum(b[..n]), b[n]);
    }
  }

  lemma {:induction false} SumZeros(s: seq<bv16>)
    requires forall i :: 0 <= i < |s| ==> s[i] == 0
    ensures Sum(s) == 0
    decreases |s|
  {
    XorZero(0);
    if s != [] { SumZeros(s[..|s| - 1]); }
  }

  /** A payload is accepted exactly when its twenty-one symbols, weighted as they stand in
      the code word, add up to zero for each of the exponents 29 to 33. */
  lemma AcceptedExactly(symbols: seq<bv16>)
    requires |symbols| == 21 && Elements(R900, symbols)
    ensures R900Accepted(symbols) <==> forall e: nat :: 29 <= e < 34 ==> Sum(PayloadCheck(symbols, e)) == 0
  {
    hide Sum, Value, PayloadCheck, In, Elements;
    PaddedElements(symbols);
    forall j: nat | j < 5
      ensures SyndromeAt(R900, R900_GENERATOR, Padded(symbols), 29, j) == Sum(PayloadCheck(symbols, 29 + j))
    {
      CheckIsSyndrome(symbols, 29 + j);
    }
    if R900Accepted(symbols) {
      forall e: nat | 29 <= e < 34 ensures Sum(PayloadCheck(symbols, e)) == 0 {
        assert SyndromeAt(R900, R900_GENERATOR, Padded(symbols), R900_OFFSET, e - 29) == 0;
      }
    }
  }

  lemma CheckIsSyndrome(symbols: seq<bv16>, e: nat)
    requires |symbols| == 21 && Elements(R900, symbols)
    ensures Value(R900, Padded(symbols), Power(R900, R900_GENERATOR, e)) == Sum(PayloadCheck(symbols, e))
  {
    hide Sum, Value, In, Product, Power, Elements, Xor;
    PaddedElements(symbols);
    var x := Power(R900, R900_GENERATOR, e);
    assert Usable(R900) && In(R900, R900_GENERATOR) by { R900Generates(); }
    PowerIn(R900, R900_GENERATOR, e);
    ValueIsSum(R900, Padded(symbols), x);
    var terms, check := Terms(R900, Padded(symbols), x), PayloadCheck(symbols, e);
    forall i | 0 <= i < 21 ensures check[i] == terms[if i < 16 then i else i + 10] {
      PowerOfPower(R900, R900_GENERATOR, e, PayloadPlace(i));
    }
    forall i | 16 <= i < 26 ensures terms[i] == 0 { ProductZero(R900, Power(R900, x, 30 - i)); }
    assert terms == terms[..16] + terms[16..26] + terms[26..];
    assert check == check[..16] + check[16..] && check[..16] == terms[..16] && check[16..] == terms[26..];
    SumConcat(terms[..16] + terms[16..26], terms[26..]);
    SumConcat(terms[..16], terms[16..26]);
    SumConcat(check[..16], check[16..]);
    SumZeros(terms[16..26]);
    XorZero(Sum(terms[..16]));
  }

  lemma {:induction false} WeightConcat(a: seq<bv16>, b: seq<bv16>)
    ensures Weight(a + b) == Weight(a) + Weight(b)
    decreases |b|
  {
    if b == [] {
      assert a + b == a;
    } else {
      var n := |b| - 1;
      assert (a + b)[..|a| + n] == a + b[..n];
      WeightConcat(a, b[..n]);
    }
  }

  lemma {:induction false} WeightZeros(s: seq<bv16>)
    requires forall i :: 0 <= i < |s| ==> s[i] == 0
    ensures Weight(s) == 0
    decreases |s|
  {
    if s != [] { WeightZeros(s[..|s| - 1]); }
  }

  lemma PaddedWeight(a: seq<bv16>, b: seq<bv16>)
    requires |a| == |b| == 21
    ensures Weight(Difference(Padded(a), Padded(b))) == Weight(Difference(a, b))
  {
    hide Xor, Weight;
    XorZero(0);
    var d := Difference(a, b);
    var zeros := Difference(Padded(a), Padded(b))[16..26];
    assert Difference(Padded(a), Padded(b)) == d[..16] + zeros + d[16..];
    WeightZeros(zeros);
    WeightConcat(d[..16] + zeros, d[16..]);
    WeightConcat(d[..16], zeros);
    WeightConcat(d[..16], d[16..]);
    assert d == d[..16] + d[16..];
  }

  /** Changing up to five symbols of an accepted payload never yields another accepted
      one. */
  lemma PayloadsFarApart(a: seq<bv16>, b: seq<bv16>)
    requires |a| == |b| == 21 && Elements(R900, a) && Elements(R900, b)
    requires R900Accepted(a) && R900Accepted(b) && Weight(Difference(a, b)) <= 5
    ensures a == b
  {
    hide Generates, In, Passes, Weight;
    PaddedElements(a);
    PaddedElements(b);
    PaddedWeight(a, b);
    R900Generates();
    PassingWordsFarApart(R900, R900_GENERATOR, Padded(a), Padded(b), R900_OFFSET, R900_PARITY);
    assert a == Padded(a)[..16] + Padded(a)[26..] == Padded(b)[..16] + Padded(b)[26..] == b;
  }

  /** The powers of 2 modulo x^5 + x^2 + 1. */
  function R900Power(i: nat): bv16
  {
    match i
    case 0 => 1 case 1 => 2 case 2 => 4 case 3 => 8 case 4 => 16 case 5 => 5 case 6 => 10 case 7 => 20
    case 8 => 13 case 9 => 26 case 10 => 17 case 11 => 7 case 12 => 14 case 13 => 28 case 14 => 29 case 15 => 31
    case 16 => 27 case 17 => 19 case 18 => 3 case 19 => 6 case 20 => 12 case 21 => 24 case 22 => 21 case 23 => 15
    case 24 => 30 case 25 => 25 case 26 => 23 case 27 => 11 case 28 => 22 case 29 => 9 case 30 => 18 case _ => 0
  }

  /** Their logarithms. */
  function R900Log(k: nat): nat
  {
    match k
    case 1 => 0 case 2 => 1 case 3 => 18 case 4 => 2 case 5 => 5 case 6 => 19 case 7 => 11 case 8 => 3
    case 9 => 29 case 10 => 6 case 11 => 27 case 12 => 20 case 13 => 8 case 14 => 12 case 15 => 23 case 16 => 4
    case 17 => 10 case 18 => 30 case 19 => 17 case 20 => 7 case 21 => 22 case 22 => 28 case 23 => 26 case 24 => 21
    case 25 => 25 case 26 => 9 case 27 => 16 case 28 => 13 case 29 => 14 case 30 => 24 case 31 => 15 case _ => 0
  }

  lemma R900Doubles(i: nat)
    requires i < 30
    ensures Times2(R900, R900Power(i)) == R900Power(i + 1)
  {
  }

  lemma R900In(i: nat)
    requires i < 31
    ensures In(R900, R900Power(i)) && R900Power(i) != 0
  {
  }

  lemma R900Logs(i: nat)
    requires i < 31
    ensures 0 < Index(R900Power(i)) < 32 && R900Log(Index(R900Power(i))) == i && In(R900, R900Power(i))
  {
    R900In(i);
    hide In;
  }

  lemma R900Elements(k: nat)
    requires 0 < k < 32
    ensures R900Log(k) < 31 && Index(R900Power(R900Log(k))) == k
  {
  }

  lemma {:induction false} R900Powers(i: nat)
    requires i < 31
    ensures Power(R900, R900_GENERATOR, i) == R900Power(i)
  {
    if i == 0 {
    } else {
      TwoIsTimes2();
      hide Product, Times2, R900Power;
      R900Powers(i - 1);
      R900Doubles(i - 1);
      R900Logs(i - 1);
      ProductTimes2(R900, R900Power(i - 1), 1);
      ProductOne(R900, R900Power(i - 1));
    }
  }

  lemma TwoIsTimes2()
    ensures Times2(R900, 1) == R900_GENERATOR
  {
  }

  /** The parser's field is one that `NewField` makes. */
  lemma R900Generates()
    ensures Generates(R900, R900_GENERATOR)
  {
    hide Power, R900Power, R900Log, Index;
    assert In(R900, R900_GENERATOR) && Usable(R900) && Units(5) == 31;
    forall i: nat | i < 31
      ensures Power(R900, R900_GENERATOR, i) == R900Power(i) && R900Log(Index(R900Power(i))) == i && R900Power(i) != 0
    {
      R900Powers(i);
      R900Logs(i);
      IndexIn(R900, R900Power(i));
    }
    forall k: nat | 0 < k <= 31 ensures IsPower(R900, R900_GENERATOR, k) {
      R900Elements(k);
      assert Index(Power(R900, R900_GENERATOR, R900Log(k))) == k;
    }
  }
}
