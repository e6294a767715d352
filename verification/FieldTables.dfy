/** The exponential and logarithm tables of GF(2^m), and multiplication by them. */
module FieldTables {
  import opened Basics
  import opened Words
  import opened GaloisField
  import opened Irreducibility

  function Power(p: Params, a: bv16, n: nat): bv16
  {
    if n == 0 then 1 else Product(p, Power(p, a, n - 1), a)
  }

  /** What `NewField` checks of a generator: its powers below the number of units are
      distinct, and are all the elements but zero. */
  ghost predicate Generates(p: Params, a: bv16)
  {
    && Usable(p) && In(p, a)
    && DistinctPowers(p, a) && forall k: nat :: 0 < k <= Units(p.m) ==> IsPower(p, a, k)
  }

  ghost predicate DistinctPowers(p: Params, a: bv16)
  {
    && (forall i: nat, j: nat :: i < j < Units(p.m) ==> Power(p, a, i) != Power(p, a, j))
    && (forall i: nat :: i < Units(p.m) ==> Power(p, a, i) != 0)
  }

  ghost predicate IsPower(p: Params, a: bv16, k: nat)
  {
    exists i: nat :: i < Units(p.m) && Index(Power(p, a, i)) == k
  }

  /** An element as a table index. */
  function Index(x: bv16): nat
  {
    x as int
  }

  lemma IndexIn(p: Params, x: bv16)
    requires 2 <= p.m <= 8 && In(p, x)
    ensures Index(x) <= Units(p.m) && (x == 0 <==> Index(x) == 0)
  {
  }

  lemma SmallIndex(x: bv16)
    requires x <= 0xff
    ensures (x as int) < 256 && (x as int) as bv16 == x
  {
  }

  lemma InIsSmall(p: Params, x: bv16)
    requires In(p, x)
    ensures x <= 0xff
  {
  }

  lemma IndexInjective(p: Params, x: bv16, y: bv16)
    requires In(p, x) && In(p, y) && Index(x) == Index(y)
    ensures x == y
  {
    hide In;
    InIsSmall(p, x);
    InIsSmall(p, y);
    SmallIndex(x);
    SmallIndex(y);
  }

  lemma LogOf(p: Params, a: bv16, x: bv16) returns (i: nat)
    requires Generates(p, a) && In(p, x) && x != 0
    ensures i < Units(p.m) && Power(p, a, i) == x
  {
    hide Power, In, Index, Usable;
    UsableDegree(p);
    IndexIn(p, x);
    assert IsPower(p, a, Index(x));
    i :| i < Units(p.m) && Index(Power(p, a, i)) == Index(x);
    PowerIn(p, a, i);
    IndexInjective(p, x, Power(p, a, i));
  }

  lemma {:induction false} PowerIn(p: Params, a: bv16, n: nat)
    requires Usable(p) && In(p, a)
    ensures In(p, Power(p, a, n))
  {
    hide Product, In, Usable;
    OneIn(p);
    if n > 0 { ProductIn(p, Power(p, a, n - 1), a); }
  }

  lemma {:induction false} PowerAdd(p: Params, a: bv16, m: nat, n: nat)
    requires Usable(p) && In(p, a)
    ensures Power(p, a, m + n) == Product(p, Power(p, a, m), Power(p, a, n))
    decreases n
  {
    hide Product, In, Usable;
    PowerIn(p, a, m);
    if n == 0 {
      ProductOne(p, Power(p, a, m));
    } else {
      PowerAdd(p, a, m, n - 1);
      PowerIn(p, a, n - 1);
      Associates(p, Power(p, a, m), Power(p, a, n - 1), a);
    }
  }

  lemma PowerNext(p: Params, a: bv16, n: nat)
    requires In(p, a)
    ensures Power(p, a, n + 1) == Product(p, Power(p, a, n), a)
    ensures Power(p, a, 0) == 1 && Power(p, a, 1) == a
  {
    hide Product, In;
    OneIn(p);
    Commutes(p, 1, a);
    ProductOne(p, a);
  }

  /** No element but zero is sent to zero by the generator. */
  lemma GeneratorNotZero(p: Params, a: bv16, x: bv16)
    requires Generates(p, a) && In(p, x) && x != 0
    ensures Product(p, x, a) != 0
  {
    hide Product, In, Xor, Usable;
    var last := Units(p.m) - 1;
    var j := LogOf(p, a, x);
    PowerNext(p, a, j);
    if j == last && Product(p, x, a) == 0 {
      // Then x + 1 is another power, and the generator sends it to itself.
      PowerNext(p, a, 0);
      OneIn(p);
      XorIn(p, x, 1);
      if Xor(x, 1) == 0 { XorEqual(x, 1); }
      var k := LogOf(p, a, Xor(x, 1));
      PowerNext(p, a, k);
      ProductXorLeft(p, x, 1, a);
      XorZero(a);
      ProductOne(p, a);
      Commutes(p, 1, a);
      assert Power(p, a, k + 1) == Power(p, a, 1);
      if k + 1 < Units(p.m) {
        assert k == 0;
        XorEqualZero(x, 1);
      } else {
        XorEqualZero(1, x);
        XorComm(1, x);
      }
    }
  }

  lemma XorEqualZero(a: bv16, b: bv16)
    requires Xor(a, b) == b
    ensures a == 0
  {
    hide Xor;
    XorAssoc(a, b, b);
    XorZero(b);
    XorZero(a);
  }

  /** The powers come back to one after all the units. */
  lemma Cycle(p: Params, a: bv16)
    requires Generates(p, a)
    ensures Power(p, a, Units(p.m)) == 1
  {
    hide Product, In, Xor, Usable;
    var n := Units(p.m);
    PowerIn(p, a, n - 1);
    PowerIn(p, a, n);
    PowerNext(p, a, n - 1);
    GeneratorNotZero(p, a, Power(p, a, n - 1));
    var k := LogOf(p, a, Power(p, a, n));
    if k > 0 {
      PowerNext(p, a, k - 1);
      PowerIn(p, a, k - 1);
      var d := Xor(Power(p, a, n - 1), Power(p, a, k - 1));
      ProductXorLeft(p, Power(p, a, n - 1), Power(p, a, k - 1), a);
      XorZero(Power(p, a, n));
      XorIn(p, Power(p, a, n - 1), Power(p, a, k - 1));
      if d == 0 { XorEqual(Power(p, a, n - 1), Power(p, a, k - 1)); } else { GeneratorNotZero(p, a, d); }
      assert false;
    }
  }

  lemma {:induction false} PowerWraps(p: Params, a: bv16, n: nat)
    requires Generates(p, a)
    ensures Power(p, a, n) == Power(p, a, n % Units(p.m))
    decreases n
  {
    hide Generates, Power, Product;
    var units := Units(p.m);
    if n >= units {
      GeneratesIn(p, a);
      PowerWraps(p, a, n - units);
      PowerAdd(p, a, n - units, units);
      Cycle(p, a);
      PowerIn(p, a, n - units);
      ProductOne(p, Power(p, a, n - units));
      ModShift(n - units, units);
    } else {
      ModSmall(n, units);
    }
  }

  lemma GeneratesIn(p: Params, a: bv16)
    requires Generates(p, a)
    ensures Usable(p) && In(p, a)
  {
  }

  /** The field has no zero divisors. */
  lemma NoZeroDivisors(p: Params, a: bv16, x: bv16, y: bv16)
    requires Generates(p, a) && In(p, x) && In(p, y) && x != 0 && y != 0
    ensures Product(p, x, y) != 0
  {
    hide Product, In, Usable;
    var i := LogOf(p, a, x);
    var j := LogOf(p, a, y);
    PowerAdd(p, a, i, j);
    PowerWraps(p, a, i + j);
  }

  /** The first `n` powers, twice over. */
  ghost predicate Doubled(exp: seq<bv16>, p: Params, a: bv16, n: nat)
  {
    n <= Units(p.m) && |exp| == 2 * Units(p.m) &&
    forall i: nat :: i < n ==> exp[i] == Power(p, a, i) && exp[i + Units(p.m)] == Power(p, a, i)
  }

  /** Every logarithm is of one of the first `n` powers, or zero if never entered. */
  ghost predicate Logged(log: seq<nat>, p: Params, a: bv16, n: nat)
  {
    && |log| == Units(p.m) + 1 && (forall k :: 0 <= k < |log| ==> log[k] < Max(n, 1))
    && forall i: nat :: i < n ==> RightAt(log, p, a, i)
  }

  ghost predicate RightAt(log: seq<nat>, p: Params, a: bv16, i: nat)
  {
    Index(Power(p, a, i)) < |log| && Power(p, a, log[Index(Power(p, a, i))]) == Power(p, a, i)
  }

  function Max(a: nat, b: nat): nat { if a > b then a else b }

  lemma LoggedStep(log: seq<nat>, p: Params, a: bv16, n: nat)
    requires Usable(p) && In(p, a) && Logged(log, p, a, n) && Index(Power(p, a, n)) < |log|
    ensures Logged(log[Index(Power(p, a, n)) := n], p, a, n + 1)
  {
    hide Power, Index, In, Usable, Units;
    var log' := log[Index(Power(p, a, n)) := n];
    PowerIn(p, a, n);
    forall i: nat | i < n + 1 ensures RightAt(log', p, a, i) {
      PowerIn(p, a, i);
      if i < n { assert RightAt(log, p, a, i); }
      if Index(Power(p, a, i)) == Index(Power(p, a, n)) { IndexInjective(p, Power(p, a, i), Power(p, a, n)); }
    }
  }

  lemma DoubledStep(exp: seq<bv16>, p: Params, a: bv16, n: nat)
    requires Doubled(exp, p, a, n) && n < Units(p.m)
    ensures Doubled(exp[n := Power(p, a, n)][n + Units(p.m) := Power(p, a, n)], p, a, n + 1)
  {
    hide Power, Units;
  }

  /** A field with its tables. */
  class Field {
    const p: Params
    const generator: bv16
    const exp: array<bv16>
    const log: array<nat>

    ghost predicate Shaped()
      reads exp, log
    {
      exp.Length == 2 * Units(p.m) && log.Length == Units(p.m) + 1 && exp as object != log as object
    }

    ghost predicate Valid()
      reads exp, log
    {
      && Generates(p, generator) && Shaped() && Doubled(exp[..], p, generator, Units(p.m))
      && forall i: nat :: i < Units(p.m) ==>
            Index(Power(p, generator, i)) <= Units(p.m) && log[Index(Power(p, generator, i))] == i
    }

    constructor (p: Params, generator: bv16)
      ensures this.p == p && this.generator == generator && fresh(exp) && fresh(log) && Shaped()
      ensures Logged(log[..], p, generator, 0)
    {
      this.p, this.generator := p, generator;
      exp, log := new bv16[2 * Units(p.m)], new nat[Units(p.m) + 1](_ => 0);
    }

    lemma FillStart()
      requires Shaped()
      ensures Doubled(exp[..], p, generator, 0)
    {
    }

    method Enter(i: nat, x: bv16)
      requires Shaped() && i < Units(p.m) && Index(x) <= Units(p.m)
      modifies exp, log
      ensures exp[..] == old(exp[..])[i := x][i + Units(p.m) := x] && log[..] == old(log[..])[Index(x) := i]
    {
      hide Units, Index;
      exp[i], exp[i + Units(p.m)] := x, x;
      log[Index(x)] := i;
    }

    /** Fills the tables with the generator's powers; false where the source stops with
        "invalid generator". */
    method Fill() returns (ok: bool)
      requires Usable(p) && In(p, generator) && Shaped() && Logged(log[..], p, generator, 0)
      modifies exp, log
      ensures ok ==> Doubled(exp[..], p, generator, Units(p.m)) && Logged(log[..], p, generator, Units(p.m))
      ensures !ok ==> exists i: nat :: 0 < i < Units(p.m) && Power(p, generator, i) == Power(p, generator, 0)
    {
      hide Product, In, Usable, Units, Power, Index, Doubled, Logged;
      FillStart();
      var units := Units(p.m);
      PowerNext(p, generator, 0);
      var x: bv16 := 1;
      for i := 0 to units
        invariant x == Power(p, generator, i)
        invariant Doubled(exp[..], p, generator, i) && Logged(log[..], p, generator, i)
      {
        if x == 1 && i != 0 { return false; }
        PowerIn(p, generator, i);
        UsableDegree(p);
        IndexIn(p, x);
        LoggedLength(log[..], p, generator, i);
        LoggedStep(log[..], p, generator, i);
        DoubledStep(exp[..], p, generator, i);
        Enter(i, x);
        PowerNext(p, generator, i);
        x := GaloisField.Mul(p, x, generator);
      }
      ok := true;
    }

    /** Whether every power's logarithm is the one it was entered with. */
    method CheckLogs() returns (ok: bool)
      requires Shaped() && Doubled(exp[..], p, generator, Units(p.m))
      requires forall i: nat :: i < Units(p.m) ==> Index(Power(p, generator, i)) <= Units(p.m)
      ensures ok <==> LogsRight(log[..], p, generator)
    {
      hide Units, Power, Index;
      for i := 0 to Units(p.m)
        invariant forall j: nat :: j < i ==> log[Index(Power(p, generator, j))] == j
      {
        assert exp[..][i] == exp[i] == Power(p, generator, i);
        if log[Index(exp[i])] != i { return false; }
      }
      ok := true;
    }

    /** Whether every element but zero is the power of its logarithm. */
    method CheckElements() returns (ok: bool)
      requires Shaped() && Doubled(exp[..], p, generator, Units(p.m))
      requires forall k :: 0 < k < log.Length ==> log[k] < Units(p.m)
      ensures ok <==> forall k: nat :: 0 < k <= Units(p.m) ==> Index(Power(p, generator, log[k])) == k
    {
      hide Units, Power, Index;
      for k := 1 to Units(p.m) + 1
        invariant forall j: nat :: 0 < j < k ==> Index(Power(p, generator, log[j])) == j
      {
        assert exp[..][log[k]] == exp[log[k]] == Power(p, generator, log[k]);
        if Index(exp[log[k]]) != k { return false; }
      }
      ok := true;
    }

    /** What the tables say of an element. */
    lemma TableOf(x: bv16)
      requires Valid() && In(p, x) && x != 0
      ensures Index(x) < log.Length && log[Index(x)] < Units(p.m) && Power(p, generator, log[Index(x)]) == x
    {
      hide Power, Index, In;
      var i := LogOf(p, generator, x);
    }

    /** What they say of an exponent in range. */
    lemma ExpAt(e: nat)
      requires Valid() && e < 2 * Units(p.m)
      ensures exp[e] == Power(p, generator, e)
    {
      hide Power, Generates, Index, Units;
      var units := Units(p.m);
      PowerWraps(p, generator, e);
      if e < units {
        assert exp[..][e] == Power(p, generator, e);
      } else {
        ModShift(e - units, units);
        ModSmall(e - units, units);
        assert exp[..][(e - units) + units] == Power(p, generator, e - units);
      }
    }

    /** Multiplication by adding logarithms is multiplication in the field. */
    method Mul(x: bv16, y: bv16) returns (z: bv16)
      requires Valid() && In(p, x) && In(p, y)
      ensures z == Product(p, x, y) && In(p, z)
    {
      hide Product, In, Power, Units, Generates, Index, Doubled;
      ProductZero(p, x);
      ProductZero(p, y);
      GeneratesIn(p, generator);
      ProductIn(p, x, y);
      if x == 0 || y == 0 { return 0; }
      TableOf(x);
      TableOf(y);
      var e := log[Index(x)] + log[Index(y)];
      PowerAdd(p, generator, log[Index(x)], log[Index(y)]);
      ExpAt(e);
      z := exp[e];
    }

    /** The generator's power, for any exponent from zero up. */
    method Exp(e: int) returns (x: bv16)
      requires Valid()
      ensures x == (if e < 0 then 0 else Power(p, generator, e)) && In(p, x)
    {
      hide Power, Generates, Index, In, Doubled;
      GeneratesIn(p, generator);
      OneIn(p);
      if e < 0 { return 0; }
      PowerWraps(p, generator, e);
      PowerIn(p, generator, e);
      ExpAt(e % Units(p.m));
      x := exp[e % Units(p.m)];
    }

    /** The logarithm undoes the exponential; it is -1 for zero. */
    method Log(x: bv16) returns (i: int)
      requires Valid() && In(p, x)
      ensures if x == 0 then i == -1 else 0 <= i < Units(p.m) && Power(p, generator, i) == x
    {
      hide Power, Generates, Index, In, Doubled;
      if x == 0 { return -1; }
      TableOf(x);
      i := log[Index(x)];
    }

    /** The multiplicative inverse; zero for zero. */
    method Inv(x: bv16) returns (y: bv16)
      requires Valid() && In(p, x)
      ensures if x == 0 then y == 0 else In(p, y) && Product(p, x, y) == 1
    {
      hide Product, In, Power, Units, Generates, Index, Doubled;
      if x == 0 { return 0; }
      TableOf(x);
      var i, units := log[Index(x)], Units(p.m);
      GeneratesIn(p, generator);
      PowerAdd(p, generator, i, units - i);
      Cycle(p, generator);
      PowerIn(p, generator, units - i);
      ExpAt(units - i);
      y := exp[units - i];
    }
  }

  ghost predicate LogsRight(log: seq<nat>, p: Params, a: bv16)
  {
    forall i: nat :: i < Units(p.m) ==> Index(Power(p, a, i)) < |log| && log[Index(Power(p, a, i))] == i
  }

  lemma PowerIndex(p: Params, a: bv16, i: nat)
    requires Usable(p) && In(p, a)
    ensures Index(Power(p, a, i)) <= Units(p.m) && (Power(p, a, i) == 0 <==> Index(Power(p, a, i)) == 0)
  {
    hide Power, Units, Index, In;
    UsableDegree(p);
    PowerIn(p, a, i);
    IndexIn(p, Power(p, a, i));
  }

  lemma DistinctLogs(log: seq<nat>, p: Params, a: bv16, i: nat)
    requires Usable(p) && In(p, a) && Logged(log, p, a, Units(p.m)) && DistinctPowers(p, a) && i < Units(p.m)
    ensures Index(Power(p, a, i)) < |log| && log[0 := Units(p.m)][Index(Power(p, a, i))] == i
  {
    hide Power, Units, Index, In, Usable;
    PowerIndex(p, a, i);
    assert RightAt(log, p, a, i);
    var j := log[Index(Power(p, a, i))];
    assert !(i < j) && !(j < i);
  }

  lemma RightLogs(log: seq<nat>, p: Params, a: bv16, i: nat, j: nat)
    requires Usable(p) && In(p, a) && log != [] && LogsRight(log[0 := Units(p.m)], p, a) && i < Units(p.m) &&
             j < Units(p.m)
    ensures Power(p, a, i) != 0 && (i != j ==> Power(p, a, i) != Power(p, a, j))
  {
    hide Power, Units, Index, In, Usable;
    PowerIndex(p, a, i);
    assert log[0 := Units(p.m)][Index(Power(p, a, i))] == i;
    assert log[0 := Units(p.m)][Index(Power(p, a, j))] == j;
  }

  /** The logarithms come out right exactly for distinct powers other than zero. */
  lemma LogsRightIff(log: seq<nat>, p: Params, a: bv16)
    requires Usable(p) && In(p, a) && Logged(log, p, a, Units(p.m))
    ensures LogsRight(log[0 := Units(p.m)], p, a) <==> DistinctPowers(p, a)
  {
    hide Power, Units, Index, In, Usable;
    if DistinctPowers(p, a) {
      forall i: nat | i < Units(p.m)
        ensures Index(Power(p, a, i)) < |log| && log[0 := Units(p.m)][Index(Power(p, a, i))] == i
      {
        DistinctLogs(log, p, a, i);
      }
    }
    if LogsRight(log[0 := Units(p.m)], p, a) {
      forall i: nat, j: nat | i < Units(p.m) && j < Units(p.m)
        ensures Power(p, a, i) != 0 && (i != j ==> Power(p, a, i) != Power(p, a, j))
      {
        RightLogs(log, p, a, i, j);
      }
    }
  }

  /** Every element is the power of its logarithm exactly if all elements are powers. */
  lemma ElementsIff(log: seq<nat>, p: Params, a: bv16)
    requires Usable(p) && In(p, a) && Logged(log, p, a, Units(p.m))
    ensures (forall k: nat :: 0 < k <= Units(p.m) ==> Index(Power(p, a, log[k])) == k) <==>
            (forall k: nat :: 0 < k <= Units(p.m) ==> IsPower(p, a, k))
  {
    hide Power, Units, In, Index;
    forall k: nat | 0 < k <= Units(p.m) ensures Index(Power(p, a, log[k])) == k <==> IsPower(p, a, k) {
      if IsPower(p, a, k) {
        var i: nat :| i < Units(p.m) && Index(Power(p, a, i)) == k;
        assert RightAt(log, p, a, i);
      }
    }
  }

  /** A polynomial with a factor has no generator: the checks of the tables alone would
      refuse all that the search for a factor refuses. */
  lemma SplitsNoField(p: Params, a: bv16, k: bv16, q: bv16)
    requires Splits(p, k, q)
    ensures !Generates(p, a)
  {
    hide Product, In, Power, Units, Usable, Carryless;
    if Generates(p, a) {
      GeneratesIn(p, a);
      FactorsVanish(p, k, q);
      NoZeroDivisors(p, a, k, q);
    }
  }

  /** Makes the field of a polynomial and a generator, or none where the source stops.
      A generator out of range stops it at the table's second entry. */
  method NewField(p: Params, a: bv16) returns (f: Field?)
    requires 2 <= p.m <= 8
    ensures f != null <==> Generates(p, a)
    ensures f != null ==> f.p == p && f.generator == a && f.Valid()
  {
    hide Power, Units, In, Product, Order, Index, Doubled, IsPower, Usable, Logged, LogsRight, Splits;
    if !Usable(p) { return null; }
    var found := Reducible(p);
    if found {
      ghost var k, q :| Splits(p, k, q);
      SplitsNoField(p, a, k, q);
      return null;
    }
    if !In(p, a) { return null; }
    f := new Field(p, a);
    var ok := f.Fill();
    if !ok { return null; }
    ok := Verify(f);
    if !ok { return null; }
  }

  /** The checks that follow the filling. */
  method Verify(f: Field) returns (ok: bool)
    requires Usable(f.p) && In(f.p, f.generator) && f.Shaped()
    requires Doubled(f.exp[..], f.p, f.generator, Units(f.p.m)) && Logged(f.log[..], f.p, f.generator, Units(f.p.m))
    modifies f.log
    ensures ok <==> Generates(f.p, f.generator)
    ensures ok ==> f.Valid()
  {
    hide Power, Units, In, Product, Order, Index, Doubled, IsPower, Usable;
    var p, a := f.p, f.generator;
    ghost var log := f.log[..];
    LogsRightIff(log, p, a);
    ElementsIff(log, p, a);
    forall i: nat | i < Units(p.m) ensures Index(Power(p, a, i)) <= Units(p.m) { PowerIndex(p, a, i); }
    f.log[0] := Units(p.m);
    assert f.log[..] == log[0 := Units(p.m)];
    forall k: nat | 0 < k <= Units(p.m) ensures f.log[k] == log[k] { assert f.log[..][k] == log[0 := Units(p.m)][k]; }
    ok := f.CheckLogs();
    if ok { ok := f.CheckElements(); }
  }

  lemma LoggedLength(log: seq<nat>, p: Params, a: bv16, n: nat)
    requires Logged(log, p, a, n)
    ensures |log| == Units(p.m) + 1
  {
  }

  lemma UsableDegree(p: Params)
    requires Usable(p)
    ensures 2 <= p.m <= 8
  {
  }
}
