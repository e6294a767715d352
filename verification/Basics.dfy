/** Bytes, rows of equally long pieces, and remainders. */
module Basics {
  type Byte = x: int | 0 <= x < 256

  /** Where the `k`-th of a row of equally long pieces starts: `k * size`. */
  function At(k: nat, size: nat): nat
  {
    if k == 0 then 0 else At(k - 1, size) + size
  }

  lemma {:induction false} AtIsProduct(k: nat, size: nat)
    ensures At(k, size) == k * size
  {
    if k > 0 {
      AtIsProduct(k - 1, size);
      assert k * size == (k - 1) * size + size;
    }
  }

  lemma {:induction false} AtApart(i: nat, j: nat, size: nat)
    requires i < j
    ensures At(i, size) + size <= At(j, size)
    decreases j
  {
    if i < j - 1 { AtApart(i, j - 1, size); }
  }

  lemma AtDivMod(i: nat, size: nat, count: nat)
    requires 0 < size && i < At(count, size)
    ensures i / size < count && i == At(i / size, size) + i % size && i % size < size
  {
    var k := i / size;
    AtIsProduct(k, size);
    assert i == size * k + i % size;
    if k > count { AtApart(count, k, size); }
  }

  lemma BlocksCover(length: nat, size: nat)
    requires 0 < size && 0 < length
    ensures 0 < (length + size - 1) / size
    ensures At((length + size - 1) / size - 1, size) < length <= At((length + size - 1) / size, size)
  {
    var n := length + size - 1;
    var q := n / size;
    assert n == size * q + n % size;
    if q == 0 { assert false; }
    AtIsProduct(q, size);
    AtIsProduct(q - 1, size);
    assert (q - 1) * size == q * size - size;
  }

  lemma {:induction false} AtSum(a: nat, b: nat, size: nat)
    ensures At(a + b, size) == At(a, size) + At(b, size)
    decreases b
  {
    if b > 0 { AtSum(a, b - 1, size); }
  }

  lemma Multiples(n: nat, d: int)
    ensures d >= 1 ==> n * d >= n
    ensures d <= -1 ==> n * d + n <= 0
  {
    if d >= 1 { assert n * d == n + n * (d - 1); }
    if d <= -1 { assert n * d + n == n * (d + 1); }
  }

  /** Between two consecutive multiples of `n` there is no third. */
  lemma NoMultipleBetween(n: nat, d: int)
    requires 0 < n * d + n < 2 * n
    ensures d == 0
  {
    Multiples(n, d);
  }

  lemma Distribute(n: int, a: int, b: int)
    ensures n * (a + b) == n * a + n * b && n * (a - b) == n * a - n * b
  {
  }

  /** Quotient and remainder are determined by what they have to satisfy. */
  lemma DivModUnique(a: int, n: int, q: int, r: int)
    requires 0 < n && a == n * q + r && 0 <= r < n
    ensures a / n == q && a % n == r
  {
    var q', r' := a / n, a % n;
    assert a == n * q' + r';
    Distribute(n, q', q);
    NoMultipleBetween(n, q' - q);
  }

  lemma ModSame(a: nat, b: nat, n: nat)
    requires 0 < n && a <= b < a + n && a % n == b % n
    ensures a == b
  {
    var p, q := a / n, b / n;
    assert a == n * p + a % n && b == n * q + b % n;
    Distribute(n, q, p);
    NoMultipleBetween(n, q - p);
  }

  lemma ModShift(a: nat, n: nat)
    requires 0 < n
    ensures (a + n) % n == a % n
  {
    var q := a / n;
    assert a == n * q + a % n;
    Distribute(n, q, 1);
    DivModUnique(a + n, n, q + 1, a % n);
  }

  lemma ModSmall(a: nat, n: nat)
    requires a < n
    ensures a % n == a
  {
    DivModUnique(a, n, 0, a);
  }

  lemma ModStep(k: nat, n: nat)
    requires 0 < n
    ensures (k % n + 1) % n == (k + 1) % n
  {
    var q, r := k / n, k % n;
    assert k == n * q + r;
    if r + 1 < n {
      ModSmall(r + 1, n);
      DivModUnique(k + 1, n, q, r + 1);
    } else {
      DivModUnique(n, n, 1, 0);
      Distribute(n, q, 1);
      DivModUnique(k + 1, n, q + 1, 0);
    }
  }

  /** One of any `n` consecutive numbers has remainder `i`. */
  lemma Congruent(from: nat, i: nat, n: nat) returns (k: nat)
    requires i < n
    ensures from <= k < from + n && k % n == i
  {
    var c, q := from % n, from / n;
    assert from == n * q + c;
    Distribute(n, q, 1);
    if i >= c {
      k := from + (i - c);
      DivModUnique(k, n, q, i);
    } else {
      k := from + (i + n - c);
      DivModUnique(k, n, q + 1, i);
    }
  }

  lemma NonNegative(a: int, b: int)
    requires 0 <= a && 0 <= b
    ensures 0 <= a * b
  {
  }
}
