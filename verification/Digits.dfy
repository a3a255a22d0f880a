/** Numbers written in a base, least significant digit first: what shifting by whole bytes or bits
    and masking compute. */
module Digits {
  function Pow(base: nat, n: nat): (p: nat)
    requires base > 0
    ensures p > 0
  {
    if n == 0 then 1 else base * Pow(base, n - 1)
  }

  function Low(v: int, base: nat): (d: nat)
    requires base > 0
    ensures d < base
  {
    v % base
  }

  function High(v: int, base: nat): int
    requires base > 0
  {
    v / base
  }

  /** The n lowest digits of v; v may be negative. */
  function ToDigits(v: int, base: nat, n: nat): (ds: seq<nat>)
    requires base > 0
    ensures |ds| == n && InBase(ds, base)
    decreases n
  {
    if n == 0 then [] else [Low(v, base)] + ToDigits(High(v, base), base, n - 1)
  }

  predicate InBase(ds: seq<nat>, base: nat) {
    forall i :: 0 <= i < |ds| ==> ds[i] < base
  }

  function Value(ds: seq<nat>, base: nat): nat {
    if ds == [] then 0 else ds[0] + base * Value(ds[1..], base)
  }

  lemma MulNonNegative(x: int, y: int)
    requires x >= 0 && y >= 0
    ensures x * y >= 0
  {
  }

  lemma MulLess(a: int, b: int, c: int)
    requires a < b && c > 0
    ensures a * c + c <= b * c
  {
    MulNonNegative(b - a - 1, c);
    assert (b - a - 1) * c == b * c - a * c - c;
  }

  /** The remainder is determined by its range. */
  lemma ModUnique(v: int, m: nat, k: int, r: int)
    requires m > 0 && v == m * k + r && 0 <= r < m
    ensures v % m == r && v / m == k
  {
    var q, s := v / m, v % m;
    assert v == m * q + s && 0 <= s < m;
    if q < k {
      MulLess(q, k, m);
    } else if k < q {
      MulLess(k, q, m);
    }
  }

  lemma AddMultiple(y: int, m: nat, k: int)
    requires m > 0
    ensures (y + m * k) % m == y % m
  {
    assert y == m * (y / m) + y % m;
    assert m * (y / m) + m * k == m * (y / m + k);
    ModUnique(y + m * k, m, y / m + k, y % m);
  }

  /** Splitting off the lowest digit. */
  lemma ModSplit(v: int, b: nat, p: nat)
    requires b > 0 && p > 0
    ensures b * p > 0 && v % (b * p) == v % b + b * ((v / b) % p)
    ensures v / (b * p) == (v / b) / p
  {
    var q, r := v / b, v % b;
    var k, m := q / p, q % p;
    assert v == b * q + r && q == p * k + m;
    assert b * (p * k + m) == b * p * k + b * m by {
      assert b * (p * k) == b * p * k;
    }
    MulLess(m, p, b);
    assert b * m + r < b * p;
    assert b * m >= 0;
    ModUnique(v, b * p, k, b * m + r);
  }

  /** Digit k is what is left after k shifts, modulo the base. */
  lemma {:induction false} DigitAt(v: int, base: nat, n: nat, k: nat)
    requires base > 0 && k < n
    ensures ToDigits(v, base, n)[k] == (v / Pow(base, k)) % base
    decreases k
  {
    if k == 0 {
      assert Pow(base, 0) == 1;
    } else {
      DigitAt(v / base, base, n - 1, k - 1);
      ModSplit(v, base, Pow(base, k - 1));
    }
  }

  lemma {:induction false} ValueBound(ds: seq<nat>, base: nat)
    requires base > 0 && InBase(ds, base)
    ensures Value(ds, base) < Pow(base, |ds|)
  {
    if ds == [] {
    } else {
      ValueBound(ds[1..], base);
      MulLess(Value(ds[1..], base), Pow(base, |ds| - 1), base);
    }
  }

  lemma ValueOf(d: nat, ds: seq<nat>, base: nat)
    ensures Value([d] + ds, base) == d + base * Value(ds, base)
  {
    assert ([d] + ds)[1..] == ds;
  }

  /** Reading back n digits gives the number modulo base to the n. */
  lemma {:induction false} ValueOfDigits(v: int, base: nat, n: nat)
    requires base > 0
    ensures Value(ToDigits(v, base, n), base) == v % Pow(base, n)
    decreases n
  {
    if n == 0 {
    } else {
      ValueOfDigits(High(v, base), base, n - 1);
      ValueOf(Low(v, base), ToDigits(High(v, base), base, n - 1), base);
      ModSplit(v, base, Pow(base, n - 1));
    }
  }

  /** Writing back what was read gives the same digits. */
  lemma {:induction false} DigitsOfValue(ds: seq<nat>, base: nat)
    requires base > 0 && InBase(ds, base)
    ensures ToDigits(Value(ds, base), base, |ds|) == ds
  {
    if ds == [] {
    } else {
      DigitsOfValue(ds[1..], base);
      ModUnique(Value(ds, base), base, Value(ds[1..], base), ds[0]);
      assert ds == [ds[0]] + ds[1..];
    }
  }
}
