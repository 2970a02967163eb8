// Go's int64 arithmetic: two's-complement wrap-around and division that
// truncates toward zero.
module Int64 {

  const MIN: int := -0x8000_0000_0000_0000
  const MAX: int := 0x7fff_ffff_ffff_ffff
  const SPAN: int := 0x1_0000_0000_0000_0000

  predicate Fits(x: int) {
    MIN <= x <= MAX
  }

  // The int64 that Go stores for the mathematical integer x.
  function Wrap(x: int): (r: int)
    ensures Fits(r)
    ensures Fits(x) <==> r == x
    ensures x >= 0 ==> r <= x
  {
    (x - MIN) % SPAN + MIN
  }

  // time.Duration saturates instead of wrapping when two instants are
  // further apart than an int64 can say.
  function Saturate(x: int): (r: int)
    ensures Fits(r)
    ensures Fits(x) ==> r == x
  {
    if x < MIN then MIN else if x > MAX then MAX else x
  }

  // Go's x / n: truncation toward zero.
  function Quot(x: int, n: int): (q: int)
    requires n > 0
    ensures x >= 0 ==> 0 <= q * n <= x < q * n + n
    ensures x <= 0 ==> x <= q * n <= 0 && q * n - n < x
  {
    if x >= 0 then x / n else -((-x) / n)
  }

  // Wrap keeps what two's complement keeps: the residue modulo 2^64, in the range
  // of an int64.
  lemma WrapIs(x: int, r: int)
    ensures r == Wrap(x) <==>
            -9223372036854775808 <= r <= 9223372036854775807 && (r - x) % 18446744073709551616 == 0
  {
    var k, m := (x - MIN) / SPAN, (r - x) / SPAN;
    assert Wrap(x) == x - k * SPAN;
    if (r - x) % SPAN == 0 && Fits(r) {
      assert r == x + m * SPAN;
      ModShift(x - MIN, m);
    }
    if r == Wrap(x) { ModShift(0, -k); }
  }

  // Saturate gives the nearest int64.
  lemma SaturateIsNearest(x: int, y: int)
    requires -9223372036854775808 <= y <= 9223372036854775807
    ensures x <= y ==> x <= Saturate(x) <= y
    ensures y <= x ==> y <= Saturate(x) <= x
  {
  }

  lemma WrapAbsorbs(a: int, b: int)
    ensures Wrap(Wrap(a) + b) == Wrap(a + b)
  {
    var k := (a - MIN) / SPAN;
    assert Wrap(a) == a - k * SPAN;
    ModShift(a + b - MIN, -k);
  }

  lemma ModShift(x: int, k: int)
    ensures (x + k * SPAN) % SPAN == x % SPAN
  {
  }

  lemma Cancel(a: int, b: int, n: int)
    requires n > 0 && a * n < b * n + n
    ensures a <= b
  {
    if a > b { AtLeastOne(a - b, n); }
  }

  lemma AtLeastOne(x: int, n: int)
    requires x >= 1 && n > 0
    ensures x * n >= n
  {
  }

  lemma QuotMonotone(x: int, y: int, n: int)
    requires n > 0 && x <= y
    ensures Quot(x, n) <= Quot(y, n)
  {
    if x >= 0 || y <= 0 {
      Cancel(Quot(x, n), Quot(y, n), n);
    } else {
      Cancel(Quot(x, n), 0, n);
      Cancel(0, Quot(y, n), n);
    }
  }

  // q is between lo and hi whenever x is between lo * n and hi * n.
  lemma QuotBetween(x: int, n: int, lo: int, hi: int)
    requires n > 0 && lo * n <= x <= hi * n
    ensures lo <= Quot(x, n) <= hi
  {
    Cancel(lo, Quot(x, n), n);
    Cancel(Quot(x, n), hi, n);
  }

  // Truncated quotients of numbers a whole SPAN apart differ, for any divisor
  // that is itself an int64.
  lemma QuotSeparates(x: int, k: int, n: int)
    requires 0 < n <= MAX && k != 0
    ensures Quot(x, n) != Quot(x + k * SPAN, n)
  {
    if k > 0 { AtLeastOne(k, SPAN); } else { AtLeastOne(-k, SPAN); }
  }
}
