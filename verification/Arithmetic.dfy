/** Division, remainder and alignment, for the offsets of qemu-img.c. */
module Arithmetic {

  function Min(a: int, b: int): (m: int)
    ensures m <= a && m <= b && (m == a || m == b)
  {
    if a <= b then a else b
  }

  function Max(a: int, b: int): (m: int)
    ensures m >= a && m >= b && (m == a || m == b)
  {
    if a >= b then a else b
  }

  lemma MulAtLeast(c: nat, d: int)
    requires d >= 1
    ensures c * d >= c
  {
  }

  lemma Distribute(c: int, x: int, y: int)
    ensures c * x - c * y == c * (x - y)
  {
  }

  lemma DivModUnique(a: int, c: int, q: int, r: int)
    requires c > 0 && a == c * q + r && 0 <= r < c
    ensures a / c == q && a % c == r
  {
    var q', r' := a / c, a % c;
    assert a == c * q' + r';
    Distribute(c, q, q');
    Distribute(c, q', q);
    if q > q' {
      MulAtLeast(c, q - q');
    } else if q < q' {
      MulAtLeast(c, q' - q);
    }
  }

  /** Adding a multiple does not change the remainder. */
  lemma AddMultiple(a: int, k: int, c: int)
    requires c > 0
    ensures (a + c * k) % c == a % c && (a + c * k) / c == a / c + k
  {
    Distribute(c, a / c + k, k);
    DivModUnique(a + c * k, c, a / c + k, a % c);
  }

  lemma MultipleMod(k: int, c: int)
    requires c > 0
    ensures (c * k) % c == 0
  {
    AddMultiple(0, k, c);
  }

  lemma StepMultiple(i: int, c: int)
    requires c > 0 && i % c == 0
    ensures (i + c) % c == 0
  {
    AddMultiple(i, 1, c);
  }

  /** There is one multiple of c in any c consecutive numbers. */
  lemma NextMultiple(i: int, k: int, c: int)
    requires c > 0 && i % c == 0 && k % c == 0 && i <= k < i + c
    ensures k == i
  {
    DivModUnique(k, c, i / c, k - i);
  }

  lemma SumMod(x: int, y: int, c: int)
    requires c > 0 && x % c == 0
    ensures (x + y) % c == y % c
  {
    AddMultiple(y, x / c, c);
  }

  /** QEMU_ALIGN_DOWN. */
  function AlignDown(x: int, c: int): int
    requires c > 0
  {
    x - x % c
  }

  /** QEMU_ALIGN_UP. */
  function AlignUp(x: int, c: int): int
    requires c > 0
  {
    AlignDown(x + c - 1, c)
  }

  lemma AlignDownIsMultiple(x: int, c: int)
    requires c > 0
    ensures AlignDown(x, c) % c == 0 && AlignDown(x, c) <= x < AlignDown(x, c) + c
  {
    assert AlignDown(x, c) == c * (x / c);
    MultipleMod(x / c, c);
  }

  lemma AlignUpIsMultiple(x: int, c: int)
    requires c > 0
    ensures AlignUp(x, c) % c == 0 && x <= AlignUp(x, c) < x + c
  {
    AlignDownIsMultiple(x + c - 1, c);
  }

  /** DIV_ROUND_UP. */
  function DivRoundUp(x: nat, c: nat): nat
    requires c > 0
  {
    (x + c - 1) / c
  }

  lemma DivRoundUpBounds(x: nat, c: nat)
    requires c > 0
    ensures c * DivRoundUp(x, c) - c < x <= c * DivRoundUp(x, c) || (x == 0 && DivRoundUp(x, c) == 0)
  {
    var r := DivRoundUp(x, c);
    assert x + c - 1 == c * r + (x + c - 1) % c;
  }
}
