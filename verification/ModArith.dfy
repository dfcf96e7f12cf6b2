/** The few facts about remainders that the circular index needs. */
module ModArith {
  function Pow2(e: nat): (r: int)
    ensures r >= 1
  {
    if e == 0 then 1 else 2 * Pow2(e - 1)
  }

  lemma {:induction false} Pow2Splits(d: nat, e: nat)
    requires d <= e
    ensures Pow2(e) == Pow2(e - d) * Pow2(d)
  {
    if d > 0 {
      Pow2Splits(d - 1, e);
      Pow2Halves(e - d);
    }
  }

  lemma Pow2Halves(e: nat)
    ensures Pow2(e + 1) == 2 * Pow2(e)
  { }

  lemma Pow2Known()
    ensures Pow2(5) == 32 && Pow2(59) == 0x800_0000_0000_0000
  {
    assert Pow2(5) == 32;
    assert Pow2(10) == 1024;
    Pow2Splits(10, 20);
    Pow2Splits(10, 30);
    Pow2Splits(20, 50);
    assert Pow2(9) == 512;
    Pow2Splits(9, 59);
  }

  lemma ModUnique(x: int, q: int, r: int, m: int)
    requires m > 0 && x == q * m + r && 0 <= r < m
    ensures x % m == r
  {
    var q' := x / m;
    var r' := x % m;
    assert (q - q') * m == r' - r;
    if q > q' {
      assert (q - q') * m >= m by { MulAtLeast(q - q', m); }
    } else if q < q' {
      assert (q' - q) * m >= m by { MulAtLeast(q' - q, m); }
    }
  }

  lemma DivUnique(x: int, q: int, r: int, m: int)
    requires m > 0 && x == q * m + r && 0 <= r < m
    ensures x / m == q
  {
    var q' := x / m;
    ModUnique(x, q, r, m);
    assert (q - q') * m == 0;
    if q > q' {
      MulAtLeast(q - q', m);
    } else if q < q' {
      MulAtLeast(q' - q, m);
    }
  }

  lemma MulAtLeast(k: int, m: int)
    requires k >= 1 && m > 0
    ensures k * m >= m
  { }

  /** Adding a multiple does not change a remainder. */
  lemma ModShift(x: int, k: int, m: int)
    requires m > 0
    ensures (x + k * m) % m == x % m
  {
    assert x + k * m == (x / m + k) * m + x % m;
    ModUnique(x + k * m, x / m + k, x % m, m);
  }

  lemma ModOfMod(x: int, k: int, m: int)
    requires m > 0 && k > 0
    ensures k * m > 0 && (x % (k * m)) % m == x % m
  {
    MulAtLeast(k, m);
    var q := x / (k * m);
    assert x % (k * m) == x + (-(q * k)) * m;
    ModShift(x, -(q * k), m);
  }

  lemma ModAdd(x: int, y: int, m: int)
    requires m > 0
    ensures (x % m + y) % m == (x + y) % m
    ensures (y + x % m) % m == (x + y) % m
  {
    assert x % m + y == x + y + (-(x / m)) * m;
    ModShift(x + y, -(x / m), m);
  }

  /** Two numbers less than `m` apart with the same remainder are equal. */
  lemma ModInjective(x: int, y: int, m: int)
    requires m > 0 && x % m == y % m && -m < x - y < m
    ensures x == y
  {
    assert x - y == (x / m - y / m) * m;
    if x / m > y / m { MulAtLeast(x / m - y / m, m); }
    if x / m < y / m { MulAtLeast(y / m - x / m, m); }
  }

  /** Two remainders, the second to a larger modulus, add up like the numbers. */
  lemma ModSum(t: int, x: int, sum: int, offset: int, k: int, m: int)
    requires m > 0 && k > 0 && k * m > 0 && offset == x % (k * m) && sum == t + x
    ensures (t % m + offset) % m == sum % m
  {
    ModOfMod(x, k, m);
    ModAdd(t, offset, m);
    ModAdd(offset, t, m);
    ModAdd(x, t, m);
  }
}
