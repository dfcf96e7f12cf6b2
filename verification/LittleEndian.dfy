/** Unsigned integers as bytes, least significant first, as the machines on both sides store them. */
module LittleEndian {
  import opened Common
  import ModArith

  type u32 = n: nat | n < 0x1_0000_0000
  type u64 = n: nat | n < 0x1_0000_0000_0000_0000

  function Power256(w: nat): (r: nat)
    ensures r > 0
  {
    if w == 0 then 1 else 256 * Power256(w - 1)
  }

  lemma PowersKnown()
    ensures Power256(1) == 0x100 && Power256(2) == 0x1_0000 && Power256(4) == 0x1_0000_0000
    ensures Power256(8) == 0x1_0000_0000_0000_0000
  { }

  /** Byte `i` of a number, counted from the least significant. */
  function Digit(n: nat, i: nat): byte
    decreases i
  {
    if i == 0 then n % 256 else Digit(n / 256, i - 1)
  }

  /** Byte `i` counts powers of 256. */
  lemma {:induction false} DigitIs(n: nat, i: nat)
    ensures Digit(n, i) == n / Power256(i) % 256
    decreases i
  {
    if i > 0 {
      DigitIs(n / 256, i - 1);
      DivTwice(n, Power256(i - 1));
    }
  }

  lemma DivTwice(n: nat, m: nat)
    requires m > 0
    ensures n / 256 / m == n / (256 * m)
  {
    var q, r := n / 256 / m, (n / 256) % m;
    assert n / 256 == q * m + r;
    var rest := n % 256 + 256 * r;
    assert n == q * (256 * m) + rest;
    ModArith.DivUnique(n, q, rest, 256 * m);
  }

  function Bytes(n: nat, w: nat): (s: seq<byte>)
    ensures |s| == w
  {
    seq(w, i requires 0 <= i < w => Digit(n, i))
  }

  lemma BytesCons(n: nat, w: nat)
    requires w > 0
    ensures Bytes(n, w) == [n % 256] + Bytes(n / 256, w - 1)
  { }

  function Value(s: seq<byte>): nat {
    if s == [] then 0 else s[0] + 256 * Value(s[1..])
  }

  /** Storing a number in `w` bytes keeps its remainder. */
  lemma {:induction false} ValueOfBytes(n: nat, w: nat)
    ensures Value(Bytes(n, w)) == n % Power256(w)
  {
    if w > 0 {
      BytesCons(n, w);
      assert Bytes(n, w)[1..] == Bytes(n / 256, w - 1);
      ValueOfBytes(n / 256, w - 1);
      SplitRemainder(n, Power256(w - 1));
    }
  }

  lemma SplitRemainder(n: nat, m: nat)
    requires m > 0
    ensures n % (256 * m) == n % 256 + 256 * ((n / 256) % m)
  {
    var q, r := (n / 256) / m, (n / 256) % m;
    assert n / 256 == q * m + r;
    assert n == 256 * (q * m + r) + n % 256;
    var rest := n % 256 + 256 * r;
    assert n == q * (256 * m) + rest;
    ModArith.ModUnique(n, q, rest, 256 * m);
  }

  lemma {:induction false} ValueBounded(s: seq<byte>)
    ensures Value(s) < Power256(|s|)
  {
    if s != [] { ValueBounded(s[1..]); }
  }

  lemma {:induction false} BytesOfValue(s: seq<byte>)
    ensures Bytes(Value(s), |s|) == s
  {
    if s != [] {
      BytesOfValue(s[1..]);
      BytesCons(Value(s), |s|);
    }
  }

  lemma FitsWidth(n: nat, w: nat)
    requires n < Power256(w)
    ensures Value(Bytes(n, w)) == n
  {
    ValueOfBytes(n, w);
    ModArith.ModUnique(n, 0, n, Power256(w));
  }
}
