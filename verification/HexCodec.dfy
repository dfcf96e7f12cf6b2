/** Numbers and bytes as hexadecimal digits, the way the debugger protocol writes them. */
module HexCodec {
  import opened Common
  import opened Buffers
  import opened LittleEndian
  import ModArith

  const U64_RANGE: nat := 0x1_0000_0000_0000_0000

  type nybble = n: nat | n < 16

  /** A character that is no digit counts as zero. */
  function DecodeNybble(c: byte): nybble {
    if 0x30 <= c <= 0x39 then c - 0x30
    else if 0x61 <= c <= 0x66 then c - 0x61 + 10
    else if 0x41 <= c <= 0x46 then c - 0x41 + 10
    else 0
  }

  function EncodeNybble(n: nybble): byte {
    if n < 10 then 0x30 + n else 0x61 + n - 10
  }

  predicate LowerHex(c: byte) { 0x30 <= c <= 0x39 || 0x61 <= c <= 0x66 }

  function DecodeByte(h: byte, l: byte): byte { 16 * DecodeNybble(h) + DecodeNybble(l) }

  lemma NybbleRoundtrip(n: nybble)
    ensures DecodeNybble(EncodeNybble(n)) == n && LowerHex(EncodeNybble(n))
  { }

  function Digits(b: byte): seq<byte> { [EncodeNybble(b / 16), EncodeNybble(b % 16)] }

  // ---------------------------------------------------------------- byte vectors

  function EncodeBytes(bs: seq<byte>): (s: seq<byte>)
    ensures |s| == 2 * |bs|
  {
    if bs == [] then [] else Digits(bs[0]) + EncodeBytes(bs[1..])
  }

  /** An odd digit at the end is dropped. */
  function DecodeBytes(s: seq<byte>): (bs: seq<byte>)
    ensures |bs| == |s| / 2
  {
    if |s| < 2 then [] else [DecodeByte(s[0], s[1])] + DecodeBytes(s[2..])
  }

  lemma {:induction false} BytesRoundtrip(bs: seq<byte>)
    ensures DecodeBytes(EncodeBytes(bs)) == bs
  {
    if bs != [] {
      NybbleRoundtrip(bs[0] / 16);
      NybbleRoundtrip(bs[0] % 16);
      assert EncodeBytes(bs)[2..] == EncodeBytes(bs[1..]);
      BytesRoundtrip(bs[1..]);
    }
  }

  lemma DigitsRoundtrip(h: byte, l: byte)
    ensures Digits(DecodeByte(h, l)) == [h, l] <==> LowerHex(h) && LowerHex(l)
  { }

  /** A text is recovered exactly when it is pairs of lower case digits. */
  lemma {:induction false} TextRoundtrip(s: seq<byte>)
    ensures EncodeBytes(DecodeBytes(s)) == s <==> |s| % 2 == 0 && forall c :: c in s ==> LowerHex(c)
  {
    if |s| >= 2 {
      var d := DecodeBytes(s);
      assert d[1..] == DecodeBytes(s[2..]);
      DigitsRoundtrip(s[0], s[1]);
      TextRoundtrip(s[2..]);
      assert s == [s[0], s[1]] + s[2..];
      assert EncodeBytes(d)[..2] == Digits(d[0]) && EncodeBytes(d)[2..] == EncodeBytes(d[1..]);
      assert s[..2] == [s[0], s[1]];
    }
  }

  // ---------------------------------------------------------------- integers

  /** The number a text denotes, kept in 64 bits. */
  function DecodeFrom(acc: nat, s: seq<byte>): nat
    decreases |s|
  {
    if s == [] then acc else DecodeFrom((acc * 16) % U64_RANGE + DecodeNybble(s[0]), s[1..])
  }

  function ByteAt(n: nat, j: nat): byte { (n / Power256(j)) % 256 }

  /** The low `size` bytes of `n`, most significant first. */
  function BigEndian(n: nat, size: nat): (bs: seq<byte>)
    ensures |bs| == size && forall k :: 0 <= k < size ==> bs[k] == ByteAt(n, size - 1 - k)
  {
    if size == 0 then [] else [ByteAt(n, size - 1)] + BigEndian(n, size - 1)
  }

  function NonZero(bs: seq<byte>): (r: seq<byte>)
    ensures |r| <= |bs|
  {
    if bs == [] then [] else (if bs[0] != 0 then [bs[0]] else []) + NonZero(bs[1..])
  }

  /** Size 0 writes the bytes that are not zero. */
  function EncodeInt(n: nat, size: nat): seq<byte> {
    EncodeBytes(if size == 0 then NonZero(BigEndian(n, 8)) else BigEndian(n, size))
  }

  /** The number whose bytes, most significant first, are `bs`. */
  function BigValue(bs: seq<byte>): nat {
    if bs == [] then 0 else bs[0] * Power256(|bs| - 1) + BigValue(bs[1..])
  }

  lemma MulGrows(a: nat, b: nat, m: nat)
    requires a <= b
    ensures a * m <= b * m
  { }

  lemma {:induction false} BigValueBounded(bs: seq<byte>)
    ensures BigValue(bs) < Power256(|bs|)
  {
    if bs != [] {
      BigValueBounded(bs[1..]);
      MulGrows(bs[0], 255, Power256(|bs| - 1));
    }
  }

  lemma {:induction false} PowerGrows(a: nat, b: nat)
    requires a <= b
    ensures Power256(a) <= Power256(b)
    decreases b
  {
    if a < b {
      PowerGrows(a, b - 1);
      MulGrows(1, 256, Power256(b - 1));
    }
  }

  /** Decoding the digits of a byte shifts it in. */
  lemma DecodeDigits(acc: nat, b: byte, rest: seq<byte>)
    requires 256 * acc + b < U64_RANGE
    ensures DecodeFrom(acc, Digits(b) + rest) == DecodeFrom(256 * acc + b, rest)
  {
    var s := Digits(b) + rest;
    NybbleRoundtrip(b / 16);
    NybbleRoundtrip(b % 16);
    assert s[1..] == [EncodeNybble(b % 16)] + rest && s[1..][1..] == rest;
    assert (acc * 16) % U64_RANGE == acc * 16;
    var mid := acc * 16 + b / 16;
    assert (mid * 16) % U64_RANGE == mid * 16;
    assert mid * 16 + b % 16 == 256 * acc + b;
  }

  lemma ShiftIn(acc: nat, b: nat, m: nat, v: nat)
    requires m > 0
    ensures acc * (256 * m) + (b * m + v) == (256 * acc + b) * m + v
    ensures 256 * acc + b <= (256 * acc + b) * m + v
  { }

  /** Decoding the digits of at most eight bytes gives their number. */
  lemma {:induction false} DecodeEncoded(acc: nat, bs: seq<byte>)
    requires acc * Power256(|bs|) + BigValue(bs) < U64_RANGE
    ensures DecodeFrom(acc, EncodeBytes(bs)) == acc * Power256(|bs|) + BigValue(bs)
    decreases |bs|
  {
    if bs != [] {
      ShiftIn(acc, bs[0], Power256(|bs| - 1), BigValue(bs[1..]));
      DecodeDigits(acc, bs[0], EncodeBytes(bs[1..]));
      DecodeEncoded(256 * acc + bs[0], bs[1..]);
    }
  }

  lemma {:induction false} BigEndianValue(n: nat, size: nat)
    ensures BigValue(BigEndian(n, size)) == n % Power256(size)
  {
    if size > 0 {
      var bs := BigEndian(n, size);
      var m := Power256(size - 1);
      assert bs[1..] == BigEndian(n, size - 1);
      BigEndianValue(n, size - 1);
      TopByte(n, m);
    }
  }

  lemma Distributes(q: nat, r: nat, m: nat)
    ensures (256 * q + r) * m == q * (256 * m) + r * m
  { }

  lemma TopByte(n: nat, m: nat)
    requires m > 0
    ensures n % (256 * m) == ((n / m) % 256) * m + n % m
  {
    var d, low := n / m, n % m;
    var q, r := d / 256, d % 256;
    assert n == d * m + low && d == 256 * q + r;
    Distributes(q, r, m);
    MulGrows(r, 255, m);
    ModArith.ModUnique(n, q, r * m + low, 256 * m);
  }

  lemma EightBytesFit(bs: seq<byte>)
    requires |bs| <= 8
    ensures BigValue(bs) < U64_RANGE
  {
    PowersKnown();
    BigValueBounded(bs);
    PowerGrows(|bs|, 8);
  }

  /** A number written in `size` bytes is read back modulo the range of that size. */
  lemma IntRoundtrip(n: u64, size: nat)
    requires 1 <= size <= 8
    ensures DecodeFrom(0, EncodeInt(n, size)) == n % Power256(size)
  {
    var bs := BigEndian(n, size);
    EightBytesFit(bs);
    DecodeEncoded(0, bs);
    BigEndianValue(n, size);
  }

  /** No zero below a byte that is not zero, in bytes listed most significant first. */
  ghost predicate NoGap(bs: seq<byte>) {
    forall i, j :: 0 <= i < j < |bs| && bs[i] != 0 ==> bs[j] != 0
  }

  lemma {:induction false} NonZeroAll(bs: seq<byte>)
    ensures NonZero(bs) == bs <==> forall j :: 0 <= j < |bs| ==> bs[j] != 0
    ensures NonZero(bs) == bs || |NonZero(bs)| < |bs|
  {
    if bs != [] {
      NonZeroAll(bs[1..]);
      assert bs == [bs[0]] + bs[1..];
      if forall j :: 0 <= j < |bs[1..]| ==> bs[1..][j] != 0 {
        assert forall j :: 1 <= j < |bs| ==> bs[j] == bs[1..][j - 1];
      } else {
        var j :| 0 <= j < |bs[1..]| && bs[1..][j] == 0;
        assert bs[j + 1] == 0;
      }
    }
  }

  /** Dropping the zero bytes keeps the number exactly when no zero has a byte above it that is not zero. */
  lemma {:induction false} DroppingZeros(bs: seq<byte>)
    ensures BigValue(NonZero(bs)) == BigValue(bs) <==> NoGap(bs)
  {
    if bs != [] {
      var rest := bs[1..];
      assert bs == [bs[0]] + rest;
      if bs[0] == 0 {
        assert NonZero(bs) == NonZero(rest);
        DroppingZeros(rest);
        assert NoGap(bs) <==> NoGap(rest) by {
          assert forall j :: 0 <= j < |rest| ==> rest[j] == bs[j + 1];
          if NoGap(rest) {
            forall i, j | 0 <= i < j < |bs| && bs[i] != 0 ensures bs[j] != 0 {
              assert rest[i - 1] != 0 && rest[j - 1] == bs[j];
            }
          }
        }
      } else {
        NonZeroAll(rest);
        HeadNotZero(bs);
      }
    }
  }

  lemma HeadNotZero(bs: seq<byte>)
    requires bs != [] && bs[0] != 0
    requires NonZero(bs[1..]) == bs[1..] <==> forall j :: 0 <= j < |bs[1..]| ==> bs[1..][j] != 0
    requires NonZero(bs[1..]) == bs[1..] || |NonZero(bs[1..])| < |bs[1..]|
    ensures BigValue(NonZero(bs)) == BigValue(bs) <==> NoGap(bs)
  {
    var rest := bs[1..];
    assert forall j :: 0 <= j < |rest| ==> rest[j] == bs[j + 1];
    if NonZero(rest) == rest {
      assert NonZero(bs) == bs;
      assert forall j :: 1 <= j < |bs| ==> bs[j] == rest[j - 1];
    } else {
      var j :| 0 <= j < |rest| && rest[j] == 0;
      assert bs[0] != 0 && bs[j + 1] == 0;
      Shorter(bs, NonZero(bs));
    }
  }

  lemma Shorter(bs: seq<byte>, fewer: seq<byte>)
    requires |fewer| < |bs| && bs[0] != 0
    ensures BigValue(fewer) < BigValue(bs)
  {
    BigValueBounded(fewer);
    PowerGrows(|fewer|, |bs| - 1);
    MulGrows(1, bs[0], Power256(|bs| - 1));
  }

  /** As size 0 writes it, a number is read back exactly when none of its bytes below the top one is zero. */
  lemma SizeZeroRoundtrip(n: u64)
    ensures DecodeFrom(0, EncodeInt(n, 0)) == n <==>
            forall i, j :: 0 <= i < j < 8 && ByteAt(n, j) != 0 ==> ByteAt(n, i) != 0
  {
    var bs := BigEndian(n, 8);
    DecodeWithoutZeros(bs);
    WholeNumber(n);
    DroppingZeros(bs);
    GapsByByte(n, bs);
  }

  lemma DecodeWithoutZeros(bs: seq<byte>)
    requires |bs| == 8
    ensures DecodeFrom(0, EncodeBytes(NonZero(bs))) == BigValue(NonZero(bs))
  {
    EightBytesFit(NonZero(bs));
    DecodeEncoded(0, NonZero(bs));
  }

  lemma WholeNumber(n: u64)
    ensures BigValue(BigEndian(n, 8)) == n
  {
    BigEndianValue(n, 8);
    PowersKnown();
  }

  lemma GapsByByte(n: nat, bs: seq<byte>)
    requires |bs| == 8 && forall k :: 0 <= k < 8 ==> bs[k] == ByteAt(n, 7 - k)
    ensures NoGap(bs) <==> forall i, j :: 0 <= i < j < 8 && ByteAt(n, j) != 0 ==> ByteAt(n, i) != 0
  {
    if NoGap(bs) {
      forall i, j | 0 <= i < j < 8 && ByteAt(n, j) != 0 ensures ByteAt(n, i) != 0 {
        assert bs[7 - j] == ByteAt(n, j) && bs[7 - i] == ByteAt(n, i);
      }
    } else {
      var i, j :| 0 <= i < j < 8 && bs[i] != 0 && bs[j] == 0;
      assert ByteAt(n, 7 - i) != 0 && ByteAt(n, 7 - j) == 0;
    }
  }

  // ---------------------------------------------------------------- the loops

  /** The digits of the low `k` bytes of `n` from the top, without zero bytes if they are skipped. */
  function Tail(n: nat, k: nat, skipZeros: bool): seq<byte> {
    EncodeBytes(if skipZeros then NonZero(BigEndian(n, k)) else BigEndian(n, k))
  }

  lemma TailNext(n: nat, k: nat, skipZeros: bool, before: seq<byte>)
    requires k > 0
    ensures var b := ByteAt(n, k - 1);
            before + Tail(n, k, skipZeros) ==
            (if skipZeros && b == 0 then before else before + Digits(b)) + Tail(n, k - 1, skipZeros)
  {
    var b := ByteAt(n, k - 1);
    var rest := BigEndian(n, k - 1);
    assert BigEndian(n, k) == [b] + rest && BigEndian(n, k)[1..] == rest;
    EncodeCons(b, if skipZeros then NonZero(rest) else rest);
    Associates(before, Digits(b), Tail(n, k - 1, skipZeros));
    if skipZeros && b == 0 { assert NonZero(BigEndian(n, k)) == NonZero(rest); }
  }

  lemma EncodeCons(b: byte, bs: seq<byte>)
    ensures EncodeBytes([b] + bs) == Digits(b) + EncodeBytes(bs)
  { }

  lemma Associates(a: seq<byte>, b: seq<byte>, c: seq<byte>)
    ensures a + (b + c) == (a + b) + c
  { }

  /** How many bytes are looked at; size 0 stands for a whole word. */
  function Width(size: nat): nat { if size == 0 then 8 else size }

  /** Writes `n` byte by byte from the top; size 0 skips the bytes that are zero. */
  method Encode(n: u64, size: nat, dest: Buffer)
    requires size <= 8 && dest.Valid() && dest.limit.None?
    modifies dest, dest.data
    ensures dest.Valid() && (dest.data == old(dest.data) || fresh(dest.data))
    ensures dest.Contents() == old(dest.Contents()) + EncodeInt(n, size)
  {
    var k := Width(size);
    ghost var whole := dest.Contents() + Tail(n, k, size == 0);
    while k > 0
      invariant dest.Valid() && (dest.data == old(dest.data) || fresh(dest.data))
      invariant dest.Contents() + Tail(n, k, size == 0) == whole
    {
      var b := ByteAt(n, k - 1);
      TailNext(n, k, size == 0, dest.Contents());
      if size != 0 || b != 0 {
        var ok := dest.Write(Digits(b));
      }
      k := k - 1;
    }
    assert dest.Contents() + [] == dest.Contents();
  }

  method EncodeData(p: seq<byte>, dest: Buffer)
    requires dest.Valid() && dest.limit.None?
    modifies dest, dest.data
    ensures dest.Valid() && (dest.data == old(dest.data) || fresh(dest.data))
    ensures dest.Contents() == old(dest.Contents()) + EncodeBytes(p)
  {
    ghost var whole := dest.Contents() + EncodeBytes(p);
    var i := 0;
    assert p[0..] == p;
    while i < |p|
      invariant 0 <= i <= |p|
      invariant dest.Valid() && (dest.data == old(dest.data) || fresh(dest.data))
      invariant dest.Contents() + EncodeBytes(p[i..]) == whole
    {
      assert p[i..][1..] == p[i + 1..];
      Associates(dest.Contents(), Digits(p[i]), EncodeBytes(p[i + 1..]));
      var ok := dest.Write(Digits(p[i]));
      i := i + 1;
    }
    assert dest.Contents() + [] == dest.Contents();
  }

  /** What reading up to a separator gives, from a number read so far: the number, and what follows the separator. */
  function Separated(acc: nat, s: seq<byte>, sep: byte): (nat, seq<byte>)
    decreases |s|
  {
    if s == [] then (acc, []) else if s[0] == sep then (acc, s[1..])
    else Separated((acc * 16) % U64_RANGE + DecodeNybble(s[0]), s[1..], sep)
  }

  /** Reads digits up to a separator, which is consumed, or to the end. */
  method DecodeWithSeparator(sep: byte, packet: Buffer) returns (out: nat)
    requires packet.Valid()
    modifies packet`readHead
    ensures packet.Valid() && (out, packet.Contents()) == Separated(0, old(packet.Contents()), sep)
  {
    out := 0;
    ghost var whole := Separated(0, packet.Contents(), sep);
    var c := packet.Peek();
    while c.Some? && c.value != sep
      invariant packet.Valid() && c == if packet.Contents() == [] then None else Some(packet.Contents()[0])
      invariant Separated(out, packet.Contents(), sep) == whole
      decreases |packet.Contents()|
    {
      out := (out * 16) % U64_RANGE + DecodeNybble(c.value);
      packet.MarkRead(1);
      c := packet.Peek();
    }
    if c.Some? {
      packet.MarkRead(1);
    }
  }

  method Decode(packet: Buffer) returns (out: nat)
    requires packet.Valid()
    modifies packet`readHead
    ensures packet.Valid() && packet.Contents() == [] && out == DecodeFrom(0, old(packet.Contents()))
  {
    out := 0;
    var c := packet.Peek();
    while c.Some?
      invariant packet.Valid() && c == if packet.Contents() == [] then None else Some(packet.Contents()[0])
      invariant DecodeFrom(0, old(packet.Contents())) == DecodeFrom(out, packet.Contents())
      decreases |packet.Contents()|
    {
      out := (out * 16) % U64_RANGE + DecodeNybble(c.value);
      packet.MarkRead(1);
      c := packet.Peek();
    }
  }

  /** Reads pairs of digits; a single digit at the end is consumed and dropped. */
  method DecodeData(packet: Buffer) returns (out: seq<byte>)
    requires packet.Valid()
    modifies packet`readHead
    ensures packet.Valid() && packet.Contents() == [] && out == DecodeBytes(old(packet.Contents()))
  {
    out := [];
    ghost var whole := DecodeBytes(packet.Contents());
    var h := packet.Peek();
    while h.Some?
      invariant packet.Valid() && h == if packet.Contents() == [] then None else Some(packet.Contents()[0])
      invariant out + DecodeBytes(packet.Contents()) == whole
      decreases |packet.Contents()|
    {
      DecodeNext(out, packet.Contents());
      packet.MarkRead(1);
      var l := packet.Peek();
      if l.None? { return; }
      packet.MarkRead(1);
      out := out + [DecodeByte(h.value, l.value)];
      h := packet.Peek();
    }
  }

  lemma DecodeNext(out: seq<byte>, s: seq<byte>)
    ensures |s| >= 2 ==> out + DecodeBytes(s) == (out + [DecodeByte(s[0], s[1])]) + DecodeBytes(s[1..][1..])
    ensures |s| < 2 ==> out + DecodeBytes(s) == out
  {
    if |s| >= 2 {
      assert s[1..][1..] == s[2..];
      Associates(out, [DecodeByte(s[0], s[1])], DecodeBytes(s[2..]));
    } else {
      assert DecodeBytes(s) == [];
    }
  }

  lemma {:induction false} SeparatedIs(acc: nat, text: seq<byte>, sep: byte, rest: seq<byte>)
    requires sep !in text
    ensures Separated(acc, text + [sep] + rest, sep) == (DecodeFrom(acc, text), rest)
    decreases |text|
  {
    var s := text + [sep] + rest;
    if text == [] {
      assert s[0] == sep && s[1..] == rest;
    } else {
      assert s[0] == text[0] && s[1..] == text[1..] + [sep] + rest;
      SeparatedIs((acc * 16) % U64_RANGE + DecodeNybble(s[0]), text[1..], sep, rest);
    }
  }

  /** A number followed by a separator that is no lower case digit is read back, and what follows the separator is left. */
  lemma SeparatedRoundtrip(n: u64, size: nat, sep: byte, rest: seq<byte>)
    requires 1 <= size <= 8 && !LowerHex(sep)
    ensures Separated(0, EncodeInt(n, size) + [sep] + rest, sep) == (n % Power256(size), rest)
  {
    EncodedIsHex(BigEndian(n, size));
    SeparatedIs(0, EncodeInt(n, size), sep, rest);
    IntRoundtrip(n, size);
  }

  lemma {:induction false} EncodedIsHex(bs: seq<byte>)
    ensures forall c :: c in EncodeBytes(bs) ==> LowerHex(c)
  {
    if bs != [] {
      NybbleRoundtrip(bs[0] / 16);
      NybbleRoundtrip(bs[0] % 16);
      EncodedIsHex(bs[1..]);
    }
  }
}
