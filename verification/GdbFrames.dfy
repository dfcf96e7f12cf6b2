/** What frames are on the wire: the text of a frame, its checksum as a sum of bytes, and what a changed byte does to it. */
module GdbFrames {
  import opened Common
  import opened HexCodec
  import opened GdbPackets
  import LittleEndian

  // ---------------------------------------------------------------- digits

  const LOWER := "0123456789abcdef"
  const UPPER := "0123456789ABCDEF"

  /** A digit is written in lower case, and read in either case; what is no digit reads as zero. */
  lemma DigitsAreHex(n: nybble, c: byte)
    ensures EncodeNybble(n) == LOWER[n] as int
    ensures c == LOWER[n] as int || c == UPPER[n] as int ==> DecodeNybble(c) == n
    ensures DecodeNybble(c) != 0 ==>
              c == LOWER[DecodeNybble(c)] as int || c == UPPER[DecodeNybble(c)] as int
  { }

  // ---------------------------------------------------------------- checksums

  function ByteSum(s: seq<byte>): nat { if s == [] then 0 else s[|s| - 1] + ByteSum(s[..|s| - 1]) }

  lemma {:induction false} ByteSumCons(c: byte, s: seq<byte>)
    ensures ByteSum([c] + s) == c + ByteSum(s)
  {
    if s == [] {
      assert [c] + s == [c] && [c][..0] == [];
    } else {
      assert ([c] + s)[..|s|] == [c] + s[..|s| - 1];
      ByteSumCons(c, s[..|s| - 1]);
    }
  }

  lemma {:induction false} ByteSumConcat(a: seq<byte>, b: seq<byte>)
    ensures ByteSum(a + b) == ByteSum(a) + ByteSum(b)
  {
    if b == [] {
      assert a + b == a;
    } else {
      assert (a + b)[..|a + b| - 1] == a + b[..|b| - 1];
      ByteSumConcat(a, b[..|b| - 1]);
    }
  }

  lemma Wraps(a: nat, b: nat)
    ensures (a % 256 + b) % 256 == (a + b) % 256
  { }

  /** The checksum is the sum of the bytes modulo 256. */
  lemma {:induction false} SumIsByteSum(from: byte, s: seq<byte>)
    ensures SumOf(from, s) == (from + ByteSum(s)) % 256
    decreases s
  {
    if s != [] {
      assert s == [s[0]] + s[1..];
      ByteSumCons(s[0], s[1..]);
      SumIsByteSum(Sum(from, s[0]), s[1..]);
      Wraps(from + s[0], ByteSum(s[1..]));
    }
  }

  /** Changing one byte changes the checksum. */
  lemma ChangedByteShows(s: seq<byte>, i: nat, c: byte)
    requires i < |s| && c != s[i]
    ensures ByteSum(s[i := c]) % 256 != ByteSum(s) % 256
  {
    var before, after := s[..i], s[i + 1..];
    assert s == (before + [s[i]]) + after && s[i := c] == (before + [c]) + after;
    ByteSumConcat(before + [s[i]], after);
    ByteSumConcat(before + [c], after);
    ByteSumConcat(before, [s[i]]);
    ByteSumConcat(before, [c]);
    ByteSumCons(s[i], []);
    ByteSumCons(c, []);
    assert [c] + [] == [c] && [s[i]] + [] == [s[i]];
  }

  // ---------------------------------------------------------------- escapes

  /** Escaping is the exclusive-or with 0x20. */
  lemma FlipIsXor(c: bv8)
    ensures Flip(c as int) == (c ^ 0x20) as int
  { }

  /** On the wire the four special bytes are a brace and the exclusive-or with 0x20, all others are themselves. */
  lemma EscapedText(c: bv8)
    ensures EscapeByte(c as int) ==
            if (c as int) in ['#' as int, '$' as int, '}' as int, '*' as int] then ['}' as int, (c ^ 0x20) as int] else [c as int]
  {
    FlipIsXor(c);
  }

  /** A frame is a dollar sign, the escaped payload, a number sign and the two lower case digits of the checksum. */
  lemma FrameText(payload: seq<byte>)
    ensures var sum := ByteSum(Body(payload)) % 256;
            Frame(payload) == ['$' as int] + Body(payload) + ['#' as int, LOWER[sum / 16] as int, LOWER[sum % 16] as int]
  {
    var sum := ByteSum(Body(payload)) % 256;
    SumIsByteSum(0, Body(payload));
    DigitsAreHex(sum / 16, 0);
    DigitsAreHex(sum % 16, 0);
    assert Frame(payload) == FrameWith(payload, EncodeNybble(sum / 16), EncodeNybble(sum % 16));
  }

  // ---------------------------------------------------------------- receiving

  /** Bytes of a body, escaped or not, are summed and answered by nothing. */
  lemma {:induction false} RunRaw(s: State, body: seq<byte>, cfg: Config)
    requires (s.mode.ReadingData? || s.mode.Escaped?) && SUM !in body
    ensures var l := Run(s, body, cfg);
            && l.events == [] && l.replies == [] && (l.state.mode.ReadingData? || l.state.mode.Escaped?)
            && l.state.checksum == (s.checksum + ByteSum(body)) % 256
    decreases body
  {
    if body != [] {
      assert body == [body[0]] + body[1..];
      ByteSumCons(body[0], body[1..]);
      StepRaw(s, body[0], cfg);
      RunRaw(Step(s, body[0], cfg).state, body[1..], cfg);
      assert Run(s, body, cfg).state == Run(Step(s, body[0], cfg).state, body[1..], cfg).state;
      Wraps(s.checksum + body[0], ByteSum(body[1..]));
    }
  }

  lemma StepRaw(s: State, c: byte, cfg: Config)
    requires (s.mode.ReadingData? || s.mode.Escaped?) && c != SUM
    ensures var o := Step(s, c, cfg);
            && o.event == None && o.reply == [] && (o.state.mode.ReadingData? || o.state.mode.Escaped?)
            && o.state.checksum == (s.checksum + c) % 256
  { }

  /** An unescaped byte stored as an `int` takes four bytes, the least significant first, with the sign extended. */
  lemma WidenedIsInt(c: byte)
    ensures |Widened(c)| == 4 && LittleEndian.Value(Widened(c)) == if c < 128 then c else 0x1_0000_0000 - (256 - c)
  {
    var fill: byte := if c < 128 then 0 else 255;
    assert [fill][1..] == [] && [fill, fill][1..] == [fill] && [fill, fill, fill][1..] == [fill, fill];
    assert Widened(c)[1..] == [fill, fill, fill];
    assert LittleEndian.Value([fill]) == fill && LittleEndian.Value([fill, fill]) == fill + 256 * fill;
  }

  /** A body without a number sign that does not end in the middle of an escape. */
  predicate WholeBody(body: seq<byte>, cfg: Config) {
    SUM !in body && Run(State(ReadingData, 0, []), body, cfg).state.mode.ReadingData?
  }

  /** A frame is accepted exactly when its digits are the sum of its bytes, and otherwise dropped or reported. */
  lemma AcceptedExactly(s: State, body: seq<byte>, h: byte, l: byte, cfg: Config)
    requires s.mode.WaitingOpen? && WholeBody(body, cfg)
    ensures var log := Run(s, ['$' as int] + (body + ['#' as int, h, l]), cfg);
            var good := 16 * DecodeNybble(h) + DecodeNybble(l) == ByteSum(body) % 256;
            && log.state.mode.WaitingOpen?
            && (good ==> |log.events| == 1 && log.events[0].Packet? && log.replies == if cfg.acks then ['+' as int] else [])
            && (!good ==> log.events == (if cfg.acks then [] else [BadChecksum]))
            && (!good ==> log.replies == if cfg.acks then ['-' as int] else [])
  {
    var start := State(ReadingData, 0, []);
    RunRaw(start, body, cfg);
    var full := Run(start, body, cfg).state;
    assert full.checksum == ByteSum(body) % 256;
    RunSingle(s, OPEN, cfg);
    Quietly(s, [OPEN], body + [SUM, h, l], start, cfg);
    Quietly(start, body, [SUM, h, l], full, cfg);
    DigitsDecide(full, h, l, cfg);
  }

  /** The two digits after the body. */
  lemma DigitsDecide(full: State, h: byte, l: byte, cfg: Config)
    requires full.mode.ReadingData?
    ensures var log := Run(full, [SUM, h, l], cfg); var good := 16 * DecodeNybble(h) + DecodeNybble(l) == full.checksum;
            && log.state.mode.WaitingOpen?
            && log.events == (if good then [Packet(full.message)] else if cfg.acks then [] else [BadChecksum])
            && log.replies == if !cfg.acks then [] else if good then ['+' as int] else ['-' as int]
  {
    RunTail(full, h, l, cfg);
  }

  /** A good frame in which one byte of the body was changed on the way, to another that is not a number sign, is refused. */
  lemma ChangedFrameRefused(s: State, body: seq<byte>, i: nat, c: byte, h: byte, l: byte, cfg: Config)
    requires s.mode.WaitingOpen? && i < |body| && c != body[i] && WholeBody(body, cfg) && WholeBody(body[i := c], cfg)
    requires var log := Run(s, ['$' as int] + (body + ['#' as int, h, l]), cfg); exists e :: e in log.events && e.Packet?
    ensures var log := Run(s, ['$' as int] + (body[i := c] + ['#' as int, h, l]), cfg); forall e :: e in log.events ==> !e.Packet?
  {
    AcceptedExactly(s, body, h, l, cfg);
    AcceptedExactly(s, body[i := c], h, l, cfg);
    ChangedByteShows(body, i, c);
  }

  /** Between frames only acknowledgements are passed over; a break and any other byte is reported at once. */
  lemma BetweenFrames(s: State, c: byte, cfg: Config)
    requires s.mode.WaitingOpen? && c != '$' as int
    ensures Run(s, [c], cfg) == Log(s, if c == '+' as int then [] else if c == 3 then [Interrupted] else [BadOpen], [])
  {
    RunSingle(s, c, cfg);
  }
}
