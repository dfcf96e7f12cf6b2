/** The packet layer of the debugger protocol: one byte at a time in, framed payloads out. */
module GdbPackets {
  import opened Common
  import opened HexCodec

  const OPEN: byte := 0x24
  const SUM: byte := 0x23
  const ESCAPE: byte := 0x7d
  const STAR: byte := 0x2a
  const PLUS: byte := 0x2b
  const MINUS: byte := 0x2d
  const BREAK: byte := 0x03

  datatype Mode = WaitingOpen | ReadingData | Escaped | Checksum0 | Checksum1(first: byte)

  datatype State = State(mode: Mode, checksum: byte, message: seq<byte>)

  /** What ends a call of `Process`. */
  datatype Event = Interrupted | BadOpen | BadChecksum | Packet(payload: seq<byte>)

  /** `acks` tells whether acknowledgements are enabled, `wide` whether an unescaped byte is stored as a whole `int`. */
  datatype Config = Config(acks: bool, wide: bool)

  datatype Out = Out(state: State, event: Option<Event>, reply: seq<byte>)

  function Flip(c: byte): byte { if (c / 32) % 2 == 0 then c + 32 else c - 32 }

  /** The bytes of a sign-extended `int`. */
  function Widened(c: byte): seq<byte> {
    var fill: byte := if c < 128 then 0 else 255;
    [c, fill, fill, fill]
  }

  function Unescaped(c: byte, wide: bool): seq<byte> { if wide then Widened(Flip(c)) else [Flip(c)] }

  function Sum(a: byte, c: byte): byte { (a + c) % 256 }

  function Step(s: State, c: byte, cfg: Config): Out {
    match s.mode
    case WaitingOpen =>
      if c == PLUS then Out(s, None, [])
      else if c == BREAK then Out(s, Some(Interrupted), [])
      else if c != OPEN then Out(s, Some(BadOpen), [])
      else Out(State(ReadingData, 0, []), None, [])
    case ReadingData =>
      if c == SUM then Out(s.(mode := Checksum0), None, [])
      else if c == ESCAPE then Out(s.(mode := Escaped, checksum := Sum(s.checksum, c)), None, [])
      else Out(s.(message := s.message + [c], checksum := Sum(s.checksum, c)), None, [])
    case Escaped =>
      Out(State(ReadingData, Sum(s.checksum, c), s.message + Unescaped(c, cfg.wide)), None, [])
    case Checksum0 => Out(s.(mode := Checksum1(c)), None, [])
    case Checksum1(first) =>
      var open := s.(mode := WaitingOpen);
      if DecodeByte(first, c) == s.checksum then Out(open, Some(Packet(s.message)), if cfg.acks then [PLUS] else [])
      else if cfg.acks then Out(open, None, [MINUS])
      else Out(open, Some(BadChecksum), [])
  }

  /** One call of `Process`: up to the first event. */
  datatype Scanned = Scanned(state: State, rest: seq<byte>, event: Option<Event>, replies: seq<byte>)

  function Scan(s: State, input: seq<byte>, cfg: Config): Scanned
    decreases input
  {
    if input == [] then Scanned(s, [], None, [])
    else
      var o := Step(s, input[0], cfg);
      if o.event.Some? then Scanned(o.state, input[1..], o.event, o.reply)
      else
        var r := Scan(o.state, input[1..], cfg);
        r.(replies := o.reply + r.replies)
  }

  /** Everything that happens on some input: the state after it, the events and the acknowledgements. */
  datatype Log = Log(state: State, events: seq<Event>, replies: seq<byte>)

  function Events(e: Option<Event>): seq<Event> { if e.Some? then [e.value] else [] }

  function Then(l: Log, m: Log): Log { Log(m.state, l.events + m.events, l.replies + m.replies) }

  function Run(s: State, input: seq<byte>, cfg: Config): Log
    decreases input
  {
    if input == [] then Log(s, [], [])
    else
      var o := Step(s, input[0], cfg);
      Then(Log(o.state, Events(o.event), o.reply), Run(o.state, input[1..], cfg))
  }

  /** Calling `Process` again and again amounts to handling the bytes one after the other. */
  lemma {:induction false} ScanIsRun(s: State, input: seq<byte>, cfg: Config)
    ensures var r := Scan(s, input, cfg);
            Run(s, input, cfg) == Then(Log(r.state, Events(r.event), r.replies), Run(r.state, r.rest, cfg)) &&
            (r.event.None? ==> r.rest == []) && (r.event.Some? ==> |r.rest| < |input|)
    decreases input
  {
    if input != [] {
      var o := Step(s, input[0], cfg);
      if o.event.None? {
        var r := Scan(o.state, input[1..], cfg);
        ScanIsRun(o.state, input[1..], cfg);
        ThenAssociates(Log(o.state, [], o.reply), Log(r.state, Events(r.event), r.replies), Run(r.state, r.rest, cfg));
        assert [] + Events(r.event) == Events(r.event);
      }
    }
  }

  lemma ThenAssociates(a: Log, b: Log, c: Log)
    ensures Then(Then(a, b), c) == Then(a, Then(b, c))
  { }

  /** The input may arrive in any two parts, and so in any number of them. */
  lemma {:induction false} RunConcat(s: State, a: seq<byte>, b: seq<byte>, cfg: Config)
    ensures Run(s, a + b, cfg) == Then(Run(s, a, cfg), Run(Run(s, a, cfg).state, b, cfg))
    decreases a
  {
    if a == [] {
      assert a + b == b;
      var m := Run(s, b, cfg);
      assert [] + m.events == m.events && [] + m.replies == m.replies;
    } else {
      assert (a + b)[1..] == a[1..] + b;
      var o := Step(s, a[0], cfg);
      RunConcat(o.state, a[1..], b, cfg);
      ThenAssociates(Log(o.state, Events(o.event), o.reply), Run(o.state, a[1..], cfg),
                     Run(Run(o.state, a[1..], cfg).state, b, cfg));
    }
  }

  /** A part of the input without an event or acknowledgement only changes the state. */
  lemma Quietly(s: State, a: seq<byte>, b: seq<byte>, t: State, cfg: Config)
    requires Run(s, a, cfg) == Log(t, [], [])
    ensures Run(s, a + b, cfg) == Run(t, b, cfg)
  {
    RunConcat(s, a, b, cfg);
    var m := Run(t, b, cfg);
    assert [] + m.events == m.events && [] + m.replies == m.replies;
  }

  lemma RunSingle(s: State, c: byte, cfg: Config)
    ensures var o := Step(s, c, cfg); Run(s, [c], cfg) == Log(o.state, Events(o.event), o.reply)
  { }

  // ---------------------------------------------------------------- frames

  predicate Special(c: byte) { c == SUM || c == OPEN || c == ESCAPE || c == STAR }

  function EscapeByte(c: byte): seq<byte> { if Special(c) then [ESCAPE, Flip(c)] else [c] }

  /** A payload as `Respond` writes it between the opening and the checksum. */
  function Body(payload: seq<byte>): seq<byte> {
    if payload == [] then [] else EscapeByte(payload[0]) + Body(payload[1..])
  }

  function SumOf(from: byte, s: seq<byte>): byte
    decreases s
  {
    if s == [] then from else SumOf(Sum(from, s[0]), s[1..])
  }

  function FrameWith(payload: seq<byte>, h: byte, l: byte): seq<byte> {
    [OPEN] + Body(payload) + [SUM, h, l]
  }

  function Frame(payload: seq<byte>): seq<byte> {
    var sum := SumOf(0, Body(payload));
    FrameWith(payload, EncodeNybble(sum / 16), EncodeNybble(sum % 16))
  }

  /** What the receiver stores for a payload. */
  function Stored(payload: seq<byte>, wide: bool): seq<byte> {
    if payload == [] then []
    else (if Special(payload[0]) && wide then Widened(payload[0]) else [payload[0]]) + Stored(payload[1..], wide)
  }

  lemma FlipTwice(c: byte)
    ensures Flip(Flip(c)) == c
    ensures Special(c) ==> Flip(c) != SUM
  { }

  /** Reading an escaped payload stores the payload and sums what was read. */
  lemma {:induction false} RunBody(s: State, payload: seq<byte>, cfg: Config)
    requires s.mode.ReadingData?
    ensures Run(s, Body(payload), cfg) ==
            Log(State(ReadingData, SumOf(s.checksum, Body(payload)), s.message + Stored(payload, cfg.wide)), [], [])
    decreases payload
  {
    if payload == [] {
      assert s.message + [] == s.message;
    } else {
      var c := payload[0];
      FlipTwice(c);
      var part := EscapeByte(c);
      var next := State(ReadingData, SumOf(s.checksum, part), s.message + Stored([c], cfg.wide));
      RunByte(s, c, cfg);
      Quietly(s, part, Body(payload[1..]), next, cfg);
      RunBody(next, payload[1..], cfg);
      SumConcat(s.checksum, part, Body(payload[1..]));
      StoredCons(s.message, c, payload[1..], cfg.wide);
      assert [c] + payload[1..] == payload;
    }
  }

  lemma StoredCons(before: seq<byte>, c: byte, rest: seq<byte>, wide: bool)
    ensures (before + Stored([c], wide)) + Stored(rest, wide) == before + Stored([c] + rest, wide)
  { }

  lemma RunEscaped(s: State, c: byte, cfg: Config)
    requires s.mode.ReadingData? && Special(c)
    ensures Run(s, EscapeByte(c), cfg) ==
            Log(State(ReadingData, SumOf(s.checksum, EscapeByte(c)), s.message + (if cfg.wide then Widened(c) else [c])), [], [])
  {
    FlipTwice(c);
    var mid := Step(s, ESCAPE, cfg).state;
    RunSingle(s, ESCAPE, cfg);
    RunSingle(mid, Flip(c), cfg);
    Quietly(s, [ESCAPE], [Flip(c)], mid, cfg);
    SumConcat(s.checksum, [ESCAPE], [Flip(c)]);
    assert EscapeByte(c) == [ESCAPE] + [Flip(c)];
    SumSingle(s.checksum, ESCAPE);
    SumSingle(mid.checksum, Flip(c));
  }

  lemma RunByte(s: State, c: byte, cfg: Config)
    requires s.mode.ReadingData?
    ensures Run(s, EscapeByte(c), cfg) ==
            Log(State(ReadingData, SumOf(s.checksum, EscapeByte(c)), s.message + Stored([c], cfg.wide)), [], [])
  {
    assert Stored([c], cfg.wide) == if Special(c) && cfg.wide then Widened(c) else [c];
    if Special(c) {
      RunEscaped(s, c, cfg);
    } else {
      RunSingle(s, c, cfg);
      SumSingle(s.checksum, c);
    }
  }

  lemma SumSingle(from: byte, c: byte)
    ensures SumOf(from, [c]) == Sum(from, c)
  { }

  lemma {:induction false} SumConcat(from: byte, a: seq<byte>, b: seq<byte>)
    ensures SumOf(from, a + b) == SumOf(SumOf(from, a), b)
    decreases a
  {
    if a == [] {
      assert a + b == b;
    } else {
      assert (a + b)[1..] == a[1..] + b;
      SumConcat(Sum(from, a[0]), a[1..], b);
    }
  }

  /** What the four bytes around the body do, once the body is read. */
  function Verdict(payload: seq<byte>, h: byte, l: byte, cfg: Config): Log {
    var sum := SumOf(0, Body(payload));
    var open := State(WaitingOpen, sum, Stored(payload, cfg.wide));
    if DecodeByte(h, l) == sum then Log(open, [Packet(open.message)], if cfg.acks then [PLUS] else [])
    else if cfg.acks then Log(open, [], [MINUS])
    else Log(open, [BadChecksum], [])
  }

  /** The opening and the body leave the sum and the stored payload, and the digits still to come. */
  lemma RunHead(s: State, payload: seq<byte>, tail: seq<byte>, cfg: Config)
    requires s.mode.WaitingOpen?
    ensures Run(s, [OPEN] + (Body(payload) + tail), cfg) ==
            Run(State(ReadingData, SumOf(0, Body(payload)), Stored(payload, cfg.wide)), tail, cfg)
  {
    var start := State(ReadingData, 0, []);
    RunBody(start, payload, cfg);
    assert [] + Stored(payload, cfg.wide) == Stored(payload, cfg.wide);
    RunSingle(s, OPEN, cfg);
    Quietly(s, [OPEN], Body(payload) + tail, start, cfg);
    Quietly(start, Body(payload), tail, State(ReadingData, SumOf(0, Body(payload)), Stored(payload, cfg.wide)), cfg);
  }

  /** A frame yields its payload when the checksum is right, and is dropped or refused when it is not. */
  lemma RunFrame(s: State, payload: seq<byte>, h: byte, l: byte, cfg: Config)
    requires s.mode.WaitingOpen?
    ensures Run(s, FrameWith(payload, h, l), cfg) == Verdict(payload, h, l, cfg)
  {
    assert FrameWith(payload, h, l) == [OPEN] + (Body(payload) + [SUM, h, l]);
    RunHead(s, payload, [SUM, h, l], cfg);
    RunTail(State(ReadingData, SumOf(0, Body(payload)), Stored(payload, cfg.wide)), h, l, cfg);
  }

  lemma RunTail(s: State, h: byte, l: byte, cfg: Config)
    requires s.mode.ReadingData?
    ensures Run(s, [SUM, h, l], cfg) ==
            var o := Step(s.(mode := Checksum1(h)), l, cfg); Log(o.state, Events(o.event), o.reply)
  {
    var s0 := s.(mode := Checksum0);
    var s1 := s.(mode := Checksum1(h));
    RunSingle(s, SUM, cfg);
    RunSingle(s0, h, cfg);
    RunSingle(s1, l, cfg);
    Quietly(s, [SUM], [h, l], s0, cfg);
    Quietly(s0, [h], [l], s1, cfg);
    assert [SUM, h, l] == [SUM] + [h, l] && [h, l] == [h] + [l];
  }

  // ---------------------------------------------------------------- sessions

  /** What a peer sends: acknowledgements and breaks between frames, and frames with any checksum digits. */
  datatype Item = Ack | Stop | Sent(payload: seq<byte>, h: byte, l: byte)

  function Wire(items: seq<Item>): seq<byte> {
    if items == [] then []
    else
      (match items[0] case Ack => [PLUS] case Stop => [BREAK] case Sent(p, h, l) => FrameWith(p, h, l)) + Wire(items[1..])
  }

  predicate Good(i: Item) { i.Sent? && DecodeByte(i.h, i.l) == SumOf(0, Body(i.payload)) }

  function Expected(i: Item, cfg: Config): seq<Event> {
    match i
    case Ack => []
    case Stop => [Interrupted]
    case Sent(p, _, _) => if Good(i) then [Packet(Stored(p, cfg.wide))] else if cfg.acks then [] else [BadChecksum]
  }

  function ExpectedAll(items: seq<Item>, cfg: Config): seq<Event> {
    if items == [] then [] else Expected(items[0], cfg) + ExpectedAll(items[1..], cfg)
  }

  function Acks(items: seq<Item>): seq<byte> {
    if items == [] then []
    else (if items[0].Sent? then [if Good(items[0]) then PLUS else MINUS] else []) + Acks(items[1..])
  }

  lemma RunItem(s: State, i: Item, cfg: Config)
    requires s.mode.WaitingOpen?
    ensures var l := Run(s, Wire([i]), cfg);
            l.state.mode.WaitingOpen? && l.events == Expected(i, cfg) && l.replies == if cfg.acks then Acks([i]) else []
  {
    assert [i][1..] == [];
    match i {
      case Sent(p, h, l) =>
        assert Wire([i]) == FrameWith(p, h, l);
        RunFrame(s, p, h, l, cfg);
        assert Acks([i]) == [if Good(i) then PLUS else MINUS];
      case _ =>
        assert Wire([i])[1..] == [];
    }
  }

  lemma ItemFirst(i: Item, rest: seq<Item>, cfg: Config)
    ensures Wire([i] + rest) == Wire([i]) + Wire(rest)
    ensures ExpectedAll([i] + rest, cfg) == Expected(i, cfg) + ExpectedAll(rest, cfg)
    ensures Acks([i] + rest) == Acks([i]) + Acks(rest)
  {
    assert ([i] + rest)[1..] == rest && [i][1..] == [];
  }

  /** Any session decodes to its good payloads in order, whatever came before a frame, good or bad. */
  lemma {:induction false} SessionDecodes(s: State, items: seq<Item>, cfg: Config)
    requires s.mode.WaitingOpen?
    ensures var l := Run(s, Wire(items), cfg);
            l.state.mode.WaitingOpen? && l.events == ExpectedAll(items, cfg) &&
            l.replies == if cfg.acks then Acks(items) else []
    decreases items
  {
    if items != [] {
      var i := items[0];
      ItemFirst(i, items[1..], cfg);
      assert items == [i] + items[1..];
      RunItem(s, i, cfg);
      RunConcat(s, Wire([i]), Wire(items[1..]), cfg);
      SessionDecodes(Run(s, Wire([i]), cfg).state, items[1..], cfg);
    }
  }

  /** The digits `Respond` writes make a good frame. */
  lemma FrameIsGood(payload: seq<byte>)
    ensures var sum := SumOf(0, Body(payload)); Good(Sent(payload, EncodeNybble(sum / 16), EncodeNybble(sum % 16)))
  {
    var sum := SumOf(0, Body(payload));
    NybbleRoundtrip(sum / 16);
    NybbleRoundtrip(sum % 16);
  }

  /** Storing unescaped bytes as one byte recovers every payload; as an `int`, exactly those without special bytes. */
  lemma {:induction false} StoredExactly(payload: seq<byte>, wide: bool)
    ensures Stored(payload, wide) == payload <==> !wide || forall c :: c in payload ==> !Special(c)
    ensures |Stored(payload, wide)| >= |payload|
    ensures (exists c :: c in payload && Special(c)) && wide ==> |Stored(payload, wide)| > |payload|
  {
    if payload != [] {
      StoredExactly(payload[1..], wide);
      assert payload == [payload[0]] + payload[1..];
    }
  }

  /** The frames `Respond` writes for some payloads, with any number of acknowledgements before each. */
  function Framed(payloads: seq<seq<byte>>, acks: seq<nat>): seq<byte>
    requires |acks| == |payloads|
  {
    if payloads == [] then []
    else seq(acks[0], _ => PLUS) + Frame(payloads[0]) + Framed(payloads[1..], acks[1..])
  }

  lemma {:induction false} RunAcks(s: State, n: nat, cfg: Config)
    requires s.mode.WaitingOpen?
    ensures Run(s, seq(n, _ => PLUS), cfg) == Log(s, [], [])
  {
    if n > 0 {
      assert seq(n, _ => PLUS)[1..] == seq(n - 1, _ => PLUS);
      RunAcks(s, n - 1, cfg);
    }
  }

  function Packets(payloads: seq<seq<byte>>): seq<Event> {
    seq(|payloads|, i requires 0 <= i < |payloads| => Packet(payloads[i]))
  }

  function StoredAll(payloads: seq<seq<byte>>, wide: bool): (r: seq<seq<byte>>)
    ensures |r| == |payloads| && forall i :: 0 <= i < |r| ==> r[i] == Stored(payloads[i], wide)
  {
    if payloads == [] then [] else [Stored(payloads[0], wide)] + StoredAll(payloads[1..], wide)
  }

  /** The first frame and what comes after it. */
  lemma FramedFirst(s: State, n: nat, payload: seq<byte>, later: seq<byte>, cfg: Config)
    requires s.mode.WaitingOpen?
    ensures var next := Run(s, Frame(payload), cfg).state;
            next.mode.WaitingOpen? &&
            Run(s, seq(n, _ => PLUS) + (Frame(payload) + later), cfg).events ==
              [Packet(Stored(payload, cfg.wide))] + Run(next, later, cfg).events
  {
    RunAcks(s, n, cfg);
    Quietly(s, seq(n, _ => PLUS), Frame(payload) + later, s, cfg);
    RunOwnFrame(s, payload, cfg);
    RunConcat(s, Frame(payload), later, cfg);
  }

  lemma PacketsFirst(payloads: seq<seq<byte>>, wide: bool)
    requires payloads != []
    ensures Packets(StoredAll(payloads, wide)) == [Packet(Stored(payloads[0], wide))] + Packets(StoredAll(payloads[1..], wide))
  { }

  lemma {:induction false} RunFramed(s: State, payloads: seq<seq<byte>>, acks: seq<nat>, cfg: Config)
    requires s.mode.WaitingOpen? && |acks| == |payloads|
    ensures Run(s, Framed(payloads, acks), cfg).events == Packets(StoredAll(payloads, cfg.wide))
    decreases payloads
  {
    if payloads != [] {
      var pluses, frame, later := seq(acks[0], _ => PLUS), Frame(payloads[0]), Framed(payloads[1..], acks[1..]);
      assert Framed(payloads, acks) == pluses + (frame + later);
      FramedFirst(s, acks[0], payloads[0], later, cfg);
      RunFramed(Run(s, frame, cfg).state, payloads[1..], acks[1..], cfg);
      PacketsFirst(payloads, cfg.wide);
    }
  }

  lemma RunOwnFrame(s: State, payload: seq<byte>, cfg: Config)
    requires s.mode.WaitingOpen?
    ensures var l := Run(s, Frame(payload), cfg);
            l.state.mode.WaitingOpen? && l.events == [Packet(Stored(payload, cfg.wide))]
  {
    var sum := SumOf(0, Body(payload));
    FrameIsGood(payload);
    RunFrame(s, payload, EncodeNybble(sum / 16), EncodeNybble(sum % 16), cfg);
  }

  /**
   Payloads framed by `Respond`, with acknowledgements between them, come out as the same payloads: always when an
   unescaped byte is stored as one byte, and as written exactly when no payload has a byte that is escaped.
   */
  lemma FramesRoundtrip(s: State, payloads: seq<seq<byte>>, acks: seq<nat>, cfg: Config)
    requires s.mode.WaitingOpen? && |acks| == |payloads|
    ensures Run(s, Framed(payloads, acks), cfg).events == Packets(payloads) <==>
            !cfg.wide || forall i, c :: 0 <= i < |payloads| && c in payloads[i] ==> !Special(c)
  {
    RunFramed(s, payloads, acks, cfg);
    var stored := StoredAll(payloads, cfg.wide);
    forall i | 0 <= i < |payloads|
      ensures stored[i] == payloads[i] <==> !cfg.wide || forall c :: c in payloads[i] ==> !Special(c)
    {
      StoredExactly(payloads[i], cfg.wide);
    }
    if Packets(stored) == Packets(payloads) {
      forall i | 0 <= i < |payloads| ensures stored[i] == payloads[i] {
        assert Packets(stored)[i] == Packets(payloads)[i];
      }
    } else {
      assert exists i :: 0 <= i < |payloads| && Packets(stored)[i] != Packets(payloads)[i];
    }
  }
}
