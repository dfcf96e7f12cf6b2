/** A debugger connection over real buffers, proved to do what the packet layer says. */
module GdbConnections {
  import opened Common
  import opened Buffers
  import opened HexCodec
  import opened GdbPackets
  import LittleEndian

  class GdbConnection {
    const inBuffer: Buffer
    const outBuffer: Buffer
    const wide: bool
    var mode: Mode
    var checksum: byte
    var message: seq<byte>
    var ackEnabled: bool
    var errorFlag: bool
    /** The bytes the output file accepted. */
    var sent: seq<byte>

    ghost predicate Valid()
      reads this, inBuffer, inBuffer.data, outBuffer, outBuffer.data
    {
      && inBuffer != outBuffer && inBuffer.data != outBuffer.data && inBuffer.Valid() && outBuffer.Valid()
      && inBuffer.limit.None? && outBuffer.limit.None?
    }

    ghost function Abs(): State
      reads this
    {
      State(mode, checksum, message)
    }

    ghost function Cfg(): Config
      reads this
    {
      Config(ackEnabled, wide)
    }

    constructor (wide: bool)
      ensures Valid() && fresh(inBuffer) && fresh(inBuffer.data) && fresh(outBuffer) && fresh(outBuffer.data)
      ensures Abs() == State(WaitingOpen, 0, []) && Cfg() == Config(true, wide) && !errorFlag && sent == []
      ensures inBuffer.Contents() == [] && outBuffer.Contents() == []
    {
      inBuffer := new Buffer();
      outBuffer := new Buffer();
      this.wide := wide;
      mode, checksum, message, ackEnabled, errorFlag, sent := WaitingOpen, 0, [], true, false, [];
    }

    method StartNoAckMode()
      modifies this`ackEnabled
      ensures !ackEnabled
    {
      ackEnabled := false;
    }

    /** Handles one byte; an event ends the call of `Process`. */
    method Handle(ch: byte) returns (event: Option<Event>)
      modifies this`mode, this`checksum, this`message, this`errorFlag, this`sent
      ensures var o := Step(old(Abs()), ch, Cfg()); Abs() == o.state && event == o.event && sent == old(sent) + o.reply
      ensures errorFlag == (old(errorFlag) || event == Some(BadOpen) || event == Some(BadChecksum))
    {
      event := None;
      match mode {
        case WaitingOpen =>
          if ch == PLUS { return; }
          if ch == BREAK { return Some(Interrupted); }
          if ch != OPEN {
            errorFlag := true;
            return Some(BadOpen);
          }
          message, checksum, mode := [], 0, ReadingData;
        case ReadingData =>
          if ch == SUM {
            mode := Checksum0;
            return;
          }
          checksum := Sum(checksum, ch);
          if ch == ESCAPE {
            mode := Escaped;
            return;
          }
          message := message + [ch];
        case Escaped =>
          checksum := Sum(checksum, ch);
          message := message + Unescaped(ch, wide);
          mode := ReadingData;
        case Checksum0 =>
          mode := Checksum1(ch);
        case Checksum1(first) =>
          mode := WaitingOpen;
          if DecodeByte(first, ch) != checksum {
            if ackEnabled {
              sent := sent + [MINUS];
            } else {
              errorFlag := true;
              return Some(BadChecksum);
            }
          } else {
            if ackEnabled {
              sent := sent + [PLUS];
            }
            return Some(Packet(message));
          }
      }
    }

    /** What is still to be scanned completes what was scanned so far. */
    ghost predicate Ahead(whole: Scanned, start: seq<byte>, later: Scanned)
      reads this`sent
    {
      && later.state == whole.state && later.rest == whole.rest && later.event == whole.event
      && sent + later.replies == start + whole.replies
    }

    /** Consumes one byte of the input. */
    method Consume(ch: byte, ghost whole: Scanned, ghost start: seq<byte>) returns (event: Option<Event>)
      requires Valid() && inBuffer.Contents() != [] && ch == inBuffer.Contents()[0]
      requires Ahead(whole, start, Scan(Abs(), inBuffer.Contents(), Cfg()))
      modifies this`mode, this`checksum, this`message, this`errorFlag, this`sent, inBuffer`readHead
      ensures Valid() && inBuffer.Contents() == old(inBuffer.Contents())[1..]
      ensures event.None? ==> Ahead(whole, start, Scan(Abs(), inBuffer.Contents(), Cfg()))
      ensures event.Some? ==> whole == Scanned(Abs(), inBuffer.Contents(), event, whole.replies) && sent == start + whole.replies
      ensures errorFlag == (old(errorFlag) || event == Some(BadOpen) || event == Some(BadChecksum))
    {
      ghost var input := inBuffer.Contents();
      ghost var o := Step(Abs(), input[0], Cfg());
      ghost var later := Scan(o.state, input[1..], Cfg());
      assert (sent + o.reply) + later.replies == sent + (o.reply + later.replies);
      inBuffer.MarkRead(1);
      event := Handle(ch);
    }

    /** Consumes input up to the first event: a packet, an interrupt or an error. */
    method Process() returns (event: Option<Event>)
      requires Valid()
      modifies this`mode, this`checksum, this`message, this`errorFlag, this`sent, inBuffer`readHead
      ensures Valid()
      ensures var r := Scan(old(Abs()), old(inBuffer.Contents()), Cfg());
              Abs() == r.state && inBuffer.Contents() == r.rest && event == r.event && sent == old(sent) + r.replies
      ensures errorFlag == (old(errorFlag) || event == Some(BadOpen) || event == Some(BadChecksum))
    {
      event := None;
      ghost var whole := Scan(Abs(), inBuffer.Contents(), Cfg());
      ghost var start := sent;
      assert [] + whole.replies == whole.replies;
      var ch := inBuffer.Peek();
      while ch.Some?
        invariant Valid() && event.None? && errorFlag == old(errorFlag)
        invariant ch == if inBuffer.Contents() == [] then None else Some(inBuffer.Contents()[0])
        invariant Ahead(whole, start, Scan(Abs(), inBuffer.Contents(), Cfg()))
        decreases |inBuffer.Contents()|
      {
        event := Consume(ch.value, whole, start);
        if event.Some? { return; }
        ch := inBuffer.Peek();
      }
      assert sent + [] == sent;
    }

    /** All calls of `Process` until the input is used up. */
    method ProcessAll() returns (events: seq<Event>)
      requires Valid()
      modifies this`mode, this`checksum, this`message, this`errorFlag, this`sent, inBuffer`readHead
      ensures Valid() && inBuffer.Contents() == []
      ensures var l := Run(old(Abs()), old(inBuffer.Contents()), Cfg());
              Abs() == l.state && events == l.events && sent == old(sent) + l.replies
    {
      events := [];
      ghost var whole, start := Run(Abs(), inBuffer.Contents(), Cfg()), sent;
      while true
        invariant Valid()
        invariant var l := Run(Abs(), inBuffer.Contents(), Cfg());
                  l.state == whole.state && events + l.events == whole.events && sent + l.replies == start + whole.replies
        decreases |inBuffer.Contents()|
      {
        ghost var r, l := Scan(Abs(), inBuffer.Contents(), Cfg()), Run(Abs(), inBuffer.Contents(), Cfg());
        ScanIsRun(Abs(), inBuffer.Contents(), Cfg());
        Resumes(events, sent, r, Run(r.state, r.rest, Cfg()));
        var event := Process();
        if event.None? {
          assert events + [] == events && sent + [] == sent;
          return;
        }
        events := events + [event.value];
      }
    }

    /** Writes a frame to the output buffer, then the output buffer to the file. */
    method Respond(buffer: Buffer, results: seq<int>)
      requires Valid() && buffer.Valid() && buffer != outBuffer && buffer != inBuffer && buffer.data != outBuffer.data
      modifies this`errorFlag, this`sent, outBuffer, outBuffer.data, buffer`readHead
      ensures Valid() && buffer.Valid() && buffer.Contents() == []
      ensures sent + outBuffer.Contents() == old(sent + outBuffer.Contents()) + Frame(old(buffer.Contents()))
    {
      ghost var payload, before := buffer.Contents(), outBuffer.Contents();
      var sum := WriteBody(buffer);
      var ok := outBuffer.Write([SUM]);
      HexCodec.Encode(sum, 1, outBuffer);
      assert outBuffer.Contents() == before + Frame(payload) by {
        FrameParts(payload, before);
        ByteDigits(sum);
      }
      WriteOut(results);
      assert old(sent) + (before + Frame(payload)) == old(sent + outBuffer.Contents()) + Frame(payload);
    }

    /** Writes one byte of the payload, escaped if it is special, and adds what was written to the checksum. */
    method WriteEscaped(ch: byte, checksum: byte) returns (sum: byte)
      requires Valid()
      modifies outBuffer, outBuffer.data
      ensures Valid() && (outBuffer.data == old(outBuffer.data) || fresh(outBuffer.data))
      ensures outBuffer.Contents() == old(outBuffer.Contents()) + EscapeByte(ch)
      ensures sum == SumOf(checksum, EscapeByte(ch))
    {
      SumEscaped(checksum, ch);
      var c := ch;
      sum := checksum;
      if Special(c) {
        var ok := outBuffer.Write([ESCAPE]);
        sum := Sum(sum, ESCAPE);
        c := Flip(c);
      }
      var ok := outBuffer.Write([c]);
      sum := Sum(sum, c);
    }

    method WriteBody(buffer: Buffer) returns (sum: byte)
      requires Valid() && buffer.Valid() && buffer != outBuffer && buffer != inBuffer && buffer.data != outBuffer.data
      modifies outBuffer, outBuffer.data, buffer`readHead
      ensures Valid() && buffer.Valid() && buffer.Contents() == [] && (outBuffer.data == old(outBuffer.data) || fresh(outBuffer.data))
      ensures outBuffer.Contents() == old(outBuffer.Contents()) + [OPEN] + Body(old(buffer.Contents()))
      ensures sum == SumOf(0, Body(old(buffer.Contents())))
    {
      ghost var whole := (outBuffer.Contents() + [OPEN]) + Body(buffer.Contents());
      ghost var total := SumOf(0, Body(buffer.Contents()));
      var ok := outBuffer.Write([OPEN]);
      sum := 0;
      var ch := buffer.Peek();
      while ch.Some?
        invariant Valid() && buffer.Valid() && (outBuffer.data == old(outBuffer.data) || fresh(outBuffer.data))
        invariant buffer.data == old(buffer.data)
        invariant ch == if buffer.Contents() == [] then None else Some(buffer.Contents()[0])
        invariant outBuffer.Contents() + Body(buffer.Contents()) == whole
        invariant SumOf(sum, Body(buffer.Contents())) == total
        decreases |buffer.Contents()|
      {
        BodyNext(outBuffer.Contents(), buffer.Contents(), sum);
        buffer.MarkRead(1);
        sum := WriteEscaped(ch.value, sum);
        ch := buffer.Peek();
      }
      assert outBuffer.Contents() + [] == outBuffer.Contents();
    }

    /** The write loop; each result is what the operating system said to one `write`, negative for an error. */
    method WriteOut(results: seq<int>)
      requires Valid()
      modifies this`errorFlag, this`sent, outBuffer`readHead
      ensures Valid() && sent + outBuffer.Contents() == old(sent + outBuffer.Contents())
      ensures outBuffer.data == old(outBuffer.data)
    {
      ghost var all := sent + outBuffer.Contents();
      var i := 0;
      var n := outBuffer.ReadAvailable();
      while n > 0 && i < |results|
        invariant Valid() && n == |outBuffer.Contents()| && outBuffer.data == old(outBuffer.data)
        invariant sent + outBuffer.Contents() == all
      {
        var r := Buffers.Min(results[i], n);
        if r < 0 {
          errorFlag := true;
          return;
        }
        var bytes := outBuffer.GetData();
        PartWritten(sent, bytes, r);
        outBuffer.MarkRead(r);
        sent := sent + bytes[..r];
        n := outBuffer.ReadAvailable();
        i := i + 1;
      }
    }
  }

  lemma Resumes(events: seq<Event>, sent: seq<byte>, r: Scanned, later: Log)
    ensures events + (Events(r.event) + later.events) ==
            (if r.event.Some? then events + [r.event.value] else events) + later.events
    ensures sent + (r.replies + later.replies) == (sent + r.replies) + later.replies
  { }

  lemma PartWritten(sent: seq<byte>, bytes: seq<byte>, r: nat)
    requires r <= |bytes|
    ensures (sent + bytes[..r]) + bytes[r..] == sent + bytes
  { }

  /** The next byte of a payload, as it is written and summed. */
  lemma BodyNext(before: seq<byte>, payload: seq<byte>, sum: byte)
    requires payload != []
    ensures before + Body(payload) == (before + EscapeByte(payload[0])) + Body(payload[1..])
    ensures SumOf(sum, Body(payload)) == SumOf(SumOf(sum, EscapeByte(payload[0])), Body(payload[1..]))
  {
    SumConcat(sum, EscapeByte(payload[0]), Body(payload[1..]));
  }

  lemma SumEscaped(from: byte, c: byte)
    ensures SumOf(from, EscapeByte(c)) == if Special(c) then Sum(Sum(from, ESCAPE), Flip(c)) else Sum(from, c)
  {
    if Special(c) {
      SumConcat(from, [ESCAPE], [Flip(c)]);
      assert EscapeByte(c) == [ESCAPE] + [Flip(c)];
    }
  }

  lemma ByteDigits(b: byte)
    ensures EncodeInt(b, 1) == Digits(b)
  {
    assert BigEndian(b, 1) == [b] by { assert LittleEndian.Power256(0) == 1; }
    assert EncodeBytes([b]) == Digits(b);
  }

  lemma FrameParts(payload: seq<byte>, before: seq<byte>)
    ensures var sum := SumOf(0, Body(payload));
            ((before + [OPEN] + Body(payload)) + [SUM]) + Digits(sum) == before + Frame(payload)
  { }
}
