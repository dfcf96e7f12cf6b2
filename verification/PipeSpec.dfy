/**
 What the pipe does, as functions on its visible state: the buffered bytes, the write or read that is
 waiting, and whether the end was reached. Calls of callbacks are returned as `Fired` records.
 */
module PipeSpec {
  import opened Common

  /** Callbacks are named by the number of the operation that supplied them. */
  datatype Phase = Idle | WritePending(w: nat, rest: seq<byte>) | ReadPending(r: nat)

  /** `commits` tells a flush that commits the bytes it copied from the flush as written, which does not. */
  datatype Pipe = Pipe(buf: seq<byte>, limit: nat, commits: bool, phase: Phase, eof: bool)

  datatype Fired =
    | Delivered(id: nat, offered: seq<byte>, taken: nat)
    | EndOfFile(id: nat)
    | WriteDone(id: nat, eof: bool)

  /** What a read callback does: how many bytes it takes, and whether it closes the pipe. */
  datatype Close = NoClose | ClosesReader | ClosesWriter
  datatype Reply = Reply(taken: nat, close: Close)

  /** `lost` counts bytes a flush copied to the buffer but never committed. */
  datatype Outcome = Outcome(pipe: Pipe, fired: seq<Fired>, lost: nat)

  function Min(a: int, b: int): int { if a < b then a else b }

  /** The room the buffer offers a flush. */
  function Room(p: Pipe): int { p.limit - |p.buf| }

  ghost predicate Valid(p: Pipe) {
    && |p.buf| <= p.limit
    && (p.phase.WritePending? ==> p.phase.rest != [])
    && (p.phase.ReadPending? ==> p.buf == [] && !p.eof)
  }

  /** `FlushWritePendingState`, where `rest` is still to be written. */
  function Flush(p: Pipe): (o: Outcome)
    requires |p.buf| <= p.limit && p.phase.WritePending?
  {
    var rest := p.phase.rest;
    var k := Min(|rest|, Room(p));
    var buf := if p.commits then p.buf + rest[..k] else p.buf;
    var lost := if p.commits then 0 else k;
    if k < |rest| then Outcome(p.(buf := buf, phase := WritePending(p.phase.w, rest[k..])), [], lost)
    else Outcome(p.(buf := buf, phase := Idle), [WriteDone(p.phase.w, false)], lost)
  }

  /** What a read callback is offered; nothing when the read has to wait. */
  function Offer(p: Pipe): seq<byte>
    requires Valid(p) && !p.phase.ReadPending?
  {
    if p.phase.Idle? then p.buf
    else
      var q := Flush(p).pipe;
      if q.phase.Idle? || |q.buf| > 0 then q.buf else q.phase.rest
  }

  /** A callback takes no more than it is offered, and closes the pipe only while a write is pending. */
  ghost predicate ReplyOk(p: Pipe, reply: Reply)
    requires Valid(p) && !p.phase.ReadPending?
  {
    && reply.taken <= |Offer(p)|
    && (reply.close != NoClose ==> p.phase.WritePending? && Flush(p).pipe.phase.WritePending?)
  }

  function ReadIdle(p: Pipe, r: nat, taken: nat): Outcome
    requires p.phase.Idle? && taken <= |p.buf|
  {
    if |p.buf| > 0 then Outcome(p.(buf := p.buf[taken..]), [Delivered(r, p.buf, taken)], 0)
    else if p.eof then Outcome(p, [EndOfFile(r)], 0)
    else Outcome(p.(phase := ReadPending(r)), [], 0)
  }

  /** A read while a write stays pending: buffered bytes first, then directly from the pending write. */
  function ReadPast(q: Pipe, r: nat, reply: Reply): Outcome
    requires |q.buf| <= q.limit && q.phase.WritePending?
    requires reply.taken <= if |q.buf| > 0 then |q.buf| else |q.phase.rest|
  {
    var offered := if |q.buf| > 0 then q.buf else q.phase.rest;
    var delivered := [Delivered(r, offered, reply.taken)];
    if reply.close.ClosesReader? then
      Outcome(q.(phase := Idle, eof := true), delivered + [WriteDone(q.phase.w, true)], 0)
    else
      var q1 := q.(eof := q.eof || reply.close.ClosesWriter?);
      var q2 := if |q.buf| > 0 then q1.(buf := q.buf[reply.taken..])
                else q1.(phase := WritePending(q.phase.w, q.phase.rest[reply.taken..]));
      var g := Flush(q2);
      Outcome(g.pipe, delivered + g.fired, g.lost)
  }

  /** `Read`: a pending write is first flushed to the buffer as far as it fits. */
  function Read(p: Pipe, r: nat, reply: Reply): Outcome
    requires Valid(p) && !p.phase.ReadPending? && reply.taken <= |Offer(p)|
  {
    if p.phase.Idle? then ReadIdle(p, r, reply.taken)
    else
      var f := Flush(p);
      var o := if f.pipe.phase.Idle? then ReadIdle(f.pipe, r, reply.taken) else ReadPast(f.pipe, r, reply);
      Outcome(o.pipe, f.fired + o.fired, f.lost + o.lost)
  }

  /** `Write`; the reply is that of a read callback waiting for data, if there is one. */
  function Write(p: Pipe, w: nat, data: seq<byte>, reply: Reply): Outcome
    requires Valid(p) && (p.phase.WritePending? ==> data == [] || p.eof)
    requires p.phase.ReadPending? ==> reply.taken <= |data|
  {
    if data == [] || p.eof then Outcome(p, [WriteDone(w, p.eof)], 0)
    else if p.phase.Idle? then
      if |p.buf| + |data| <= p.limit then Outcome(p.(buf := p.buf + data), [WriteDone(w, false)], 0)
      else Outcome(p.(phase := WritePending(w, data)), [], 0)
    else
      var delivered := [Delivered(p.phase.r, data, reply.taken)];
      if reply.taken < |data| then Outcome(p.(phase := WritePending(w, data[reply.taken..])), delivered, 0)
      else Outcome(p.(phase := Idle), delivered + [WriteDone(w, false)], 0)
  }

  function CloseReader(p: Pipe): Outcome {
    var q := p.(phase := Idle, eof := true);
    match p.phase
    case Idle => Outcome(q, [], 0)
    case WritePending(w, _) => Outcome(q, [WriteDone(w, true)], 0)
    case ReadPending(r) => Outcome(q, [EndOfFile(r)], 0)
  }

  function CloseWriter(p: Pipe): Outcome {
    match p.phase
    case ReadPending(r) => Outcome(p.(phase := Idle, eof := true), [EndOfFile(r)], 0)
    case _ => Outcome(p.(eof := true), [], 0)
  }

  lemma FlushValid(p: Pipe)
    requires |p.buf| <= p.limit && p.phase.WritePending?
    ensures Valid(Flush(p).pipe)
  { }

  /** A read keeps the pipe's invariant: a waiting read faces an empty open buffer, a pending write has bytes left. */
  lemma ReadValid(p: Pipe, r: nat, reply: Reply)
    requires Valid(p) && !p.phase.ReadPending? && reply.taken <= |Offer(p)|
    ensures Valid(Read(p, r, reply).pipe)
  {
    if p.phase.WritePending? {
      FlushValid(p);
    }
  }
}
