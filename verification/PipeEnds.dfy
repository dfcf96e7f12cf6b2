/** What each call of a pipe reports: bytes offered to readers, ends of file, and writes done or refused. */
module PipeEnds {
  import opened Common
  import opened PipeSpec
  import opened PipeRuns

  // ---------------------------------------------------------------- when the end is set

  /** Closing the reader or the writer, from outside or from a read callback. */
  predicate Closing(op: Op) { op.DoCloseReader? || op.DoCloseWriter? || (op.DoRead? && op.reply.close != NoClose) }

  lemma EndNext(p: Pipe, id: nat, op: Op)
    requires Enabled(p, op)
    ensures Apply(p, id, op).pipe.eof <==> p.eof || Closing(op)
  { }

  lemma {:induction false} EndFrom(h: Run, ops: seq<Op>)
    requires Legal(h, ops)
    ensures Exec(h, ops).pipe.eof <==> h.pipe.eof || exists k :: 0 <= k < |ops| && Closing(ops[k])
    decreases ops
  {
    if ops != [] {
      EndNext(h.pipe, h.next, ops[0]);
      EndFrom(Step(h, ops[0]), ops[1..]);
      assert forall k :: 0 < k < |ops| ==> ops[k] == ops[1..][k - 1];
      if exists k :: 0 <= k < |ops[1..]| && Closing(ops[1..][k]) {
        var k :| 0 <= k < |ops[1..]| && Closing(ops[1..][k]);
        assert Closing(ops[k + 1]);
      }
    }
  }

  /** In every run the end of file is set exactly when some operation closed the reader or the writer. */
  lemma EndExactly(limit: nat, commits: bool, ops: seq<Op>)
    requires Legal(Start(limit, commits), ops)
    ensures Exec(Start(limit, commits), ops).pipe.eof <==> exists k :: 0 <= k < |ops| && Closing(ops[k])
  {
    EndFrom(Start(limit, commits), ops);
  }

  // ---------------------------------------------------------------- what readers get

  /** What a read is offered: everything held, but no more than the buffer can hold if there is one. */
  function Share(p: Pipe): seq<byte> {
    if p.limit == 0 || |Held(p)| <= p.limit then Held(p) else Held(p)[..p.limit]
  }

  lemma FlushShare(p: Pipe)
    requires Valid(p) && p.phase.WritePending? && (p.commits || p.limit == 0)
    ensures var q := Flush(p).pipe;
            && Held(q) == Held(p) && (q.phase.Idle? ==> q.buf == Share(p) == Held(p))
            && (q.phase.WritePending? ==> (if q.buf == [] then q.phase.rest else q.buf) == Share(p))
  {
    FlushLoses(p);
    var q := Flush(p).pipe;
    if q.phase.WritePending? {
      assert |q.buf| == p.limit;
      assert Held(q) == q.buf + q.phase.rest;
      assert q.buf == Held(q)[..p.limit];
      if q.buf == [] { assert Held(q) == q.phase.rest; }
    }
  }

  /**
   A read of a pipe that holds bytes is offered its share of them at once; a read of an empty pipe is told the end of file
   if it is set, and otherwise waits.
   */
  lemma ReadAnswers(p: Pipe, r: nat, reply: Reply)
    requires Enabled(p, DoRead(reply)) && (p.commits || p.limit == 0)
    ensures var o := PipeSpec.Read(p, r, reply);
            && (Held(p) != [] ==> Delivered(r, Share(p), reply.taken) in o.fired && reply.taken <= |Share(p)| && !Ends(o.fired))
            && (Held(p) == [] && p.eof ==> o.fired == [EndOfFile(r)] && o.pipe == p)
            && (Held(p) == [] && !p.eof ==> o.fired == [] && o.pipe == p.(phase := ReadPending(r)))
  {
    if p.phase.WritePending? {
      FlushShare(p);
      var f := Flush(p);
      if f.pipe.phase.Idle? {
        EndsConcat(f.fired, ReadIdle(f.pipe, r, reply.taken).fired);
      } else {
        EndsConcat(f.fired, ReadPast(f.pipe, r, reply).fired);
        PastNeverEnds(f.pipe, r, reply);
        assert Delivered(r, Share(p), reply.taken) == ReadPast(f.pipe, r, reply).fired[0];
      }
    }
  }

  /** In every run, a read of a closed pipe that holds nothing is told the end of file. */
  lemma ClosedReadEnds(limit: nat, commits: bool, ops: seq<Op>, reply: Reply)
    requires Legal(Start(limit, commits), ops) && exists k :: 0 <= k < |ops| && Closing(ops[k])
    requires var h := Exec(Start(limit, commits), ops); Held(h.pipe) == [] && Enabled(h.pipe, DoRead(reply))
    ensures var h := Exec(Start(limit, commits), ops); Apply(h.pipe, h.next, DoRead(reply)).fired == [EndOfFile(h.next)]
  {
    EndExactly(limit, commits, ops);
    Reached(Start(limit, commits), limit, commits, ops);
    var h := Exec(Start(limit, commits), ops);
    NothingHeld(h.pipe, h.next, reply);
  }

  lemma NothingHeld(p: Pipe, r: nat, reply: Reply)
    requires Enabled(p, DoRead(reply)) && p.eof && Held(p) == []
    ensures PipeSpec.Read(p, r, reply).fired == [EndOfFile(r)]
  { }

  /** A waiting read is offered all that is written, or told the end of file by whatever closes the pipe. */
  lemma WaitingReadAnswered(p: Pipe, id: nat, op: Op)
    requires Enabled(p, op) && p.phase.ReadPending?
    ensures op.DoCloseReader? || op.DoCloseWriter? ==> Apply(p, id, op).fired == [EndOfFile(p.phase.r)]
    ensures op.DoWrite? && op.data != [] ==>
              Delivered(p.phase.r, op.data, op.reply.taken) in Apply(p, id, op).fired && !Ends(Apply(p, id, op).fired)
  { }

  // ---------------------------------------------------------------- what writers get

  /** The write `w` is refused or discarded: it came after the end, or the reader is closed while it is pending. */
  ghost predicate Refuses(p: Pipe, id: nat, op: Op, w: nat)
    requires Enabled(p, op)
  {
    || (op.DoWrite? && w == id && p.eof)
    || (p.phase.WritePending? && p.phase.w == w && (op.DoCloseReader? || CutsInside(p, op)))
  }

  /** A write is reported refused exactly when it is, and otherwise done. */
  lemma WriteReports(p: Pipe, id: nat, op: Op, k: nat)
    requires Enabled(p, op) && (p.phase.WritePending? ==> p.phase.w != id)
    requires k < |Apply(p, id, op).fired| && Apply(p, id, op).fired[k].WriteDone?
    ensures var f := Apply(p, id, op).fired[k]; f.eof <==> Refuses(p, id, op, f.id)
  {
    if op.DoRead? { ReadReports(p, id, op.reply, k); }
  }

  lemma ReadReports(p: Pipe, r: nat, reply: Reply, k: nat)
    requires Enabled(p, DoRead(reply))
    requires k < |PipeSpec.Read(p, r, reply).fired| && PipeSpec.Read(p, r, reply).fired[k].WriteDone?
    ensures var f := PipeSpec.Read(p, r, reply).fired[k];
            p.phase.WritePending? && f.id == p.phase.w && (f.eof <==> reply.close.ClosesReader?)
  {
    if p.phase.WritePending? {
      FlushEndsWrite(p);
      var q := Flush(p).pipe;
      if q.phase.WritePending? { PastReports(q, r, reply, k); }
    }
  }

  lemma PastReports(q: Pipe, r: nat, reply: Reply, k: nat)
    requires |q.buf| <= q.limit && q.phase.WritePending?
    requires reply.taken <= if |q.buf| > 0 then |q.buf| else |q.phase.rest|
    requires k < |ReadPast(q, r, reply).fired| && ReadPast(q, r, reply).fired[k].WriteDone?
    ensures var f := ReadPast(q, r, reply).fired[k]; f.id == q.phase.w && (f.eof <==> reply.close.ClosesReader?)
  { }

  /** The end alone does not refuse a write: one that is pending when the writer is closed is still reported as done. */
  lemma PendingOutlivesClose(a: byte) returns (ops: seq<Op>)
    ensures ops == [DoWrite([a], Reply(0, NoClose)), DoCloseWriter, DoRead(Reply(1, NoClose))]
    ensures Legal(Start(0, true), ops)
    ensures var h := Exec(Start(0, true), ops);
            h.pipe.eof && h.fired == [Delivered(1, [a], 1), WriteDone(0, false)] && h.delivered == [a]
  {
    var h := Start(0, true);
    var write, read := DoWrite([a], Reply(0, NoClose)), DoRead(Reply(1, NoClose));
    var h1 := Step(h, write);
    assert h1.pipe == Pipe([], 0, true, WritePending(0, [a]), false) && h1.next == 1 && h1.fired == [] && h1.delivered == [];
    PendingRead(h1, a);
    ops := [write, DoCloseWriter, read];
    TwoSteps(h1, DoCloseWriter, read);
    assert ops[1..] == [DoCloseWriter, read];
  }

  lemma PendingRead(h1: Run, a: byte)
    requires h1.pipe == Pipe([], 0, true, WritePending(0, [a]), false) && h1.next == 1 && h1.fired == [] && h1.delivered == []
    ensures var read := DoRead(Reply(1, NoClose));
            Enabled(h1.pipe, DoCloseWriter) && Enabled(Step(h1, DoCloseWriter).pipe, read) &&
            var h3 := Step(Step(h1, DoCloseWriter), read);
            h3.pipe.eof && h3.fired == [Delivered(1, [a], 1), WriteDone(0, false)] && h3.delivered == [a]
  {
    var read := DoRead(Reply(1, NoClose));
    var p := h1.pipe.(eof := true);
    assert Step(h1, DoCloseWriter).pipe == p;
    assert [a][0..] == [a] && p.phase.rest[..0] == [];
    assert Flush(p).pipe == p && Flush(p).fired == [];
    var last := AfterTaking(p, read.reply);
    assert last.phase.rest == [] && Flush(last).fired == [WriteDone(0, false)];
    assert PipeSpec.Read(p, 1, read.reply).fired == [Delivered(1, [a], 1)] + [WriteDone(0, false)];
    TakenConcat([Delivered(1, [a], 1)], [WriteDone(0, false)]);
    Single(Delivered(1, [a], 1), 0);
    Single(WriteDone(0, false), 0);
  }

  /**
   A write is done at once exactly when there is nothing to write, the end is set, it fits into the buffer of a pipe in which
   nothing waits, or a waiting read takes all of it; what is left of it is pending otherwise.
   */
  lemma WriteAnswers(p: Pipe, w: nat, data: seq<byte>, reply: Reply)
    requires Enabled(p, DoWrite(data, reply))
    ensures var o := PipeSpec.Write(p, w, data, reply);
            var atOnce := data == [] || p.eof || (if p.phase.ReadPending? then reply.taken == |data| else |p.buf| + |data| <= p.limit);
            && (WriteDone(w, p.eof) in o.fired <==> atOnce)
            && (!atOnce ==> o.pipe.phase == WritePending(w, if p.phase.ReadPending? then data[reply.taken..] else data))
            && (!atOnce ==> o.pipe.buf == p.buf)
  { }

  /** A flush ends a pending write exactly when all the bytes held fit into the buffer. */
  lemma FlushEndsWrite(p: Pipe)
    requires |p.buf| <= p.limit && p.phase.WritePending?
    ensures Flush(p).pipe.phase.Idle? <==> |Held(p)| <= p.limit
    ensures Flush(p).fired == if |Held(p)| <= p.limit then [WriteDone(p.phase.w, false)] else []
    ensures Flush(p).pipe.phase.Idle? || (Flush(p).pipe.phase.WritePending? && Flush(p).pipe.phase.w == p.phase.w)
  { }

  lemma PastEndsWrite(q: Pipe, r: nat, reply: Reply)
    requires |q.buf| <= q.limit && q.phase.WritePending? && |Held(q)| > q.limit && !reply.close.ClosesReader?
    requires reply.taken <= if |q.buf| > 0 then |q.buf| else |q.phase.rest|
    ensures var o := ReadPast(q, r, reply);
            && (o.pipe.phase.Idle? <==> |Held(q)| - reply.taken <= q.limit)
            && (o.pipe.phase.Idle? <==> WriteDone(q.phase.w, false) in o.fired)
            && (o.pipe.phase.Idle? || (o.pipe.phase.WritePending? && o.pipe.phase.w == q.phase.w))
  {
    var first := Delivered(r, if |q.buf| > 0 then q.buf else q.phase.rest, reply.taken);
    var last := AfterTaking(q, reply);
    TakingSplits(q, reply);
    FlushEndsWrite(last);
    assert ReadPast(q, r, reply).fired == [first] + Flush(last).fired;
    assert last.phase.w == q.phase.w && |Held(last)| == |Held(q)| - reply.taken;
  }

  /** A pending write is done by a read exactly when the bytes still held fit into the buffer before or after it. */
  lemma ReadEndsWrite(p: Pipe, r: nat, reply: Reply)
    requires Enabled(p, DoRead(reply)) && (p.commits || p.limit == 0) && p.phase.WritePending? && !reply.close.ClosesReader?
    ensures var o := PipeSpec.Read(p, r, reply);
            && (o.pipe.phase.Idle? <==> |Held(p)| <= p.limit || |Held(p)| - reply.taken <= p.limit)
            && (o.pipe.phase.Idle? <==> WriteDone(p.phase.w, false) in o.fired)
            && (o.pipe.phase.Idle? || (o.pipe.phase.WritePending? && o.pipe.phase.w == p.phase.w))
  {
    FlushEndsWrite(p);
    FlushShare(p);
    var f := Flush(p);
    if f.pipe.phase.Idle? {
      IdleStays(f.pipe, r, reply, p);
    } else {
      PastEndsWrite(f.pipe, r, reply);
      assert f.fired + ReadPast(f.pipe, r, reply).fired == ReadPast(f.pipe, r, reply).fired;
    }
  }

  /** A write that was just done holds bytes for the reader, which is not made to wait. */
  lemma IdleStays(q: Pipe, r: nat, reply: Reply, p: Pipe)
    requires Valid(p) && p.phase.WritePending? && Flush(p).pipe == q && q.phase.Idle? && (p.commits || p.limit == 0)
    requires reply.taken <= |q.buf|
    ensures ReadIdle(q, r, reply.taken).pipe.phase.Idle?
  {
    FlushShare(p);
    assert |Held(p)| > 0;
  }
}
