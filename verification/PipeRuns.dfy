/** Whole runs of a pipe: no byte is lost or reordered, and every callback is called once. */
module PipeRuns {
  import opened Common
  import opened PipeSpec

  datatype Op =
    | DoRead(reply: Reply)
    | DoWrite(data: seq<byte>, reply: Reply)
    | DoCloseReader
    | DoCloseWriter

  /** What a reader close did to the bytes: it dropped a pending write, or also left bytes in the buffer that were taken. */
  datatype Cut = Whole | Dropped | Repeated

  /** A run so far: bytes accepted from writers and taken by readers, and the callbacks that were called. */
  datatype Run = Run(pipe: Pipe, accepted: seq<byte>, delivered: seq<byte>, fired: seq<Fired>, lost: nat, next: nat, cut: Cut)

  /** The bytes the pipe still has to deliver, in order. */
  function Held(p: Pipe): seq<byte> {
    if p.phase.WritePending? then p.buf + p.phase.rest else p.buf
  }

  function TakenBy(f: Fired): seq<byte> {
    if f.Delivered? && f.taken <= |f.offered| then f.offered[..f.taken] else []
  }

  function Taken(fs: seq<Fired>): seq<byte> {
    if fs == [] then [] else TakenBy(fs[0]) + Taken(fs[1..])
  }

  function One(b: bool): nat { if b then 1 else 0 }

  /** How often the callback of operation `id` was called. */
  function Calls(fs: seq<Fired>, id: nat): nat {
    if fs == [] then 0 else One(fs[0].id == id) + Calls(fs[1..], id)
  }

  /** Whether the pipe still owes operation `id` its callback. */
  function Owes(p: Pipe, id: nat): nat {
    match p.phase
    case Idle => 0
    case WritePending(w, _) => One(w == id)
    case ReadPending(r) => One(r == id)
  }

  /** What the pipe demands of its callers: one reader and one writer at a time. */
  ghost predicate Enabled(p: Pipe, op: Op) {
    Valid(p) &&
    match op
    case DoRead(reply) => !p.phase.ReadPending? && ReplyOk(p, reply)
    case DoWrite(data, reply) =>
      (p.phase.WritePending? ==> data == [] || p.eof) && (p.phase.ReadPending? ==> reply.taken <= |data|)
    case _ => true
  }

  ghost function Apply(p: Pipe, id: nat, op: Op): Outcome
    requires Enabled(p, op)
  {
    match op
    case DoRead(reply) => PipeSpec.Read(p, id, reply)
    case DoWrite(data, reply) => PipeSpec.Write(p, id, data, reply)
    case DoCloseReader => PipeSpec.CloseReader(p)
    case DoCloseWriter => PipeSpec.CloseWriter(p)
  }

  function Accepts(p: Pipe, op: Op): seq<byte> {
    if op.DoWrite? && !p.eof then op.data else []
  }

  ghost predicate CutsInside(p: Pipe, op: Op)
    requires Enabled(p, op)
  {
    op.DoRead? && op.reply.close.ClosesReader?
  }

  ghost predicate Cuts(p: Pipe, op: Op)
    requires Enabled(p, op)
  {
    CutsInside(p, op) || (op.DoCloseReader? && p.phase.WritePending?)
  }

  /** A read whose callback takes buffered bytes and then closes the reader: the bytes are not marked as read. */
  ghost predicate Repeats(p: Pipe, op: Op)
    requires Enabled(p, op)
  {
    CutsInside(p, op) && op.reply.taken > 0 && Flush(p).pipe.buf != []
  }

  predicate HasCallback(op: Op) { op.DoRead? || op.DoWrite? }

  ghost function Step(h: Run, op: Op): Run
    requires Enabled(h.pipe, op)
  {
    var o := Apply(h.pipe, h.next, op);
    Run(o.pipe, h.accepted + Accepts(h.pipe, op), h.delivered + Taken(o.fired), h.fired + o.fired, h.lost + o.lost,
        if HasCallback(op) then h.next + 1 else h.next,
        if Repeats(h.pipe, op) then Repeated else if Cuts(h.pipe, op) then Dropped else h.cut)
  }

  ghost predicate Legal(h: Run, ops: seq<Op>)
    decreases ops
  {
    ops == [] || (Enabled(h.pipe, ops[0]) && Legal(Step(h, ops[0]), ops[1..]))
  }

  ghost function Exec(h: Run, ops: seq<Op>): Run
    requires Legal(h, ops)
    decreases ops
  {
    if ops == [] then h else Exec(Step(h, ops[0]), ops[1..])
  }

  function Start(limit: nat, commits: bool): Run {
    Run(Pipe([], limit, commits, Idle, false), [], [], [], 0, 0, Whole)
  }

  // ---------------------------------------------------------------- one operation

  /** A flush loses bytes exactly when it does not commit and both the write and the buffer have bytes and room left. */
  lemma FlushLoses(p: Pipe)
    requires |p.buf| <= p.limit && p.phase.WritePending?
    ensures Flush(p).lost == if p.commits then 0 else Min(|p.phase.rest|, p.limit - |p.buf|)
    ensures Flush(p).lost == 0 <==> Held(Flush(p).pipe) == Held(p)
    ensures |Held(Flush(p).pipe)| + Flush(p).lost == |Held(p)|
    ensures Taken(Flush(p).fired) == []
  {
    var k := Min(|p.phase.rest|, Room(p));
    assert p.phase.rest[..k] + p.phase.rest[k..] == p.phase.rest;
    if p.commits {
      assert p.buf + p.phase.rest == (p.buf + p.phase.rest[..k]) + p.phase.rest[k..];
      if k == |p.phase.rest| {
        assert p.phase.rest[..k] == p.phase.rest;
      }
    } else if k == 0 {
      assert p.phase.rest[k..] == p.phase.rest;
    }
  }

  lemma Associates(a: seq<byte>, b: seq<byte>, c: seq<byte>)
    ensures a + (b + c) == (a + b) + c
  { }

  lemma {:induction false} TakenConcat(a: seq<Fired>, b: seq<Fired>)
    ensures Taken(a + b) == Taken(a) + Taken(b)
  {
    if a == [] {
      assert a + b == b;
    } else {
      assert (a + b)[1..] == a[1..] + b && (a + b)[0] == a[0];
      TakenConcat(a[1..], b);
      Associates(TakenBy(a[0]), Taken(a[1..]), Taken(b));
    }
  }

  lemma {:induction false} CallsConcat(a: seq<Fired>, b: seq<Fired>, id: nat)
    ensures Calls(a + b, id) == Calls(a, id) + Calls(b, id)
  {
    if a == [] {
      assert a + b == b;
    } else {
      assert (a + b)[1..] == a[1..] + b && (a + b)[0] == a[0];
      CallsConcat(a[1..], b, id);
    }
  }

  lemma Concat(a: seq<Fired>, b: seq<Fired>, id: nat)
    ensures Taken(a + b) == Taken(a) + Taken(b)
    ensures Calls(a + b, id) == Calls(a, id) + Calls(b, id)
  {
    TakenConcat(a, b);
    CallsConcat(a, b, id);
  }

  lemma Single(f: Fired, id: nat)
    ensures Calls([f], id) == One(f.id == id)
    ensures Taken([f]) == TakenBy(f)
  { }

  /** What every operation keeps: bytes, unless it cuts or a flush lost some, and callbacks, always. */
  ghost predicate Conserves(p: Pipe, o: Outcome, accepted: seq<byte>, id: nat, issued: nat, cuts: bool) {
    && (!cuts && o.lost == 0 ==> Taken(o.fired) + Held(o.pipe) == Held(p) + accepted)
    && (!cuts ==> |Taken(o.fired)| + |Held(o.pipe)| + o.lost == |Held(p)| + |accepted|)
    && Calls(o.fired, id) + Owes(o.pipe, id) == Owes(p, id) + issued
  }

  lemma Compose(p: Pipe, o1: Outcome, issued1: nat, o2: Outcome, issued2: nat, id: nat, cuts: bool)
    requires Conserves(p, o1, [], id, issued1, false) && Conserves(o1.pipe, o2, [], id, issued2, cuts)
    ensures Conserves(p, Outcome(o2.pipe, o1.fired + o2.fired, o1.lost + o2.lost), [], id, issued1 + issued2, cuts)
  {
    Concat(o1.fired, o2.fired, id);
    if !cuts && o1.lost + o2.lost == 0 {
      assert (Taken(o1.fired) + Taken(o2.fired)) + Held(o2.pipe) == Taken(o1.fired) + (Taken(o2.fired) + Held(o2.pipe));
    }
  }

  lemma FlushConserves(p: Pipe, id: nat)
    requires |p.buf| <= p.limit && p.phase.WritePending?
    ensures Conserves(p, Flush(p), [], id, 0, false)
  {
    FlushLoses(p);
  }

  lemma ReadIdleConserves(p: Pipe, r: nat, taken: nat, id: nat)
    requires p.phase.Idle? && taken <= |p.buf|
    ensures Conserves(p, ReadIdle(p, r, taken), [], id, One(r == id), false)
  {
    if |p.buf| > 0 {
      Single(Delivered(r, p.buf, taken), id);
      assert p.buf[..taken] + p.buf[taken..] == p.buf;
    } else {
      Single(EndOfFile(r), id);
    }
  }

  /** The pipe after a read callback took bytes of the buffer, or of the pending write, and did not close the reader. */
  function AfterTaking(q: Pipe, reply: Reply): Pipe
    requires q.phase.WritePending?
    requires reply.taken <= if |q.buf| > 0 then |q.buf| else |q.phase.rest|
  {
    var q1 := q.(eof := q.eof || reply.close.ClosesWriter?);
    if |q.buf| > 0 then q1.(buf := q.buf[reply.taken..])
    else q1.(phase := WritePending(q.phase.w, q.phase.rest[reply.taken..]))
  }

  /** What the callback took and what is held afterwards are what was held before. */
  lemma TakingSplits(q: Pipe, reply: Reply)
    requires q.phase.WritePending?
    requires reply.taken <= if |q.buf| > 0 then |q.buf| else |q.phase.rest|
    ensures var offered := if |q.buf| > 0 then q.buf else q.phase.rest;
            offered[..reply.taken] + Held(AfterTaking(q, reply)) == Held(q)
  {
    if |q.buf| > 0 {
      assert q.buf[..reply.taken] + (q.buf[reply.taken..] + q.phase.rest) == q.buf + q.phase.rest;
    } else {
      assert q.phase.rest[..reply.taken] + q.phase.rest[reply.taken..] == q.phase.rest;
      assert Held(q) == q.phase.rest;
      assert Held(AfterTaking(q, reply)) == q.phase.rest[reply.taken..];
    }
  }

  lemma TakingConserves(q: Pipe, r: nat, reply: Reply, first: Fired, id: nat)
    requires q.phase.WritePending?
    requires reply.taken <= if |q.buf| > 0 then |q.buf| else |q.phase.rest|
    requires first == Delivered(r, if |q.buf| > 0 then q.buf else q.phase.rest, reply.taken)
    ensures Conserves(q, Outcome(AfterTaking(q, reply), [first], 0), [], id, One(r == id), false)
  {
    Single(first, id);
    TakingSplits(q, reply);
  }

  lemma ReadPastConserves(q: Pipe, r: nat, reply: Reply, id: nat)
    requires |q.buf| <= q.limit && q.phase.WritePending?
    requires reply.taken <= if |q.buf| > 0 then |q.buf| else |q.phase.rest|
    ensures Conserves(q, ReadPast(q, r, reply), [], id, One(r == id), reply.close.ClosesReader?)
  {
    var first := Delivered(r, if |q.buf| > 0 then q.buf else q.phase.rest, reply.taken);
    if reply.close.ClosesReader? {
      Single(first, id);
      Single(WriteDone(q.phase.w, true), id);
      Concat([first], [WriteDone(q.phase.w, true)], id);
    } else {
      var q2 := AfterTaking(q, reply);
      TakingConserves(q, r, reply, first, id);
      FlushConserves(q2, id);
      Compose(q, Outcome(q2, [first], 0), One(r == id), Flush(q2), 0, id, false);
      assert ReadPast(q, r, reply) == Outcome(Flush(q2).pipe, [first] + Flush(q2).fired, Flush(q2).lost);
    }
  }

  lemma ReadConserves(p: Pipe, r: nat, reply: Reply, id: nat)
    requires Valid(p) && !p.phase.ReadPending? && ReplyOk(p, reply)
    ensures Conserves(p, PipeSpec.Read(p, r, reply), [], id, One(r == id), reply.close.ClosesReader?)
  {
    if p.phase.Idle? {
      ReadIdleConserves(p, r, reply.taken, id);
    } else {
      var f := Flush(p);
      FlushConserves(p, id);
      if f.pipe.phase.Idle? {
        ReadIdleConserves(f.pipe, r, reply.taken, id);
        Compose(p, f, 0, ReadIdle(f.pipe, r, reply.taken), One(r == id), id, false);
      } else {
        ReadPastConserves(f.pipe, r, reply, id);
        Compose(p, f, 0, ReadPast(f.pipe, r, reply), One(r == id), id, reply.close.ClosesReader?);
      }
    }
  }

  /** A write handed to a waiting read that takes a part of it. */
  lemma PartTakenConserves(p: Pipe, w: nat, data: seq<byte>, first: Fired, id: nat)
    requires p.buf == [] && p.phase.ReadPending? && first.Delivered? && first == Delivered(p.phase.r, data, first.taken) && first.taken < |data|
    ensures Conserves(p, Outcome(p.(phase := WritePending(w, data[first.taken..])), [first], 0), data, id, One(w == id), false)
  {
    Single(first, id);
    assert data[..first.taken] + data[first.taken..] == data;
  }

  /** A write handed to a waiting read that takes all of it. */
  lemma AllTakenConserves(p: Pipe, w: nat, first: Fired, id: nat)
    requires p.buf == [] && p.phase.ReadPending? && first.Delivered? && first == Delivered(p.phase.r, first.offered, |first.offered|)
    ensures Conserves(p, Outcome(p.(phase := Idle), [first] + [WriteDone(w, false)], 0), first.offered, id, One(w == id), false)
  {
    var last := WriteDone(w, false);
    Single(first, id);
    Single(last, id);
    Concat([first], [last], id);
  }

  lemma HandOverConserves(p: Pipe, w: nat, data: seq<byte>, reply: Reply, id: nat)
    requires Valid(p) && data != [] && p.phase.ReadPending? && reply.taken <= |data|
    ensures Conserves(p, PipeSpec.Write(p, w, data, reply), data, id, One(w == id), false)
  {
    var first := Delivered(p.phase.r, data, reply.taken);
    if reply.taken < |data| {
      PartTakenConserves(p, w, data, first, id);
    } else {
      AllTakenConserves(p, w, first, id);
    }
  }

  lemma WriteConserves(p: Pipe, w: nat, data: seq<byte>, reply: Reply, id: nat)
    requires Valid(p) && (p.phase.WritePending? ==> data == [] || p.eof)
    requires p.phase.ReadPending? ==> reply.taken <= |data|
    ensures Conserves(p, PipeSpec.Write(p, w, data, reply), if p.eof then [] else data, id, One(w == id), false)
  {
    if data != [] && p.phase.ReadPending? {
      HandOverConserves(p, w, data, reply, id);
    } else {
      Single(WriteDone(w, p.eof), id);
    }
  }

  lemma CloseConserves(p: Pipe, id: nat)
    requires Valid(p)
    ensures Conserves(p, PipeSpec.CloseReader(p), [], id, 0, p.phase.WritePending?)
    ensures Conserves(p, PipeSpec.CloseWriter(p), [], id, 0, false)
  {
    if p.phase.WritePending? {
      Single(WriteDone(p.phase.w, true), id);
    } else if p.phase.ReadPending? {
      Single(EndOfFile(p.phase.r), id);
    }
  }

  /** Every operation of the pipe conserves bytes and callbacks. */
  lemma ApplyConserves(p: Pipe, next: nat, op: Op, id: nat)
    requires Enabled(p, op)
    ensures Conserves(p, Apply(p, next, op), Accepts(p, op), id, One(HasCallback(op) && next == id), Cuts(p, op))
  {
    match op
    case DoRead(reply) => ReadConserves(p, next, reply, id);
    case DoWrite(data, reply) => WriteConserves(p, next, data, reply, id);
    case _ => CloseConserves(p, id);
  }

  lemma ReadFrame(p: Pipe, r: nat, reply: Reply)
    requires Enabled(p, DoRead(reply))
    ensures var q := PipeSpec.Read(p, r, reply).pipe; (p.eof ==> q.eof) && q.limit == p.limit && q.commits == p.commits
    ensures reply.close.ClosesReader? ==> PipeSpec.Read(p, r, reply).pipe.eof && PipeSpec.Read(p, r, reply).pipe.phase.Idle?
  { }

  lemma WriteValid(p: Pipe, w: nat, data: seq<byte>, reply: Reply)
    requires Enabled(p, DoWrite(data, reply))
    ensures var q := PipeSpec.Write(p, w, data, reply).pipe;
            Valid(q) && q.eof == p.eof && q.limit == p.limit && q.commits == p.commits
  { }

  /** The invariant of the phases holds again after every operation, and the end of file stays. */
  lemma ApplyValid(p: Pipe, id: nat, op: Op)
    requires Enabled(p, op)
    ensures var q := Apply(p, id, op).pipe; Valid(q) && (p.eof ==> q.eof) && q.limit == p.limit && q.commits == p.commits
    ensures Cuts(p, op) ==> Apply(p, id, op).pipe.eof && Apply(p, id, op).pipe.phase.Idle?
  {
    match op
    case DoRead(reply) =>
      ReadValid(p, id, reply);
      ReadFrame(p, id, reply);
    case DoWrite(data, reply) => WriteValid(p, id, data, reply);
    case _ =>
  }

  /** A flush that commits, or one into a buffer that never has room, loses nothing. */
  lemma LosesNothing(p: Pipe, id: nat, op: Op)
    requires Enabled(p, op) && (p.commits || p.limit == 0)
    ensures Apply(p, id, op).lost == 0
  {
    if op.DoRead? && p.phase.WritePending? {
      FlushLoses(p);
    }
  }

  /** A read that leaves every byte in its place, by a test before the call. */
  ghost predicate KeepsBytes(p: Pipe, op: Op)
    requires Enabled(p, op)
  {
    p.commits || !op.DoRead? || !p.phase.WritePending? ||
    (|p.buf| == p.limit && (p.limit == 0 || op.reply.taken == 0 || op.reply.close.ClosesReader?))
  }

  /**
   As written, a read of a pipe with a pending write keeps every byte exactly when the buffer is full and either the
   pipe is synchronous (limit 0) or the reader takes nothing or closes.
   */
  lemma AsWrittenReadKeepsBytes(p: Pipe, r: nat, reply: Reply)
    requires Enabled(p, DoRead(reply)) && p.phase.WritePending? && !p.commits
    ensures PipeSpec.Read(p, r, reply).lost == 0 <==>
            |p.buf| == p.limit && (p.limit == 0 || reply.taken == 0 || reply.close.ClosesReader?)
  {
    FlushLoses(p);
    if |p.buf| == p.limit {
      assert Flush(p).pipe == p by { assert p.phase.rest[0..] == p.phase.rest; }
      if !reply.close.ClosesReader? { FlushLoses(AfterTaking(p, reply)); }
    }
  }

  /** No operation but a read of a pending write loses bytes, and such a read only as its test says. */
  lemma LosesExactly(p: Pipe, id: nat, op: Op)
    requires Enabled(p, op)
    ensures Apply(p, id, op).lost == 0 <==> KeepsBytes(p, op)
  {
    if p.commits {
      LosesNothing(p, id, op);
    } else if op.DoRead? && p.phase.WritePending? {
      AsWrittenReadKeepsBytes(p, id, op.reply);
    }
  }

  // ---------------------------------------------------------------- closing the reader

  /** A flush that leaves a write pending has filled the buffer, if it commits. */
  lemma FlushFills(p: Pipe)
    requires |p.buf| <= p.limit && p.phase.WritePending? && Flush(p).pipe.phase.WritePending?
    ensures |Flush(p).pipe.buf| == if p.commits then p.limit else |p.buf|
  { }

  /**
   A read callback that closes the reader leaves the bytes it took at the front of the buffer, to be offered again by the
   next read, exactly when the pipe has a buffer and the callback takes something; without commits, exactly when there were
   bytes in the buffer and it takes something.
   */
  lemma ClosingReadRepeatsExactly(p: Pipe, r: nat, reply: Reply)
    requires Enabled(p, DoRead(reply)) && reply.close.ClosesReader?
    ensures var o := PipeSpec.Read(p, r, reply);
            (Taken(o.fired) != [] && Taken(o.fired) <= Held(o.pipe) <==>
               reply.taken > 0 && (if p.commits then p.limit > 0 else p.buf != [])) &&
            (Taken(o.fired) != [] && Taken(o.fired) <= Held(o.pipe) <==> Repeats(p, DoRead(reply)))
  {
    FlushFills(p);
    ClosingRead(p, r, reply);
  }

  lemma ClosingPast(q: Pipe, r: nat, reply: Reply)
    requires |q.buf| <= q.limit && q.phase.WritePending? && reply.close.ClosesReader?
    requires reply.taken <= if |q.buf| > 0 then |q.buf| else |q.phase.rest|
    ensures Taken(ReadPast(q, r, reply).fired) == (if |q.buf| > 0 then q.buf else q.phase.rest)[..reply.taken]
  {
    var first := Delivered(r, if |q.buf| > 0 then q.buf else q.phase.rest, reply.taken);
    var last := WriteDone(q.phase.w, true);
    Single(first, 0);
    Single(last, 0);
    TakenConcat([first], [last]);
  }

  lemma ClosingRead(p: Pipe, r: nat, reply: Reply)
    requires Enabled(p, DoRead(reply)) && reply.close.ClosesReader?
    ensures var o := PipeSpec.Read(p, r, reply); var q := Flush(p).pipe;
            o.pipe.phase.Idle? && o.pipe.buf == q.buf && o.lost == Flush(p).lost &&
            Taken(o.fired) == (if |q.buf| > 0 then q.buf else q.phase.rest)[..reply.taken]
  {
    var q := Flush(p).pipe;
    ClosingPast(q, r, reply);
    assert PipeSpec.Read(p, r, reply).fired == ReadPast(q, r, reply).fired;
  }

  /** A reader close that repeats nothing leaves a front part of what was held. */
  lemma CutKeepsFront(p: Pipe, id: nat, op: Op)
    requires Enabled(p, op) && Cuts(p, op) && !Repeats(p, op)
    ensures var o := Apply(p, id, op); o.lost == 0 ==> Taken(o.fired) + Held(o.pipe) <= Held(p)
  {
    if CutsInside(p, op) {
      FlushLoses(p);
      ClosingRead(p, id, op.reply);
      var q := Flush(p).pipe;
      if q.buf == [] { assert Held(q) == q.phase.rest; }
    } else {
      Single(WriteDone(p.phase.w, true), 0);
      assert Taken(Apply(p, id, op).fired) == [] && Held(Apply(p, id, op).pipe) == p.buf;
    }
  }

  // ---------------------------------------------------------------- runs

  ghost predicate Inv(h: Run, id: nat) {
    && Valid(h.pipe)
    && Calls(h.fired, id) + Owes(h.pipe, id) == One(id < h.next)
    && (h.cut.Whole? ==> |h.delivered| + |Held(h.pipe)| + h.lost == |h.accepted|)
    && (h.cut.Whole? && h.lost == 0 ==> h.delivered + Held(h.pipe) == h.accepted)
    && (h.cut.Dropped? && h.lost == 0 ==> h.delivered + Held(h.pipe) <= h.accepted)
    && (!h.cut.Whole? ==> h.pipe.eof && h.pipe.phase.Idle?)
    && (h.pipe.commits || h.pipe.limit == 0 ==> h.lost == 0)
  }

  /** Once the end of file is set and nothing is pending, nothing becomes pending or is accepted again. */
  lemma AfterEnd(p: Pipe, id: nat, op: Op)
    requires Enabled(p, op) && p.eof && p.phase.Idle?
    ensures Apply(p, id, op).pipe.phase.Idle? && Apply(p, id, op).lost == 0 && Accepts(p, op) == [] && !Cuts(p, op)
  {
  }

  lemma StepBytes(h: Run, o: Outcome, accepts: seq<byte>, id: nat, issued: nat)
    requires |h.delivered| + |Held(h.pipe)| + h.lost == |h.accepted|
    requires h.lost == 0 ==> h.delivered + Held(h.pipe) == h.accepted
    requires Conserves(h.pipe, o, accepts, id, issued, false)
    ensures |h.delivered + Taken(o.fired)| + |Held(o.pipe)| + (h.lost + o.lost) == |h.accepted + accepts|
    ensures h.lost + o.lost == 0 ==> h.delivered + Taken(o.fired) + Held(o.pipe) == h.accepted + accepts
  {
    if h.lost + o.lost == 0 {
      assert (h.delivered + Taken(o.fired)) + Held(o.pipe) == h.delivered + (Held(h.pipe) + accepts);
    }
  }

  lemma PrefixAfter(a: seq<byte>, x: seq<byte>, y: seq<byte>, z: seq<byte>)
    requires x + y <= z
    ensures a + x + y <= a + z
  {
    assert a + x + y == a + (x + y);
  }

  /** The close that drops a pending write leaves a front part of what was accepted. */
  lemma StepCuts(h: Run, op: Op)
    requires h.delivered + Held(h.pipe) == h.accepted && Enabled(h.pipe, op) && Cuts(h.pipe, op) && !Repeats(h.pipe, op)
    ensures var n := Step(h, op); Apply(h.pipe, h.next, op).lost == 0 ==> n.delivered + Held(n.pipe) <= n.accepted
  {
    CutKeepsFront(h.pipe, h.next, op);
    var o := Apply(h.pipe, h.next, op);
    if o.lost == 0 { PrefixAfter(h.delivered, Taken(o.fired), Held(o.pipe), Held(h.pipe)); }
  }

  /** After that close it stays so. */
  lemma StepAfterCut(h: Run, op: Op)
    requires h.delivered + Held(h.pipe) <= h.accepted && Enabled(h.pipe, op) && h.pipe.eof && h.pipe.phase.Idle?
    ensures var n := Step(h, op); n.delivered + Held(n.pipe) == h.delivered + Held(h.pipe) && n.accepted == h.accepted
  {
    AfterEnd(h.pipe, h.next, op);
    ApplyConserves(h.pipe, h.next, op, 0);
    var o := Apply(h.pipe, h.next, op);
    assert (h.delivered + Taken(o.fired)) + Held(o.pipe) == h.delivered + (Taken(o.fired) + Held(o.pipe));
  }

  lemma StepDropped(h: Run, op: Op, id: nat)
    requires Inv(h, id) && Enabled(h.pipe, op)
    ensures var n := Step(h, op); n.cut.Dropped? && n.lost == 0 ==> n.delivered + Held(n.pipe) <= n.accepted
  {
    var n := Step(h, op);
    if n.cut.Dropped? && n.lost == 0 {
      if h.cut.Whole? {
        StepCuts(h, op);
      } else {
        AfterEnd(h.pipe, h.next, op);
        StepAfterCut(h, op);
      }
    }
  }

  /** Every operation keeps the accounts of a run. */
  lemma StepPreserves(h: Run, op: Op, id: nat)
    requires Inv(h, id) && Enabled(h.pipe, op)
    ensures Inv(Step(h, op), id)
  {
    var o := Apply(h.pipe, h.next, op);
    ApplyValid(h.pipe, h.next, op);
    ApplyConserves(h.pipe, h.next, op, id);
    Concat(h.fired, o.fired, id);
    if h.cut.Whole? && !Cuts(h.pipe, op) {
      StepBytes(h, o, Accepts(h.pipe, op), id, One(HasCallback(op) && h.next == id));
    }
    StepDropped(h, op, id);
    if h.pipe.commits || h.pipe.limit == 0 { LosesNothing(h.pipe, h.next, op); }
    if !h.cut.Whole? { AfterEnd(h.pipe, h.next, op); }
  }

  lemma {:induction false} RunKeepsInv(h: Run, ops: seq<Op>, id: nat)
    requires Inv(h, id) && Legal(h, ops)
    ensures Inv(Exec(h, ops), id) && Exec(h, ops).pipe.commits == h.pipe.commits && Exec(h, ops).pipe.limit == h.pipe.limit
    decreases ops
  {
    if ops != [] {
      StepPreserves(h, ops[0], id);
      ApplyValid(h.pipe, h.next, ops[0]);
      RunKeepsInv(Step(h, ops[0]), ops[1..], id);
    }
  }

  /** No read that closes the reader from its callback takes bytes, unless the pipe has no buffer. */
  ghost predicate NeverRepeats(h: Run, ops: seq<Op>)
    requires Legal(h, ops)
    decreases ops
  {
    ops == [] || (!Repeats(h.pipe, ops[0]) && NeverRepeats(Step(h, ops[0]), ops[1..]))
  }

  lemma {:induction false} RepeatedExactly(h: Run, ops: seq<Op>, id: nat)
    requires Inv(h, id) && Legal(h, ops)
    ensures Exec(h, ops).cut.Repeated? <==> h.cut.Repeated? || !NeverRepeats(h, ops)
    decreases ops
  {
    if ops != [] {
      if h.pipe.eof && h.pipe.phase.Idle? { AfterEnd(h.pipe, h.next, ops[0]); }
      StepPreserves(h, ops[0], id);
      RepeatedExactly(Step(h, ops[0]), ops[1..], id);
    }
  }

  /**
   Bytes delivered, buffered and pending are, in order, exactly the bytes accepted, up to a reader close; after one, they are
   a front part of the bytes accepted, if no callback that closed the reader had taken buffered bytes.
   */
  lemma PipeConserves(limit: nat, commits: bool, ops: seq<Op>)
    requires Legal(Start(limit, commits), ops)
    requires commits || limit == 0
    ensures var h := Exec(Start(limit, commits), ops);
            (h.cut.Whole? ==> h.delivered + Held(h.pipe) == h.accepted) &&
            (NeverRepeats(Start(limit, commits), ops) ==> h.delivered + Held(h.pipe) <= h.accepted)
  {
    Conserved(Start(limit, commits), limit, commits, ops);
  }

  lemma Conserved(h: Run, limit: nat, commits: bool, ops: seq<Op>)
    requires h == Start(limit, commits) && Legal(h, ops) && (commits || limit == 0)
    ensures var n := Exec(h, ops);
            (n.cut.Whole? ==> n.delivered + Held(n.pipe) == n.accepted) &&
            (NeverRepeats(h, ops) ==> n.delivered + Held(n.pipe) <= n.accepted)
  {
    RunKeepsInv(h, ops, 0);
    RepeatedExactly(h, ops, 0);
  }

  /** Two bytes written to a pipe of limit one: a read that takes the first and closes leaves it to be read again. */
  lemma ClosingInsideRepeats(a: byte, b: byte) returns (ops: seq<Op>)
    ensures ops == [DoWrite([a, b], Reply(0, NoClose)), DoRead(Reply(1, ClosesReader)), DoRead(Reply(1, NoClose))]
    ensures Legal(Start(1, true), ops)
    ensures var h := Exec(Start(1, true), ops); h.accepted == [a, b] && h.delivered == [a, a] && h.cut.Repeated?
  {
    var h := Start(1, true);
    var write, close, again := DoWrite([a, b], Reply(0, NoClose)), DoRead(Reply(1, ClosesReader)), DoRead(Reply(1, NoClose));
    var h1 := Step(h, write);
    assert h1.accepted == [a, b] && h1.next == 1 && h1.delivered == [];
    ClosedKeeps(h1, a, b);
    ops := [write, close, again];
    TwoSteps(h1, close, again);
    assert ops[1..] == [close, again];
  }

  lemma ClosedKeeps(h1: Run, a: byte, b: byte)
    requires h1.pipe == Pipe([], 1, true, WritePending(0, [a, b]), false) && h1.next == 1 && h1.delivered == []
    ensures var close, again := DoRead(Reply(1, ClosesReader)), DoRead(Reply(1, NoClose));
            Enabled(h1.pipe, close) && Enabled(Step(h1, close).pipe, again) &&
            var h3 := Step(Step(h1, close), again);
            h3.delivered == [a, a] && h3.accepted == h1.accepted && h3.cut.Repeated?
  {
    var close, again := DoRead(Reply(1, ClosesReader)), DoRead(Reply(1, NoClose));
    FlushedFull(h1.pipe, a, b);
    var h2 := Step(h1, close);
    ClosingRead(h1.pipe, 1, close.reply);
    assert h2.delivered == [a] && h2.pipe == Pipe([a], 1, true, Idle, true);
    Single(Delivered(2, [a], 1), 0);
    assert Step(h2, again).delivered == [a] + [a];
  }

  lemma FlushedFull(p: Pipe, a: byte, b: byte)
    requires p == Pipe([], 1, true, WritePending(0, [a, b]), false)
    ensures Flush(p).pipe == Pipe([a], 1, true, WritePending(0, [b]), false)
    ensures ReplyOk(p, Reply(1, ClosesReader))
  {
    assert p.phase.rest[..1] == [a] && p.phase.rest[1..] == [b];
  }

  ghost predicate NeverCuts(h: Run, ops: seq<Op>)
    requires Legal(h, ops)
    decreases ops
  {
    ops == [] || (!Cuts(h.pipe, ops[0]) && NeverCuts(Step(h, ops[0]), ops[1..]))
  }

  /** Each read of a pending write passes its test. */
  ghost predicate AllKeepBytes(h: Run, ops: seq<Op>)
    requires Legal(h, ops)
    decreases ops
  {
    ops == [] || (KeepsBytes(h.pipe, ops[0]) && AllKeepBytes(Step(h, ops[0]), ops[1..]))
  }

  lemma {:induction false} RunLosesExactly(h: Run, ops: seq<Op>)
    requires Legal(h, ops)
    ensures Exec(h, ops).lost >= h.lost
    ensures Exec(h, ops).lost == h.lost <==> AllKeepBytes(h, ops)
    ensures h.cut.Whole? && NeverCuts(h, ops) ==> Exec(h, ops).cut.Whole?
    decreases ops
  {
    if ops != [] {
      LosesExactly(h.pipe, h.next, ops[0]);
      RunLosesExactly(Step(h, ops[0]), ops[1..]);
    }
  }

  /**
   The pipe as written, for any limit: a run without a discarding close keeps its bytes exactly when each of its reads
   that faces a pending write finds the buffer full, and either the pipe has no buffer or the callback takes nothing.
   */
  lemma AsWrittenConservesExactly(limit: nat, ops: seq<Op>)
    requires Legal(Start(limit, false), ops) && NeverCuts(Start(limit, false), ops)
    ensures var h := Exec(Start(limit, false), ops);
            h.delivered + Held(h.pipe) == h.accepted <==> AllKeepBytes(Start(limit, false), ops)
  {
    KeptExactly(Start(limit, false), limit, ops);
  }

  lemma KeptExactly(h: Run, limit: nat, ops: seq<Op>)
    requires h == Start(limit, false) && Legal(h, ops) && NeverCuts(h, ops)
    ensures var n := Exec(h, ops); n.delivered + Held(n.pipe) == n.accepted <==> AllKeepBytes(h, ops)
  {
    RunKeepsInv(h, ops, 0);
    RunLosesExactly(h, ops);
    var n := Exec(h, ops);
    if n.delivered + Held(n.pipe) == n.accepted {
      assert |n.delivered| + |Held(n.pipe)| == |n.accepted|;
    }
  }

  /** As written, a two byte write to a pipe of limit one reaches the next read without its first byte. */
  lemma AsWrittenLosesBytes(a: byte, b: byte) returns (ops: seq<Op>)
    ensures ops == [DoWrite([a, b], Reply(0, NoClose)), DoRead(Reply(1, NoClose))]
    ensures Legal(Start(1, false), ops)
    ensures var h := Exec(Start(1, false), ops); h.accepted == [a, b] && h.delivered == [b] && h.lost == 1
  {
    var h := Start(1, false);
    var write, read := DoWrite([a, b], Reply(0, NoClose)), DoRead(Reply(1, NoClose));
    var h1 := Step(h, write);
    assert h1.accepted == [a, b] && h1.next == 1;
    FlushedShort(h1.pipe, a, b);
    TwoSteps(h, write, read);
    ops := [write, read];
  }

  lemma TwoSteps(h: Run, a: Op, b: Op)
    requires Enabled(h.pipe, a) && Enabled(Step(h, a).pipe, b)
    ensures Legal(h, [a, b]) && Exec(h, [a, b]) == Step(Step(h, a), b)
  {
    var h1 := Step(h, a);
    var h2 := Step(h1, b);
    assert [a, b][1..] == [b] && [b][1..] == [];
    assert Legal(h2, []) && Legal(h1, [b]);
    assert Exec(h1, [b]) == Exec(h2, []);
  }

  lemma FlushedShort(p: Pipe, a: byte, b: byte)
    requires p == Pipe([], 1, false, WritePending(0, [a, b]), false)
    ensures ReplyOk(p, Reply(1, NoClose))
    ensures Taken(PipeSpec.Read(p, 1, Reply(1, NoClose)).fired) == [b] && PipeSpec.Read(p, 1, Reply(1, NoClose)).lost == 1
  {
    var q := Flush(p).pipe;
    assert q == Pipe([], 1, false, WritePending(0, [b]), false) && Flush(p).fired == [];
    var last := AfterTaking(q, Reply(1, NoClose));
    assert last.phase.rest == [];
    assert Flush(last).fired == [WriteDone(0, false)] && Flush(last).lost == 0;
    var first := Delivered(1, [b], 1);
    Single(first, 0);
    Single(WriteDone(0, false), 0);
    Concat([first], [WriteDone(0, false)], 0);
    assert PipeSpec.Read(p, 1, Reply(1, NoClose)).fired == [first] + [WriteDone(0, false)];
  }

  /** Of every read and write issued so far, either the callback was called once or the pipe still owes it. */
  lemma CallbacksOnce(limit: nat, commits: bool, ops: seq<Op>, id: nat)
    requires Legal(Start(limit, commits), ops)
    ensures var h := Exec(Start(limit, commits), ops); Calls(h.fired, id) + Owes(h.pipe, id) == One(id < h.next)
  {
    RunKeepsInv(Start(limit, commits), ops, id);
  }

  ghost predicate Ends(fs: seq<Fired>) { exists k :: 0 <= k < |fs| && fs[k].EndOfFile? }

  /**
   End of file is reported only once it is set and nothing is buffered or pending; if no byte was lost or discarded,
   everything accepted has then been delivered.
   */
  lemma EndOfFileMeansDrained(limit: nat, commits: bool, ops: seq<Op>, op: Op)
    requires Legal(Start(limit, commits), ops)
    requires Enabled(Exec(Start(limit, commits), ops).pipe, op)
    requires Ends(Apply(Exec(Start(limit, commits), ops).pipe, Exec(Start(limit, commits), ops).next, op).fired)
    ensures var n := Step(Exec(Start(limit, commits), ops), op);
            n.pipe.eof && Held(n.pipe) == [] && (n.cut.Whole? && n.lost == 0 ==> n.delivered == n.accepted)
  {
    Reached(Start(limit, commits), limit, commits, ops);
    Drained(Exec(Start(limit, commits), ops), op);
  }

  lemma Reached(h: Run, limit: nat, commits: bool, ops: seq<Op>)
    requires h == Start(limit, commits) && Legal(h, ops)
    ensures Inv(Exec(h, ops), 0)
  {
    RunKeepsInv(h, ops, 0);
  }

  lemma Drained(h: Run, op: Op)
    requires Inv(h, 0) && Enabled(h.pipe, op) && Ends(Apply(h.pipe, h.next, op).fired)
    ensures var n := Step(h, op); n.pipe.eof && Held(n.pipe) == [] && (n.cut.Whole? && n.lost == 0 ==> n.delivered == n.accepted)
  {
    StepPreserves(h, op, 0);
    EndsDrained(h.pipe, h.next, op);
  }

  lemma EndsConcat(a: seq<Fired>, b: seq<Fired>)
    ensures Ends(a + b) ==> Ends(a) || Ends(b)
  { }

  lemma EndsDrained(p: Pipe, id: nat, op: Op)
    requires Enabled(p, op) && Ends(Apply(p, id, op).fired)
    ensures var q := Apply(p, id, op).pipe; q.eof && Held(q) == []
  {
    if op.DoRead? && p.phase.WritePending? {
      var f := Flush(p);
      if f.pipe.phase.Idle? {
        EndsConcat(f.fired, ReadIdle(f.pipe, id, op.reply.taken).fired);
      } else {
        EndsConcat(f.fired, ReadPast(f.pipe, id, op.reply).fired);
        PastNeverEnds(f.pipe, id, op.reply);
      }
    }
  }

  lemma PastNeverEnds(q: Pipe, r: nat, reply: Reply)
    requires |q.buf| <= q.limit && q.phase.WritePending?
    requires reply.taken <= if |q.buf| > 0 then |q.buf| else |q.phase.rest|
    ensures !Ends(ReadPast(q, r, reply).fired)
  { }

  /** After the end of file is set, whatever is still done to the pipe, no write is accepted. */
  lemma {:induction false} EndIsSticky(h: Run, ops: seq<Op>)
    requires h.pipe.eof && Legal(h, ops)
    ensures Exec(h, ops).pipe.eof && Exec(h, ops).accepted == h.accepted
    decreases ops
  {
    if ops != [] {
      ApplyValid(h.pipe, h.next, ops[0]);
      EndIsSticky(Step(h, ops[0]), ops[1..]);
    }
  }
}
