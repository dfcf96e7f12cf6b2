/** The pipe over the compacting buffer, proved to do what `PipeSpec` says. */
module Pipes {
  import opened Common
  import opened Buffers
  import opened PipeSpec

  class TwibPipe {
    const buffer: Buffer
    const commits: bool
    var state: Phase
    var hitEof: bool

    ghost predicate Valid()
      reads this, buffer, buffer.data
    {
      buffer.Valid() && buffer.limit.Some? && PipeSpec.Valid(Abs())
    }

    ghost function Abs(): Pipe
      reads this, buffer, buffer.data
      requires buffer.Valid() && buffer.limit.Some?
    {
      Pipe(buffer.Contents(), buffer.limit.value, commits, state, hitEof)
    }

    constructor (bufferLimit: nat, commits: bool)
      ensures Valid() && fresh(buffer) && fresh(buffer.data)
      ensures Abs() == Pipe([], bufferLimit, commits, Idle, false)
    {
      buffer := new Buffer.Limited(bufferLimit);
      this.commits := commits;
      state, hitEof := Idle, false;
    }

    /** Copies what fits of `rest` into reserved room, and commits it if this pipe does so. */
    method CopyToBuffer(rest: seq<byte>) returns (room: nat)
      requires buffer.Valid() && buffer.limit.Some?
      modifies buffer, buffer.data
      ensures buffer.Valid() && (buffer.data == old(buffer.data) || fresh(buffer.data))
      ensures PipeSpec.Min(room, |rest|) == PipeSpec.Min(|rest|, Room(old(Abs()))) >= 0
      ensures buffer.Contents() == old(buffer.Contents()) + if commits then rest[..PipeSpec.Min(room, |rest|)] else []
    {
      room := buffer.Reserve(|rest|);
      var allowed := PipeSpec.Min(room, |rest|);
      buffer.Fill(rest[..allowed]);
      if commits {
        buffer.MarkWritten(allowed);
      }
    }

    /** Flushes what fits of the pending write to the buffer; if all of it fits, the write is done. */
    method FlushWritePendingState() returns (fired: seq<Fired>)
      requires buffer.Valid() && buffer.limit.Some? && state.WritePending?
      modifies this, buffer, buffer.data
      ensures buffer.Valid() && (buffer.data == old(buffer.data) || fresh(buffer.data))
      ensures Abs() == Flush(old(Abs())).pipe && fired == Flush(old(Abs())).fired
    {
      var rest := state.rest;
      var room := CopyToBuffer(rest);
      if PipeSpec.Min(room, |rest|) < |rest| {
        state := WritePending(state.w, rest[room..]);
        fired := [];
      } else {
        var w := state.w;
        state := Idle;
        fired := [WriteDone(w, false)];
      }
    }

    method ReadIdleState(r: nat, taken: nat) returns (fired: seq<Fired>)
      requires buffer.Valid() && buffer.limit.Some? && state.Idle? && taken <= |Abs().buf|
      modifies this, buffer`readHead
      ensures buffer.Valid() && buffer.data == old(buffer.data)
      ensures Abs() == ReadIdle(old(Abs()), r, taken).pipe && fired == ReadIdle(old(Abs()), r, taken).fired
    {
      var available := buffer.ReadAvailable();
      if available > 0 {
        var offered := buffer.GetData();
        buffer.MarkRead(taken);
        fired := [Delivered(r, offered, taken)];
      } else if hitEof {
        fired := [EndOfFile(r)];
      } else {
        state := ReadPending(r);
        fired := [];
      }
    }

    /** `reply` is what the read callback does when it is called. */
    method Read(r: nat, reply: Reply) returns (fired: seq<Fired>)
      requires Valid() && !state.ReadPending? && ReplyOk(Abs(), reply)
      modifies this, buffer, buffer.data
      ensures Valid() && (buffer.data == old(buffer.data) || fresh(buffer.data))
      ensures Abs() == PipeSpec.Read(old(Abs()), r, reply).pipe
      ensures fired == PipeSpec.Read(old(Abs()), r, reply).fired
    {
      ReadValid(Abs(), r, reply);
      if state.Idle? {
        fired := ReadIdleState(r, reply.taken);
        return;
      }
      fired := FlushWritePendingState();
      var more;
      if state.Idle? {
        more := ReadIdleState(r, reply.taken);
      } else {
        more := ReadPastPendingWrite(r, reply);
      }
      fired := fired + more;
    }

    method ReadPastPendingWrite(r: nat, reply: Reply) returns (fired: seq<Fired>)
      requires buffer.Valid() && buffer.limit.Some? && state.WritePending?
      requires reply.taken <= if |Abs().buf| > 0 then |Abs().buf| else |state.rest|
      modifies this, buffer, buffer.data
      ensures buffer.Valid() && (buffer.data == old(buffer.data) || fresh(buffer.data))
      ensures Abs() == ReadPast(old(Abs()), r, reply).pipe && fired == ReadPast(old(Abs()), r, reply).fired
    {
      var available := buffer.ReadAvailable();
      var offered;
      if available > 0 {
        offered := buffer.GetData();
      } else {
        offered := state.rest;
      }
      fired := [Delivered(r, offered, reply.taken)];
      var closed := CloseInside(reply.close);
      fired := fired + closed;
      if !state.WritePending? { return; }
      if available > 0 {
        buffer.MarkRead(reply.taken);
      } else {
        state := WritePending(state.w, state.rest[reply.taken..]);
      }
      var more := FlushWritePendingState();
      fired := fired + more;
    }

    /** A read callback closing the pipe while a write is pending. */
    method CloseInside(close: Close) returns (fired: seq<Fired>)
      requires state.WritePending? && buffer.Valid() && buffer.limit.Some?
      modifies this
      ensures state == if close.ClosesReader? then Idle else old(state)
      ensures hitEof == (old(hitEof) || close != NoClose)
      ensures fired == if close.ClosesReader? then [WriteDone(old(state).w, true)] else []
    {
      fired := [];
      if close.ClosesReader? {
        fired := CloseReader();
      } else if close.ClosesWriter? {
        fired := CloseWriter();
      }
    }

    method Write(w: nat, data: seq<byte>, reply: Reply) returns (fired: seq<Fired>)
      requires Valid() && (state.WritePending? ==> data == [] || hitEof)
      requires state.ReadPending? ==> reply.taken <= |data|
      modifies this, buffer, buffer.data
      ensures Valid() && (buffer.data == old(buffer.data) || fresh(buffer.data))
      ensures Abs() == PipeSpec.Write(old(Abs()), w, data, reply).pipe
      ensures fired == PipeSpec.Write(old(Abs()), w, data, reply).fired
    {
      if |data| == 0 || hitEof {
        return [WriteDone(w, hitEof)];
      }
      match state
      case Idle =>
        var ok := buffer.Write(data);
        if ok {
          fired := [WriteDone(w, false)];
        } else {
          state := WritePending(w, data);
          fired := [];
        }
      case ReadPending(r) =>
        fired := [Delivered(r, data, reply.taken)];
        if reply.taken < |data| {
          state := WritePending(w, data[reply.taken..]);
        } else {
          state := Idle;
          fired := fired + [WriteDone(w, false)];
        }
    }

    method CloseReader() returns (fired: seq<Fired>)
      requires buffer.Valid() && buffer.limit.Some?
      modifies this
      ensures Abs() == PipeSpec.CloseReader(old(Abs())).pipe && fired == PipeSpec.CloseReader(old(Abs())).fired
    {
      hitEof := true;
      match state {
        case Idle => fired := [];
        case WritePending(w, _) => fired := [WriteDone(w, true)];
        case ReadPending(r) => fired := [EndOfFile(r)];
      }
      state := Idle;
    }

    method CloseWriter() returns (fired: seq<Fired>)
      requires buffer.Valid() && buffer.limit.Some?
      modifies this
      ensures Abs() == PipeSpec.CloseWriter(old(Abs())).pipe && fired == PipeSpec.CloseWriter(old(Abs())).fired
    {
      hitEof := true;
      fired := [];
      if state.ReadPending? {
        fired := [EndOfFile(state.r)];
        state := Idle;
      }
    }
  }
}
