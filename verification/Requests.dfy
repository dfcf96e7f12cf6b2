/** The device side of a request: when the handler of a command is invoked, with what, and when a request is refused. */
module Requests {
  import opened Common
  import opened LittleEndian
  import opened Arguments

  /** What one request sees: calls of its handler, bytes and end of its stream, and refusals. */
  datatype Handler = Handler(progress: Progress, consumed: nat, streaming: bool, bad: bool,
                             calls: seq<seq<Value>>, streamed: seq<byte>, finished: nat, refusals: nat)

  const OPENED := Handler(START, 0, false, false, [], [], 0, 0)

  datatype Flushed = Flushed(handler: Handler, rest: seq<byte>)

  /** The bytes the arguments announce after themselves. */
  function Announced(schema: seq<ArgType>, vs: seq<Value>): nat
    requires MatchesAll(schema, vs)
  {
    if HasStream(schema) then
      assert Matches(schema[|schema| - 1], vs[|vs| - 1]);
      vs[|vs| - 1].expected
    else 0
  }

  function Refuse(h: Handler): Handler { h.(bad := true, refusals := h.refusals + 1) }

  function Wanted(schema: seq<ArgType>, p: Progress): nat {
    if HasStream(schema) && p.values != [] && p.values[|p.values| - 1].StreamV? then p.values[|p.values| - 1].expected else 0
  }

  /** `FlushReceiveBuffer`, given the unread bytes of a payload of `size` bytes. */
  function Flush(schema: seq<ArgType>, size: nat, h: Handler, s: seq<byte>): Flushed
    requires |h.progress.values| <= |schema|
  {
    if h.bad then Flushed(h, [])
    else if !h.streaming then
      var u := Unpack(schema, h.progress, s);
      var h1 := h.(progress := u.progress, consumed := h.consumed + |s| - |u.rest|);
      if !u.done then Flushed(h1, u.rest)
      else if h1.consumed + Wanted(schema, u.progress) != size then Flushed(Refuse(h1), u.rest)
      else Flushed(h1.(streaming := true, calls := h1.calls + [u.progress.values]), u.rest)
    else if HasStream(schema) then Flushed(h.(streamed := h.streamed + s), [])
    else if s != [] then Flushed(Refuse(h), s)
    else Flushed(h, [])
  }

  function Finalize(schema: seq<ArgType>, size: nat, h: Handler, s: seq<byte>): Handler
    requires |h.progress.values| <= |schema|
  {
    var f := Flush(schema, size, h, s).handler;
    if f.streaming && HasStream(schema) then f.(finished := f.finished + 1) else f
  }

  /** A whole request: the pieces of its payload, each flushed as it arrives, and the end. */
  function Serve(schema: seq<ArgType>, size: nat, h: Handler, s: seq<byte>, chunks: seq<seq<byte>>): Handler
    requires |h.progress.values| <= |schema|
    decreases chunks
  {
    if chunks == [] then Finalize(schema, size, h, s)
    else
      var f := Flush(schema, size, h, s + chunks[0]);
      Serve(schema, size, f.handler, f.rest, chunks[1..])
  }

  function Flat(chunks: seq<seq<byte>>): seq<byte> {
    if chunks == [] then [] else chunks[0] + Flat(chunks[1..])
  }

  // ---------------------------------------------------------------- one request

  /** Where a request stands when the bytes `got` of its payload have arrived and `s` of them are unread. */
  ghost predicate Inv(schema: seq<ArgType>, size: nat, h: Handler, s: seq<byte>, got: seq<byte>) {
    var u := Unpack(schema, START, got);
    && |h.progress.values| <= |schema|
    && h.finished == 0
    && (h.bad ==> !h.streaming && h.calls == [] && h.streamed == [] && h.refusals == 1 && u.done &&
                  |got| - |u.rest| + Wanted(schema, u.progress) != size)
    && (!h.bad ==> h.refusals == 0)
    && (!h.bad && !h.streaming ==> !u.done || got == [])
    && (!h.bad && !h.streaming ==>
          Unpack(schema, h.progress, s) == u && h.consumed + |s| == |got| && h.calls == [] && h.streamed == [])
    && (h.streaming ==> u.done && h.calls == [u.progress.values] && h.streamed + s == u.rest &&
                        |got| - |u.rest| + Wanted(schema, u.progress) == size &&
                        (!HasStream(schema) ==> s == []))
  }

  /** Once unpacking is done, more bytes are only left over. */
  lemma DoneStays(schema: seq<ArgType>, got: seq<byte>, chunk: seq<byte>)
    requires Unpack(schema, START, got).done
    ensures var u := Unpack(schema, START, got); Unpack(schema, START, got + chunk) == u.(rest := u.rest + chunk)
  {
    UnpackResumes(schema, START, got, chunk);
  }

  lemma FlushReading(schema: seq<ArgType>, size: nat, h: Handler, s: seq<byte>, got: seq<byte>, chunk: seq<byte>)
    requires Inv(schema, size, h, s, got) && !h.bad && !h.streaming && |got + chunk| <= size
    ensures var f := Flush(schema, size, h, s + chunk); Inv(schema, size, f.handler, f.rest, got + chunk)
  {
    var all, unread := got + chunk, s + chunk;
    UnpackResumes(schema, START, got, chunk);
    UnpackResumes(schema, h.progress, s, chunk);
    var u := Unpack(schema, h.progress, unread);
    assert u == Unpack(schema, START, all);
    if !u.done {
      UnpackStops(schema, h.progress, unread);
    } else {
      assert [] + u.rest == u.rest;
    }
  }

  /** Unpacking that stopped for want of bytes stops again on what it left. */
  lemma UnpackStops(schema: seq<ArgType>, p: Progress, s: seq<byte>)
    requires |p.values| <= |schema|
    ensures var u := Unpack(schema, p, s); Unpack(schema, u.progress, u.rest) == u
  {
    UnpackResumes(schema, p, s, []);
    var u := Unpack(schema, p, s);
    assert s + [] == s && u.rest + [] == u.rest;
  }

  lemma FlushLater(schema: seq<ArgType>, size: nat, h: Handler, s: seq<byte>, got: seq<byte>, chunk: seq<byte>)
    requires Inv(schema, size, h, s, got) && (h.bad || h.streaming) && |got + chunk| <= size
    ensures var f := Flush(schema, size, h, s + chunk); Inv(schema, size, f.handler, f.rest, got + chunk)
  {
    DoneStays(schema, got, chunk);
    var u := Unpack(schema, START, got);
    if h.streaming {
      assert h.streamed + (s + chunk) == u.rest + chunk;
      assert (h.streamed + (s + chunk)) + [] == h.streamed + (s + chunk);
      assert !HasStream(schema) ==> |got| == size + |u.rest|;
    }
  }

  /** What a finished request has done, by the payload alone. */
  function Outcome(schema: seq<ArgType>, payload: seq<byte>): Handler {
    var u := Unpack(schema, START, payload);
    var h := OPENED.(progress := u.progress, consumed := |payload| - |u.rest|);
    if !u.done then h
    else if h.consumed + Wanted(schema, u.progress) != |payload| then Refuse(h)
    else h.(streaming := true, calls := [u.progress.values], streamed := u.rest,
            finished := if HasStream(schema) then 1 else 0)
  }

  /** What of a request others see: calls, stream contents, end of stream and refusals. */
  ghost predicate SameEffects(a: Handler, b: Handler) {
    a.calls == b.calls && a.streamed == b.streamed && a.finished == b.finished && a.refusals == b.refusals
  }

  lemma {:induction false} ServeInvariant(schema: seq<ArgType>, size: nat, h: Handler, s: seq<byte>, got: seq<byte>,
                                          chunks: seq<seq<byte>>)
    requires Inv(schema, size, h, s, got) && |got| + |Flat(chunks)| == size
    ensures SameEffects(Serve(schema, size, h, s, chunks), Outcome(schema, got + Flat(chunks)))
    decreases chunks
  {
    if chunks == [] {
      assert got + [] == got;
      FinalEffects(schema, h, s, got);
    } else {
      FlushKeeps(schema, size, h, s, got, chunks[0]);
      var f := Flush(schema, size, h, s + chunks[0]);
      assert got + Flat(chunks) == (got + chunks[0]) + Flat(chunks[1..]);
      ServeInvariant(schema, size, f.handler, f.rest, got + chunks[0], chunks[1..]);
    }
  }

  lemma FlushKeeps(schema: seq<ArgType>, size: nat, h: Handler, s: seq<byte>, got: seq<byte>, chunk: seq<byte>)
    requires Inv(schema, size, h, s, got) && |got + chunk| <= size
    ensures var f := Flush(schema, size, h, s + chunk); Inv(schema, size, f.handler, f.rest, got + chunk)
  {
    if !h.bad && !h.streaming {
      FlushReading(schema, size, h, s, got, chunk);
    } else {
      FlushLater(schema, size, h, s, got, chunk);
    }
  }

  lemma FinalEffects(schema: seq<ArgType>, h: Handler, s: seq<byte>, got: seq<byte>)
    requires Inv(schema, |got|, h, s, got)
    ensures SameEffects(Finalize(schema, |got|, h, s), Outcome(schema, got))
  {
  }

  /** The effects of a request depend on its payload alone, not on the pieces it arrives in. */
  lemma ChunkingIsInvisible(schema: seq<ArgType>, payload: seq<byte>, chunks: seq<seq<byte>>)
    requires Flat(chunks) == payload
    ensures SameEffects(Serve(schema, |payload|, OPENED, [], chunks), Outcome(schema, payload))
  {
    assert [] + payload == payload;
    ServeInvariant(schema, |payload|, OPENED, [], [], chunks);
  }

  lemma WantedIsAnnounced(schema: seq<ArgType>, vs: seq<Value>)
    requires MatchesAll(schema, vs)
    ensures Wanted(schema, Progress(vs, None)) == Announced(schema, vs)
  { }

  /** The payload is the packed arguments followed by as many bytes as they announce. */
  ghost predicate Carries(schema: seq<ArgType>, payload: seq<byte>, vs: seq<Value>, data: seq<byte>) {
    MatchesAll(schema, vs) && payload == PackAll(vs) + data
  }

  /** For any pieces, the handler is invoked, once, with `vs`, and its stream sees `data` and the end, exactly when the
      payload is `vs` packed followed by `data` of the announced length. */
  lemma InvokedExactly(schema: seq<ArgType>, payload: seq<byte>, chunks: seq<seq<byte>>, vs: seq<Value>, data: seq<byte>)
    requires Flat(chunks) == payload
    ensures var h := Serve(schema, |payload|, OPENED, [], chunks);
            h.calls == [vs] && h.streamed == data <==>
            Carries(schema, payload, vs, data) && |data| == Announced(schema, vs)
  {
    ChunkingIsInvisible(schema, payload, chunks);
    UnpackExactly(schema, payload, vs, data);
    var u := Unpack(schema, START, payload);
    if u.done {
      UnpackExactly(schema, payload, u.progress.values, u.rest);
      DoneHasNoSize(schema, payload);
      WantedIsAnnounced(schema, u.progress.values);
    }
  }

  lemma DoneHasNoSize(schema: seq<ArgType>, payload: seq<byte>)
    requires Unpack(schema, START, payload).done
    ensures Unpack(schema, START, payload).progress.size == None
  {
    var vs := UnpackSpells(schema, [], payload);
  }

  /** A request is refused, once, exactly when its arguments are all there and the bytes after them are too many or too few. */
  lemma RefusedExactly(schema: seq<ArgType>, payload: seq<byte>, chunks: seq<seq<byte>>)
    requires Flat(chunks) == payload
    ensures var h := Serve(schema, |payload|, OPENED, [], chunks);
            h.refusals <= 1 && |h.calls| + h.refusals <= 1 &&
            (h.refusals == 1 <==> exists vs, data :: Carries(schema, payload, vs, data) && |data| != Announced(schema, vs))
  {
    ChunkingIsInvisible(schema, payload, chunks);
    var u := Unpack(schema, START, payload);
    var h := Outcome(schema, payload);
    if u.done {
      var vs := u.progress.values;
      DoneHasNoSize(schema, payload);
      UnpackExactly(schema, payload, vs, u.rest);
      WantedIsAnnounced(schema, vs);
      assert Carries(schema, payload, vs, u.rest);
      assert |payload| == |PackAll(vs)| + |u.rest|;
    }
    forall vs, data | Carries(schema, payload, vs, data)
      ensures u.done && vs == u.progress.values && data == u.rest
    {
      UnpackExactly(schema, payload, vs, data);
    }
  }

  /** Otherwise the request is silent: the payload ended before the arguments did. */
  lemma SilentExactly(schema: seq<ArgType>, payload: seq<byte>, chunks: seq<seq<byte>>)
    requires Flat(chunks) == payload
    ensures var h := Serve(schema, |payload|, OPENED, [], chunks);
            h.calls == [] && h.refusals == 0 <==> forall vs, data :: !Carries(schema, payload, vs, data)
  {
    ChunkingIsInvisible(schema, payload, chunks);
    var u := Unpack(schema, START, payload);
    if u.done {
      DoneHasNoSize(schema, payload);
      UnpackExactly(schema, payload, u.progress.values, u.rest);
      assert Carries(schema, payload, u.progress.values, u.rest);
    }
    forall vs, data | Carries(schema, payload, vs, data) ensures u.done {
      UnpackExactly(schema, payload, vs, data);
    }
  }

  // ---------------------------------------------------------------- the host

  /** What the host packs for a device's arguments: for a stream, a vector of the bytes of the stream. */
  function HostValues(vs: seq<Value>, data: seq<byte>): seq<Value> {
    if vs != [] && vs[|vs| - 1].StreamV? then vs[..|vs| - 1] + [VecV(vs[|vs| - 1].expected, data)] else vs
  }

  lemma {:induction false} PackConcat(a: seq<Value>, b: seq<Value>)
    ensures PackAll(a + b) == PackAll(a) + PackAll(b)
  {
    if a == [] {
      assert a + b == b;
    } else {
      assert (a + b)[1..] == a[1..] + b;
      PackConcat(a[1..], b);
    }
  }

  /**
   What the host packs invokes the device's handler with the same values, in any pieces; a trailing byte vector becomes
   the contents of the device's stream.
   */
  lemma HostToDevice(schema: seq<ArgType>, vs: seq<Value>, data: seq<byte>, chunks: seq<seq<byte>>)
    requires MatchesAll(schema, vs) && |data| == Announced(schema, vs)
    requires Flat(chunks) == PackAll(HostValues(vs, data))
    ensures var h := Serve(schema, |Flat(chunks)|, OPENED, [], chunks);
            h.calls == [vs] && h.streamed == data && h.finished == (if HasStream(schema) then 1 else 0) && h.refusals == 0
  {
    HostBytes(schema, vs, data);
    InvokedExactly(schema, Flat(chunks), chunks, vs, data);
    ChunkingIsInvisible(schema, Flat(chunks), chunks);
  }

  lemma HostBytes(schema: seq<ArgType>, vs: seq<Value>, data: seq<byte>)
    requires MatchesAll(schema, vs) && |data| == Announced(schema, vs)
    ensures PackAll(HostValues(vs, data)) == PackAll(vs) + data
  {
    if vs != [] && vs[|vs| - 1].StreamV? {
      var last := vs[|vs| - 1];
      assert Matches(schema[|schema| - 1], last);
      assert vs == vs[..|vs| - 1] + [last];
      PackConcat(vs[..|vs| - 1], [last]);
      PackConcat(vs[..|vs| - 1], [VecV(last.expected, data)]);
      PackCons(last, [], []);
      PackCons(VecV(last.expected, data), [], []);
      assert PackAll([last]) == Pack(last) && PackAll([VecV(last.expected, data)]) == Pack(last) + data;
    } else {
      if schema != [] { assert Matches(schema[|schema| - 1], vs[|vs| - 1]); }
      assert data == [];
      assert PackAll(vs) + data == PackAll(vs);
    }
  }
}
