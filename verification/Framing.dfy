/** What is on the wire of a message connection: headers, payloads and object ids, one message after the other. */
module Framing {
  import opened Common
  import opened LittleEndian

  const HEADER_SIZE := 32
  const ID_SIZE := 4

  /** `peer` is the device or client id and `code` the command or result; the structure ends in four padding bytes. */
  datatype Header = Header(peer: u32, target: u32, code: u32, tag: u32, payloadSize: u64, objectCount: u32, pad: u32)

  datatype Message = Message(header: Header, payload: seq<byte>, ids: seq<u32>)

  /** The header states the true sizes. */
  ghost predicate Fits(m: Message) {
    m.header.payloadSize == |m.payload| && m.header.objectCount == |m.ids|
  }

  function HeaderBytes(h: Header): (s: seq<byte>)
    ensures |s| == HEADER_SIZE
  {
    Bytes(h.peer, 4) + Bytes(h.target, 4) + Bytes(h.code, 4) + Bytes(h.tag, 4) + Bytes(h.payloadSize, 8) +
    Bytes(h.objectCount, 4) + Bytes(h.pad, 4)
  }

  function ReadU32(s: seq<byte>): u32
    requires |s| == 4
  {
    ValueBounded(s);
    PowersKnown();
    Value(s)
  }

  function ReadU64(s: seq<byte>): u64
    requires |s| == 8
  {
    ValueBounded(s);
    PowersKnown();
    Value(s)
  }

  function HeaderOf(s: seq<byte>): Header
    requires |s| == HEADER_SIZE
  {
    Header(ReadU32(s[..4]), ReadU32(s[4..8]), ReadU32(s[8..12]), ReadU32(s[12..16]), ReadU64(s[16..24]), ReadU32(s[24..28]),
           ReadU32(s[28..32]))
  }

  function IdBytes(ids: seq<u32>): (s: seq<byte>)
    ensures |s| == ID_SIZE * |ids|
  {
    if ids == [] then [] else Bytes(ids[0], ID_SIZE) + IdBytes(ids[1..])
  }

  function IdsOf(s: seq<byte>): (ids: seq<u32>)
    requires |s| % ID_SIZE == 0
    ensures ID_SIZE * |ids| == |s|
  {
    if s == [] then [] else [ReadU32(s[..4])] + IdsOf(s[4..])
  }

  function Encode(m: Message): seq<byte> {
    HeaderBytes(m.header) + m.payload + IdBytes(m.ids)
  }

  /** The size of the message that starts with the header `h`. */
  function TotalSize(h: Header): nat { HEADER_SIZE + h.payloadSize + ID_SIZE * h.objectCount }

  /** Whether a whole message is at the front of `s`. */
  predicate Complete(s: seq<byte>) {
    |s| >= HEADER_SIZE && |s| >= TotalSize(HeaderOf(s[..HEADER_SIZE]))
  }

  /** The message at the front of `s`. */
  function First(s: seq<byte>): (m: Message)
    requires Complete(s)
    ensures Fits(m)
  {
    var h := HeaderOf(s[..HEADER_SIZE]);
    var end := HEADER_SIZE + h.payloadSize;
    Message(h, s[HEADER_SIZE..end], IdsOf(s[end..TotalSize(h)]))
  }

  datatype Parsed = Parsed(msgs: seq<Message>, rest: seq<byte>)

  /** All whole messages at the front of `s`, and what is left. */
  function Batch(s: seq<byte>): (p: Parsed)
    ensures !Complete(p.rest) && forall m :: m in p.msgs ==> Fits(m)
    decreases |s|
  {
    if !Complete(s) then Parsed([], s)
    else
      var p := Batch(s[TotalSize(First(s).header)..]);
      Parsed([First(s)] + p.msgs, p.rest)
  }

  function EncodeAll(msgs: seq<Message>): seq<byte> {
    if msgs == [] then [] else Encode(msgs[0]) + EncodeAll(msgs[1..])
  }

  lemma U32Roundtrip(n: u32)
    ensures ReadU32(Bytes(n, 4)) == n
  {
    PowersKnown();
    FitsWidth(n, 4);
  }

  lemma U64Roundtrip(n: u64)
    ensures ReadU64(Bytes(n, 8)) == n
  {
    PowersKnown();
    FitsWidth(n, 8);
  }

  /** The seven fields of a header are where the reader looks for them. */
  lemma HeaderParts(a: seq<byte>, b: seq<byte>, c: seq<byte>, d: seq<byte>, e: seq<byte>, f: seq<byte>, g: seq<byte>)
    requires |a| == |b| == |c| == |d| == |f| == |g| == 4 && |e| == 8
    ensures var s := a + b + c + d + e + f + g;
            s[..4] == a && s[4..8] == b && s[8..12] == c && s[12..16] == d && s[16..24] == e && s[24..28] == f && s[28..32] == g
  { }

  lemma HeaderRoundtrip(h: Header)
    ensures HeaderOf(HeaderBytes(h)) == h
  {
    HeaderParts(Bytes(h.peer, 4), Bytes(h.target, 4), Bytes(h.code, 4), Bytes(h.tag, 4), Bytes(h.payloadSize, 8),
                Bytes(h.objectCount, 4), Bytes(h.pad, 4));
    U32Roundtrip(h.peer);
    U32Roundtrip(h.target);
    U32Roundtrip(h.code);
    U32Roundtrip(h.tag);
    U64Roundtrip(h.payloadSize);
    U32Roundtrip(h.objectCount);
    U32Roundtrip(h.pad);
  }

  /** The number at offset `at` of a stored structure, `w` bytes wide. */
  function Field(s: seq<byte>, at: nat, w: nat): nat
    requires at + w <= |s|
  {
    Value(s[at..at + w])
  }

  /** On the wire: device or client id, object id, command or result, tag, payload size and number of objects. */
  lemma HeaderLayout(h: Header)
    ensures var s := HeaderBytes(h);
            && Field(s, 0, 4) == h.peer && Field(s, 4, 4) == h.target && Field(s, 8, 4) == h.code && Field(s, 12, 4) == h.tag
            && Field(s, 16, 8) == h.payloadSize && Field(s, 24, 4) == h.objectCount
  {
    var s := HeaderBytes(h);
    HeaderParts(Bytes(h.peer, 4), Bytes(h.target, 4), Bytes(h.code, 4), Bytes(h.tag, 4), Bytes(h.payloadSize, 8),
                Bytes(h.objectCount, 4), Bytes(h.pad, 4));
    U32Roundtrip(h.peer);
    U32Roundtrip(h.target);
    U32Roundtrip(h.code);
    U32Roundtrip(h.tag);
    U64Roundtrip(h.payloadSize);
    U32Roundtrip(h.objectCount);
    assert s[0..4] == s[..4];
  }

  /** Object ids take four bytes each. */
  lemma {:induction false} IdsLayout(ids: seq<u32>, k: nat)
    requires k < |ids|
    ensures Field(IdBytes(ids), 4 * k, 4) == ids[k]
  {
    U32Roundtrip(ids[0]);
    var s := IdBytes(ids);
    if k == 0 {
      assert s[0..4] == Bytes(ids[0], 4);
    } else {
      IdsLayout(ids[1..], k - 1);
      assert s[4 * k..4 * k + 4] == IdBytes(ids[1..])[4 * (k - 1)..4 * (k - 1) + 4];
    }
  }

  /** A message is its header, its payload and its ids, one after the other. */
  lemma MessageLayout(m: Message)
    ensures var s := Encode(m); var n := |m.payload|;
            && |s| == HEADER_SIZE + n + 4 * |m.ids| && s[HEADER_SIZE..HEADER_SIZE + n] == m.payload
            && HeaderOf(s[..HEADER_SIZE]) == m.header && forall k :: 0 <= k < |m.ids| ==> Field(s, HEADER_SIZE + n + 4 * k, 4) == m.ids[k]
  {
    var s, n := Encode(m), |m.payload|;
    HeaderRoundtrip(m.header);
    assert s[..HEADER_SIZE] == HeaderBytes(m.header);
    forall k | 0 <= k < |m.ids| ensures Field(s, HEADER_SIZE + n + 4 * k, 4) == m.ids[k] {
      IdsLayout(m.ids, k);
      assert s[HEADER_SIZE + n + 4 * k..HEADER_SIZE + n + 4 * k + 4] == IdBytes(m.ids)[4 * k..4 * k + 4];
    }
  }

  lemma HeaderRoundtripBack(s: seq<byte>)
    requires |s| == HEADER_SIZE
    ensures HeaderBytes(HeaderOf(s)) == s
  {
    BytesOfValue(s[..4]);
    BytesOfValue(s[4..8]);
    BytesOfValue(s[8..12]);
    BytesOfValue(s[12..16]);
    BytesOfValue(s[16..24]);
    BytesOfValue(s[24..28]);
    BytesOfValue(s[28..32]);
    assert s == s[..4] + s[4..8] + s[8..12] + s[12..16] + s[16..24] + s[24..28] + s[28..32];
  }

  lemma {:induction false} IdsRoundtrip(ids: seq<u32>)
    ensures IdsOf(IdBytes(ids)) == ids
  {
    if ids != [] {
      assert IdBytes(ids)[..4] == Bytes(ids[0], ID_SIZE) && IdBytes(ids)[4..] == IdBytes(ids[1..]);
      U32Roundtrip(ids[0]);
      IdsRoundtrip(ids[1..]);
    }
  }

  lemma {:induction false} IdsRoundtripBack(s: seq<byte>)
    requires |s| % ID_SIZE == 0
    ensures IdBytes(IdsOf(s)) == s
  {
    if s != [] {
      BytesOfValue(s[..4]);
      IdsRoundtripBack(s[4..]);
      assert s == s[..4] + s[4..];
    }
  }

  /** A message followed by anything is found again, and what follows it is left. */
  lemma FirstOfEncoded(m: Message, rest: seq<byte>)
    requires Fits(m)
    ensures Complete(Encode(m) + rest) && First(Encode(m) + rest) == m
    ensures TotalSize(m.header) == |Encode(m)| && (Encode(m) + rest)[|Encode(m)|..] == rest
  {
    var s := Encode(m) + rest;
    var end := HEADER_SIZE + |m.payload|;
    assert s[..HEADER_SIZE] == HeaderBytes(m.header);
    HeaderRoundtrip(m.header);
    assert s[HEADER_SIZE..end] == m.payload;
    assert s[end..|Encode(m)|] == IdBytes(m.ids);
    IdsRoundtrip(m.ids);
  }

  /** Conversely, a complete front is the encoding of the message read from it. */
  lemma EncodedFirst(s: seq<byte>)
    requires Complete(s)
    ensures s == Encode(First(s)) + s[TotalSize(First(s).header)..]
  {
    var h := HeaderOf(s[..HEADER_SIZE]);
    var end := HEADER_SIZE + h.payloadSize;
    HeaderRoundtripBack(s[..HEADER_SIZE]);
    IdsRoundtripBack(s[end..TotalSize(h)]);
    assert s == s[..HEADER_SIZE] + s[HEADER_SIZE..end] + s[end..TotalSize(h)] + s[TotalSize(h)..];
  }

  /** Parsing what was sent gives the messages sent, and leaves an unfinished message untouched. */
  lemma {:induction false} BatchOfSent(msgs: seq<Message>, rest: seq<byte>)
    requires forall m :: m in msgs ==> Fits(m)
    requires !Complete(rest)
    ensures Batch(EncodeAll(msgs) + rest) == Parsed(msgs, rest)
  {
    if msgs == [] {
      assert EncodeAll(msgs) + rest == rest;
    } else {
      var tail := EncodeAll(msgs[1..]) + rest;
      assert EncodeAll(msgs) + rest == Encode(msgs[0]) + tail;
      FirstOfEncoded(msgs[0], tail);
      BatchOfSent(msgs[1..], rest);
    }
  }

  /** Nothing is invented: what was parsed and what is left spell out the input. */
  lemma {:induction false} BatchSpellsInput(s: seq<byte>)
    ensures s == EncodeAll(Batch(s).msgs) + Batch(s).rest
    decreases |s|
  {
    if Complete(s) {
      var m := First(s);
      var tail := s[TotalSize(m.header)..];
      EncodedFirst(s);
      BatchSpellsInput(tail);
      var p := Batch(tail);
      EncodeAllCons(m, p.msgs);
      Associates(Encode(m), EncodeAll(p.msgs), p.rest);
    }
  }

  lemma EncodeAllCons(m: Message, msgs: seq<Message>)
    ensures EncodeAll([m] + msgs) == Encode(m) + EncodeAll(msgs)
  { }

  lemma Associates(a: seq<byte>, b: seq<byte>, c: seq<byte>)
    ensures a + (b + c) == (a + b) + c
  { }

  lemma {:induction false} EncodeAllConcat(a: seq<Message>, b: seq<Message>)
    ensures EncodeAll(a + b) == EncodeAll(a) + EncodeAll(b)
  {
    if a == [] {
      assert a + b == b;
    } else {
      assert (a + b)[1..] == a[1..] + b;
      EncodeAllConcat(a[1..], b);
    }
  }

  /** Parsing in two instalments gives what parsing at once gives. */
  lemma BatchInstalments(a: seq<byte>, b: seq<byte>)
    ensures var p := Batch(a); var q := Batch(p.rest + b); Batch(a + b) == Parsed(p.msgs + q.msgs, q.rest)
  {
    var p := Batch(a);
    var q := Batch(p.rest + b);
    BatchSpellsInput(a);
    BatchSpellsInput(p.rest + b);
    EncodeAllConcat(p.msgs, q.msgs);
    Associates(EncodeAll(p.msgs), p.rest, b);
    Associates(EncodeAll(p.msgs), EncodeAll(q.msgs), q.rest);
    BatchOfSent(p.msgs + q.msgs, q.rest);
  }

  function Flat(chunks: seq<seq<byte>>): seq<byte> {
    if chunks == [] then [] else chunks[0] + Flat(chunks[1..])
  }

  /** A receiver that takes all messages it can each time a piece arrives; `rest` is what it holds before. */
  function Receive(rest: seq<byte>, chunks: seq<seq<byte>>): Parsed
    decreases chunks
  {
    if chunks == [] then Parsed([], rest)
    else
      var now := Batch(rest + chunks[0]);
      var later := Receive(now.rest, chunks[1..]);
      Parsed(now.msgs + later.msgs, later.rest)
  }

  /** How the bytes are cut into pieces does not matter. */
  lemma {:induction false} ReceiveIsBatch(rest: seq<byte>, chunks: seq<seq<byte>>)
    requires !Complete(rest)
    ensures Receive(rest, chunks) == Batch(rest + Flat(chunks))
    decreases chunks
  {
    if chunks == [] {
      assert rest + Flat(chunks) == rest;
    } else {
      ReceiveIsBatch(Batch(rest + chunks[0]).rest, chunks[1..]);
      BatchInstalments(rest + chunks[0], Flat(chunks[1..]));
      Associates(rest, chunks[0], Flat(chunks[1..]));
    }
  }

  /** Any pieces of the bytes sent yield exactly the messages sent. */
  lemma AnyChunkingDelivers(msgs: seq<Message>, chunks: seq<seq<byte>>)
    requires forall m :: m in msgs ==> Fits(m)
    requires Flat(chunks) == EncodeAll(msgs)
    ensures Receive([], chunks) == Parsed(msgs, [])
  {
    ReceiveIsBatch([], chunks);
    BatchOfSent(msgs, []);
    assert [] + Flat(chunks) == EncodeAll(msgs) + [];
  }

  /** After any part of what was sent: the first messages, all whose last byte is in, and no whole message is left. */
  lemma NothingEarlyOrStuck(msgs: seq<Message>, part: seq<byte>, chunks: seq<seq<byte>>)
    requires forall m :: m in msgs ==> Fits(m)
    requires part <= EncodeAll(msgs) && Flat(chunks) == part
    ensures var p := Receive([], chunks);
            p.msgs <= msgs && part == EncodeAll(p.msgs) + p.rest && !Complete(p.rest)
  {
    var later := EncodeAll(msgs)[|part|..];
    assert part + later == EncodeAll(msgs);
    ReceiveIsBatch([], chunks);
    assert [] + part == part;
    BatchSpellsInput(part);
    BatchInstalments(part, later);
    BatchOfSent(msgs, []);
    assert EncodeAll(msgs) + [] == EncodeAll(msgs);
  }
}
