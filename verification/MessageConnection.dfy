/** A message connection: reassembly of messages from whatever pieces arrive, and the sender that matches it. */
module MessageConnections {
  import opened Common
  import opened Buffers
  import opened LittleEndian
  import opened Framing

  /** Too few bytes after a header: no message yet. */
  lemma Incomplete(h: Header, rest: seq<byte>)
    requires |rest| < h.payloadSize + ID_SIZE * h.objectCount
    ensures !Complete(HeaderBytes(h) + rest)
  {
    assert (HeaderBytes(h) + rest)[..HEADER_SIZE] == HeaderBytes(h);
    HeaderRoundtrip(h);
  }

  lemma Takes(unread: seq<byte>, size: nat)
    requires size <= |unread|
    ensures unread == unread[..size] + unread[size..]
  { }

  lemma Sends(before: seq<byte>, a: seq<byte>, b: seq<byte>, c: seq<byte>)
    ensures ((before + a) + b) + c == before + ((a + b) + c)
  { }

  lemma EncodeAllSnoc(msgs: seq<Message>, m: Message, rest: seq<byte>)
    ensures EncodeAll(msgs) + (Encode(m) + rest) == EncodeAll(msgs + [m]) + rest
    ensures |Encode(m)| > 0
  {
    EncodeAllConcat(msgs, [m]);
    EncodeAllCons(m, []);
    Associates(EncodeAll(msgs), Encode(m), rest);
    assert [m] + [] == [m];
  }

  /** The request under construction keeps its payload and ids as the byte lists they are. */
  class Connection {
    const inBuffer: Buffer
    const outBuffer: Buffer
    var header: Header
    var payload: seq<byte>
    var objectIds: seq<byte>
    var hasHeader: bool
    var hasPayload: bool
    /** The pieces the transport will hand over when it is asked for input. */
    var arrivals: seq<seq<byte>>

    /** The parts of the message being read are exactly the ones the flags announce. */
    ghost predicate Valid()
      reads this, inBuffer, inBuffer.data, outBuffer, outBuffer.data
    {
      && inBuffer != outBuffer && inBuffer.data != outBuffer.data && inBuffer.limit.None? && outBuffer.limit.None?
      && inBuffer.Valid() && outBuffer.Valid()
      && (hasPayload ==> hasHeader)
      && (hasHeader && !hasPayload ==> payload == [])
      && (hasPayload ==> |payload| == header.payloadSize && objectIds == [])
    }

    /** Between calls a part that is awaited is not empty. */
    ghost predicate Waiting()
      reads this
    {
      (hasHeader && !hasPayload ==> header.payloadSize > 0) && (hasPayload ==> header.objectCount > 0)
    }

    /** The parts already taken of a message that is not complete. */
    ghost function Taken(): seq<byte>
      reads this
    {
      if !hasHeader then [] else if !hasPayload then HeaderBytes(header) else HeaderBytes(header) + payload
    }

    /** The bytes received that no message returned so far accounts for. */
    ghost function Pending(): seq<byte>
      reads this, inBuffer, inBuffer.data
      requires inBuffer.Valid()
    {
      Taken() + inBuffer.Contents()
    }

    /** The bytes received and the bytes the transport still holds. */
    ghost function Stream(): seq<byte>
      reads this, inBuffer, inBuffer.data
      requires inBuffer.Valid()
    {
      Pending() + Flat(arrivals)
    }

    /** The message in the request that was returned last. */
    function Current(): Message
      reads this
      requires |objectIds| % ID_SIZE == 0
    {
      Message(header, payload, IdsOf(objectIds))
    }

    constructor ()
      ensures Valid() && Waiting() && fresh(inBuffer) && fresh(inBuffer.data) && fresh(outBuffer) && fresh(outBuffer.data)
      ensures Pending() == [] && arrivals == [] && outBuffer.Contents() == []
    {
      inBuffer := new Buffer();
      outBuffer := new Buffer();
      header := Header(0, 0, 0, 0, 0, 0, 0);
      payload, objectIds := [], [];
      hasHeader, hasPayload, arrivals := false, false, [];
    }

    /** The event loop stores bytes that arrived between calls. */
    method Receive(chunk: seq<byte>)
      requires Valid()
      modifies inBuffer, inBuffer.data
      ensures Valid() && (inBuffer.data == old(inBuffer.data) || fresh(inBuffer.data))
      ensures Pending() == old(Pending()) + chunk
    {
      Associates(Taken(), inBuffer.Contents(), chunk);
      var ok := inBuffer.Write(chunk);
    }

    /** Asks the transport for input; true if it stored more. */
    method RequestInput() returns (more: bool)
      requires Valid()
      modifies this`arrivals, inBuffer, inBuffer.data
      ensures Valid() && (inBuffer.data == old(inBuffer.data) || fresh(inBuffer.data))
      ensures more <==> old(arrivals) != []
      ensures more ==> arrivals == old(arrivals)[1..] && Stream() == old(Stream())
      ensures !more ==> arrivals == [] && Pending() == old(Stream()) && inBuffer.Contents() == old(inBuffer.Contents())
    {
      if arrivals == [] { return false; }
      Associates(Pending(), arrivals[0], Flat(arrivals[1..]));
      Receive(arrivals[0]);
      arrivals := arrivals[1..];
      return true;
    }

    method TakeHeader() returns (ok: bool)
      requires Valid() && !hasHeader
      modifies this`header, this`hasHeader, this`payload, inBuffer`readHead
      ensures Valid() && inBuffer.data == old(inBuffer.data)
      ensures ok == hasHeader == (|old(inBuffer.Contents())| >= HEADER_SIZE)
      ensures ok ==> HeaderBytes(header) + inBuffer.Contents() == old(inBuffer.Contents())
      ensures !ok ==> inBuffer.Contents() == old(inBuffer.Contents())
    {
      var r := inBuffer.Read(HEADER_SIZE);
      if r.None? { return false; }
      header, hasHeader, payload := HeaderOf(r.value), true, [];
      HeaderRoundtripBack(r.value);
      Takes(old(inBuffer.Contents()), HEADER_SIZE);
      return true;
    }

    method TakePayload() returns (ok: bool)
      requires Valid() && hasHeader && !hasPayload
      modifies this`hasPayload, this`payload, this`objectIds, inBuffer`readHead
      ensures Valid() && inBuffer.data == old(inBuffer.data)
      ensures ok == hasPayload == (|old(inBuffer.Contents())| >= header.payloadSize)
      ensures ok ==> payload + inBuffer.Contents() == old(inBuffer.Contents())
      ensures !ok ==> inBuffer.Contents() == old(inBuffer.Contents())
    {
      var r := inBuffer.Read(header.payloadSize);
      if r.None? { return false; }
      payload, hasPayload, objectIds := r.value, true, [];
      Takes(old(inBuffer.Contents()), header.payloadSize);
      return true;
    }

    method TakeIds() returns (ok: bool)
      requires Valid() && hasPayload
      modifies this`hasHeader, this`hasPayload, this`objectIds, inBuffer`readHead
      ensures Valid() && inBuffer.data == old(inBuffer.data)
      ensures ok == !hasPayload == !hasHeader == (|old(inBuffer.Contents())| >= ID_SIZE * header.objectCount)
      ensures ok ==> |objectIds| == ID_SIZE * header.objectCount
      ensures ok ==> objectIds + inBuffer.Contents() == old(inBuffer.Contents())
      ensures !ok ==> inBuffer.Contents() == old(inBuffer.Contents())
    {
      var r := inBuffer.Read(ID_SIZE * header.objectCount);
      if r.None? { return false; }
      objectIds, hasHeader, hasPayload := r.value, false, false;
      Takes(old(inBuffer.Contents()), ID_SIZE * header.objectCount);
      return true;
    }

    /** Reads the ids, the last part of a message. */
    method Finish() returns (got: bool)
      requires Valid() && hasPayload
      modifies this`hasHeader, this`hasPayload, this`objectIds, inBuffer`readHead
      ensures Valid() && Waiting() && inBuffer.data == old(inBuffer.data)
      ensures got ==> |objectIds| % ID_SIZE == 0 && Fits(Current())
      ensures got ==> old(Pending()) == Encode(Current()) + Pending()
      ensures !got ==> Pending() == old(Pending()) && !Complete(Pending())
    {
      got := TakeIds();
      if got {
        IdsRoundtripBack(objectIds);
        Associates(HeaderBytes(header) + payload, objectIds, inBuffer.Contents());
      } else {
        Associates(HeaderBytes(header), payload, inBuffer.Contents());
        Incomplete(header, payload + inBuffer.Contents());
      }
    }

    /** Reads the next parts of a message, as far as they have arrived. */
    method Advance() returns (got: bool)
      requires Valid()
      modifies this`header, this`hasHeader, this`hasPayload, this`payload, this`objectIds, inBuffer`readHead
      ensures Valid() && Waiting() && inBuffer.data == old(inBuffer.data)
      ensures got ==> |objectIds| % ID_SIZE == 0 && Fits(Current())
      ensures got ==> old(Pending()) == Encode(Current()) + Pending()
      ensures !got ==> Pending() == old(Pending()) && !Complete(Pending())
    {
      if !hasHeader {
        var ok := TakeHeader();
        if !ok { return false; }
      }
      if !hasPayload {
        var ok := TakePayload();
        if !ok {
          Incomplete(header, inBuffer.Contents());
          return false;
        }
        Associates(HeaderBytes(header), payload, inBuffer.Contents());
      }
      got := Finish();
    }

    /** The loop condition of `Process`: there are unread bytes, or the transport has more. */
    method HaveInput() returns (ok: bool)
      requires Valid() && Waiting()
      modifies this`arrivals, inBuffer, inBuffer.data
      ensures Valid() && (inBuffer.data == old(inBuffer.data) || fresh(inBuffer.data))
      ensures Stream() == old(Stream()) && |arrivals| <= |old(arrivals)|
      ensures !ok ==> arrivals == [] && Pending() == old(Stream()) && !Complete(Pending())
    {
      var available := inBuffer.ReadAvailable();
      if available > 0 { return true; }
      ok := RequestInput();
      if !ok { NothingWaits(); }
    }

    /** The body of the loop of `Process`; `again` when no message was complete and more bytes were obtained. */
    method Turn() returns (got: bool, again: bool)
      requires Valid()
      modifies this, inBuffer, inBuffer.data
      ensures Valid() && Waiting() && (inBuffer.data == old(inBuffer.data) || fresh(inBuffer.data))
      ensures got ==> |objectIds| % ID_SIZE == 0 && Fits(Current()) && old(Stream()) == Encode(Current()) + Stream()
      ensures !got && again ==> Stream() == old(Stream()) && |arrivals| < |old(arrivals)|
      ensures !got && !again ==> arrivals == [] && Pending() == old(Stream()) && !Complete(Pending())
    {
      again := false;
      got := Advance();
      if got {
        Associates(Encode(Current()), Pending(), Flat(arrivals));
      } else {
        again := RequestInput();
      }
    }

    /**
     Returns true with one message in the request once all its bytes have arrived; asks the transport for more only
     while they have not.
     */
    method Process() returns (got: bool)
      requires Valid() && Waiting()
      modifies this, inBuffer, inBuffer.data
      ensures Valid() && Waiting() && (inBuffer.data == old(inBuffer.data) || fresh(inBuffer.data))
      ensures got ==> |objectIds| % ID_SIZE == 0 && Fits(Current()) && old(Stream()) == Encode(Current()) + Stream()
      ensures !got ==> arrivals == [] && Pending() == old(Stream()) && !Complete(Pending())
    {
      got := false;
      var again := HaveInput();
      while again
        invariant Valid() && Waiting() && (inBuffer.data == old(inBuffer.data) || fresh(inBuffer.data))
        invariant !got && (again ==> Stream() == old(Stream()))
        invariant !again ==> arrivals == [] && Pending() == old(Stream()) && !Complete(Pending())
        decreases again, |arrivals|
      {
        got, again := Turn();
        if got { return; }
        if again {
          again := HaveInput();
        }
      }
    }

    /** With nothing unread, no whole message is pending. */
    lemma NothingWaits()
      requires Valid() && Waiting() && inBuffer.Contents() == []
      ensures !Complete(Pending())
    {
      if hasHeader {
        var rest := if hasPayload then payload else [];
        Incomplete(header, rest);
        assert Pending() == HeaderBytes(header) + rest;
      }
    }

    /** Appends the message to the output. */
    method SendMessage(m: Message)
      requires Valid()
      modifies outBuffer, outBuffer.data
      ensures Valid() && (outBuffer.data == old(outBuffer.data) || fresh(outBuffer.data))
      ensures outBuffer.Contents() == old(outBuffer.Contents()) + Encode(m)
    {
      Sends(outBuffer.Contents(), HeaderBytes(m.header), m.payload, IdBytes(m.ids));
      var ok := outBuffer.Write(HeaderBytes(m.header));
      ok := outBuffer.Write(m.payload);
      ok := outBuffer.Write(IdBytes(m.ids));
    }

    /** The loop of every user of a connection: take messages until there is none. */
    method ProcessAll() returns (msgs: seq<Message>)
      requires Valid() && Waiting()
      modifies this, inBuffer, inBuffer.data
      ensures Valid() && Waiting() && (inBuffer.data == old(inBuffer.data) || fresh(inBuffer.data))
      ensures arrivals == [] && Batch(old(Stream())) == Parsed(msgs, Pending())
    {
      msgs := [];
      ghost var start := Stream();
      while true
        invariant Valid() && Waiting() && (inBuffer.data == old(inBuffer.data) || fresh(inBuffer.data))
        invariant forall m :: m in msgs ==> Fits(m)
        invariant start == EncodeAll(msgs) + Stream()
        decreases |Stream()|
      {
        var got := Process();
        if !got {
          BatchOfSent(msgs, Pending());
          return;
        }
        var m := Current();
        EncodeAllSnoc(msgs, m, Stream());
        msgs := msgs + [m];
      }
    }
  }
}
