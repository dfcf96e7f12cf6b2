/** The request handler over a receive buffer, proved to do what `Requests` says, and the host's packing. */
module RequestHandlers {
  import opened Common
  import opened Buffers
  import opened LittleEndian
  import opened Arguments
  import opened Requests

  class SmartRequestHandler {
    const schema: seq<ArgType>
    const payloadSize: nat
    /** The arguments that have a value. */
    var values: seq<Value>
    /** The element count of the next argument, if that was read. */
    var size: Option<u64>
    var consumedSize: nat
    var streaming: bool
    var hasSignaledBadRequest: bool
    // What others see of the request.
    var calls: seq<seq<Value>>
    var streamed: seq<byte>
    var finished: nat
    var refusals: nat

    ghost function Abs(): Handler
      reads this
    {
      Handler(Progress(values, size), consumedSize, streaming, hasSignaledBadRequest, calls, streamed, finished, refusals)
    }

    /** Values only as many as arguments; while they are read, no more bytes than the payload has. */
    ghost predicate Valid(input: Buffer)
      reads this, input, input.data
    {
      && input.Valid() && |values| <= |schema| && (streaming ==> |values| == |schema|)
      && (streaming && HasStream(schema) ==> values[|schema| - 1].StreamV?)
      && (forall i :: 0 <= i < |values| ==> Matches(schema[i], values[i]))
      && (!streaming && !hasSignaledBadRequest ==> consumedSize + |input.Contents()| <= payloadSize)
    }

    constructor (schema: seq<ArgType>, payloadSize: nat)
      ensures Abs() == OPENED && this.schema == schema && this.payloadSize == payloadSize
    {
      this.schema, this.payloadSize := schema, payloadSize;
      values, size, consumedSize, streaming, hasSignaledBadRequest := [], None, 0, false, false;
      calls, streamed, finished, refusals := [], [], 0, 0;
    }

    method ReadCount(input: Buffer) returns (ok: bool)
      requires input.Valid() && size.None?
      modifies this`size, input`readHead
      ensures input.Valid() && ok == (|old(input.Contents())| >= 8)
      ensures ok ==> size == Some(ReadSize(old(input.Contents()))) && input.Contents() == old(input.Contents())[8..]
      ensures !ok ==> size == None && input.Contents() == old(input.Contents())
    {
      var r := input.Read(8);
      if r.None? { return false; }
      PowersKnown();
      ValueBounded(r.value);
      size := Some(LittleEndian.Value(r.value));
      return true;
    }

    method ReadElements(input: Buffer, elem: nat) returns (v: Option<Value>)
      requires input.Valid() && size.Some?
      modifies this`size, input`readHead
      ensures input.Valid()
      ensures Part(v, size, input.Contents()) == UnpackElements(elem, old(size).value, old(input.Contents()))
    {
      var r := input.Read(elem * size.value);
      if r.None? { return None; }
      v := Some(VecV(size.value, r.value));
      size := None;
    }

    method ReadPod(input: Buffer, size': nat) returns (v: Option<Value>)
      requires input.Valid()
      modifies this`size, input`readHead
      ensures input.Valid()
      ensures Part(v, size, input.Contents()) == UnpackArg(Pod(size'), old(size), old(input.Contents()))
      ensures v.Some? ==> Matches(Pod(size'), v.value)
    {
      var r := input.Read(size');
      if r.None? { return None; }
      size := None;
      return Some(PodV(r.value));
    }

    method ReadStream(input: Buffer) returns (v: Option<Value>)
      requires input.Valid()
      modifies this`size, input`readHead
      ensures input.Valid()
      ensures Part(v, size, input.Contents()) == UnpackArg(Stream, old(size), old(input.Contents()))
      ensures v.Some? ==> v.value.StreamV?
    {
      var r := input.Read(8);
      if r.None? { return None; }
      PowersKnown();
      ValueBounded(r.value);
      size := None;
      return Some(StreamV(LittleEndian.Value(r.value)));
    }

    method UnpackOne(input: Buffer, t: ArgType) returns (v: Option<Value>)
      requires input.Valid()
      modifies this`size, input`readHead
      ensures input.Valid()
      ensures Part(v, size, input.Contents()) == UnpackArg(t, old(size), old(input.Contents()))
      ensures v.Some? ==> Matches(t, v.value)
    {
      match t {
        case Pod(n) =>
          v := ReadPod(input, n);
        case Vec(elem) =>
          if size.None? {
            var ok := ReadCount(input);
            if !ok { return None; }
          }
          v := ReadElements(input, elem);
        case Stream =>
          v := ReadStream(input);
      }
    }

    /** Goes on with the arguments where it stopped; true once all have a value. */
    method Unpack(input: Buffer) returns (done: bool)
      requires input.Valid() && |values| <= |schema|
      requires forall i :: 0 <= i < |values| ==> Matches(schema[i], values[i])
      modifies this`values, this`size, input`readHead
      ensures input.Valid() && |values| <= |schema| && forall i :: 0 <= i < |values| ==> Matches(schema[i], values[i])
      ensures Unpacked(Progress(values, size), input.Contents(), done) ==
              Arguments.Unpack(schema, Progress(old(values), old(size)), old(input.Contents()))
    {
      ghost var all := Arguments.Unpack(schema, Progress(values, size), input.Contents());
      while |values| < |schema|
        invariant input.Valid() && |values| <= |schema|
        invariant forall i :: 0 <= i < |values| ==> Matches(schema[i], values[i])
        invariant Arguments.Unpack(schema, Progress(values, size), input.Contents()) == all
        decreases |schema| - |values|
      {
        var v := UnpackOne(input, schema[|values|]);
        if v.None? { return false; }
        values := values + [v.value];
      }
      return true;
    }

    method SignalBadRequest()
      requires !hasSignaledBadRequest
      modifies this`hasSignaledBadRequest, this`refusals
      ensures Abs() == Refuse(old(Abs()))
    {
      refusals := refusals + 1;
      hasSignaledBadRequest := true;
    }

    /** The stream the handler was given takes all it is offered. */
    method ReceiveStream(input: Buffer)
      requires input.Valid()
      modifies this`streamed, input`readHead
      ensures input.Valid() && input.Contents() == [] && streamed == old(streamed) + old(input.Contents())
    {
      var bytes := input.GetData();
      streamed := streamed + bytes;
      input.MarkRead(|bytes|);
    }

    method FlushReceiveBuffer(input: Buffer)
      requires Valid(input)
      modifies this, input`readHead
      ensures Valid(input)
      ensures Flushed(Abs(), input.Contents()) == Flush(schema, payloadSize, old(Abs()), old(input.Contents()))
    {
      if hasSignaledBadRequest {
        var n := input.ReadAvailable();
        input.MarkRead(n);
        return;
      }
      if !streaming {
        ReadArguments(input);
      } else if HasStream(schema) {
        ReceiveStream(input);
      } else {
        var n := input.ReadAvailable();
        if n > 0 {
          SignalBadRequest();
        }
      }
    }

    /** Consumes arguments; when all have arrived, the sizes decide between invocation and refusal. */
    method ReadArguments(input: Buffer)
      requires Valid(input) && !streaming && !hasSignaledBadRequest
      modifies this, input`readHead
      ensures Valid(input)
      ensures Flushed(Abs(), input.Contents()) == Flush(schema, payloadSize, old(Abs()), old(input.Contents()))
    {
      var availableBefore := input.ReadAvailable();
      var done := Unpack(input);
      var availableAfter := input.ReadAvailable();
      consumedSize := consumedSize + (availableBefore - availableAfter);
      if done {
        Decide();
      }
    }

    /** All arguments have a value: invokes the handler if the payload has room for just what the arguments announce. */
    method Decide()
      requires MatchesAll(schema, values) && !hasSignaledBadRequest && consumedSize <= payloadSize
      modifies this`streaming, this`calls, this`hasSignaledBadRequest, this`refusals
      ensures Abs() == if consumedSize + Wanted(schema, Progress(values, size)) != payloadSize then Refuse(old(Abs()))
                       else old(Abs()).(streaming := true, calls := old(calls) + [values])
    {
      if HasStream(schema) {
        assert Matches(schema[|schema| - 1], values[|schema| - 1]);
        if values[|schema| - 1].expected != payloadSize - consumedSize {
          SignalBadRequest();
          return;
        }
      } else if consumedSize < payloadSize {
        SignalBadRequest();
        return;
      }
      streaming := true;
      calls := calls + [values];
    }

    method Finalize(input: Buffer)
      requires Valid(input)
      modifies this, input`readHead
      ensures Valid(input)
      ensures Abs() == Requests.Finalize(schema, payloadSize, old(Abs()), old(input.Contents()))
    {
      FlushReceiveBuffer(input);
      if streaming && HasStream(schema) {
        finished := finished + 1;
      }
    }
  }

  /** The host writes the arguments of a request one after the other. */
  method PackArguments(vs: seq<Value>, input: Buffer)
    requires input.Valid() && input.limit.None?
    modifies input, input.data
    ensures input.Valid() && (input.data == old(input.data) || fresh(input.data))
    ensures input.Contents() == old(input.Contents()) + PackAll(vs)
  {
    ghost var whole := input.Contents() + PackAll(vs);
    var i := 0;
    assert vs[0..] == vs;
    while i < |vs|
      invariant 0 <= i <= |vs|
      invariant input.Valid() && (input.data == old(input.data) || fresh(input.data))
      invariant input.Contents() + PackAll(vs[i..]) == whole
    {
      assert vs[i..][1..] == vs[i + 1..];
      Splits(input.Contents(), Pack(vs[i]), PackAll(vs[i + 1..]));
      PackOne(vs[i], input);
      i := i + 1;
    }
    assert input.Contents() + [] == input.Contents();
  }

  method PackOne(v: Value, input: Buffer)
    requires input.Valid() && input.limit.None?
    modifies input, input.data
    ensures input.Valid() && (input.data == old(input.data) || fresh(input.data))
    ensures input.Contents() == old(input.Contents()) + Pack(v)
  {
    match v {
      case PodV(bytes) =>
        var ok := input.Write(bytes);
      case VecV(count, bytes) =>
        Splits(input.Contents(), Size64(count), bytes);
        var ok := input.Write(Size64(count));
        ok := input.Write(bytes);
      case StreamV(expected) =>
        var ok := input.Write(Size64(expected));
    }
  }

  lemma Splits(a: seq<byte>, b: seq<byte>, c: seq<byte>)
    ensures a + (b + c) == (a + b) + c
  { }
}
