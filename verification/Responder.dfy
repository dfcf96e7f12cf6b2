/** A response being sent: opened once, packed through a writer, sent in transfers of limited size, checked at the end. */
module Responders {
  import opened Common
  import opened LittleEndian
  import opened Responses

  /** The header announces the payload size and the object count. */
  datatype Announced = Announced(code: u32, payloadSize: nat, objectCount: nat)

  function Flat(pieces: seq<seq<byte>>): seq<byte> {
    if pieces == [] then [] else Flat(pieces[..|pieces| - 1]) + pieces[|pieces| - 1]
  }

  lemma FlatSnoc(pieces: seq<seq<byte>>, piece: seq<byte>)
    ensures Flat(pieces + [piece]) == Flat(pieces) + piece
  { }

  method SizeOf(v: Data) returns (size: nat)
    ensures size == GetSize(v)
    decreases v, 0
  {
    match v {
      case Plain(bytes) => size := |bytes|;
      case Vector(_, bytes) => size := 8 + |bytes|;
      case Items(items) =>
        size := SizesOf(items);
        size := size + 8;
      case Obj(_) => size := 4;
    }
  }

  method SizesOf(vs: seq<Data>) returns (size: nat)
    ensures size == GetSizes(vs)
    decreases vs, 1
  {
    size := 0;
    var i := 0;
    while i < |vs|
      invariant 0 <= i <= |vs| && size + GetSizes(vs[i..]) == GetSizes(vs)
    {
      var one := SizeOf(vs[i]);
      size := size + one;
      i := i + 1;
    }
  }

  method CountOf(v: Data) returns (count: nat)
    ensures count == GetObjectCount(v)
    decreases v, 0
  {
    match v {
      case Items(items) => count := CountsOf(items);
      case Obj(_) => count := 1;
      case _ => count := 0;
    }
  }

  method CountsOf(vs: seq<Data>) returns (count: nat)
    ensures count == GetObjectCounts(vs)
    decreases vs, 1
  {
    count := 0;
    var i := 0;
    while i < |vs|
      invariant 0 <= i <= |vs| && count + GetObjectCounts(vs[i..]) == GetObjectCounts(vs)
    {
      var one := CountOf(vs[i]);
      count := count + one;
      i := i + 1;
    }
  }

  class Response {
    const maxTransfer: nat
    var hasBegun: bool
    var totalSize: nat
    var objectCount: nat
    var transferredSize: nat
    var objects: seq<u32>
    /** What the endpoints carried: the header, the transfers of the payload, and the object ids. */
    var header: Option<Announced>
    var transfers: seq<seq<byte>>
    var objectIds: Option<seq<u32>>

    ghost predicate Valid()
      reads this
    {
      && maxTransfer > 0 && transferredSize == |Flat(transfers)|
      && (forall i :: 0 <= i < |transfers| ==> 0 < |transfers[i]| <= maxTransfer)
      && (!hasBegun ==> header == None && transfers == [] && objects == [] && objectIds == None)
    }

    ghost function Sent(): Emitted
      reads this
    {
      Emitted(Flat(transfers), objects)
    }

    constructor (maxTransfer: nat)
      requires maxTransfer > 0
      ensures Valid() && !hasBegun && this.maxTransfer == maxTransfer
    {
      this.maxTransfer := maxTransfer;
      hasBegun, totalSize, objectCount, transferredSize := false, 0, 0, 0;
      objects, header, transfers, objectIds := [], None, [], None;
    }

    /** False is the abort: the response was begun before, or its object ids do not fit a transfer. */
    method BeginError(code: u32, payloadSize: nat, count: nat) returns (ok: bool)
      requires Valid()
      modifies this`hasBegun, this`totalSize, this`objectCount, this`header
      ensures Valid()
      ensures ok <==> !old(hasBegun) && count * 4 <= maxTransfer
      ensures ok ==> hasBegun && totalSize == payloadSize && objectCount == count
      ensures ok ==> header == Some(Announced(code, payloadSize, count))
      ensures !ok ==> hasBegun == old(hasBegun) && header == old(header)
    {
      if hasBegun { return false; }
      if count * 4 > maxTransfer { return false; }
      hasBegun, totalSize, objectCount := true, payloadSize, count;
      header := Some(Announced(code, payloadSize, count));
      return true;
    }

    /** Sends bytes in pieces of at most the transfer size; nothing for no bytes. */
    method SendData(data: seq<byte>)
      requires Valid() && hasBegun
      modifies this`transferredSize, this`transfers
      ensures Valid() && Flat(transfers) == Flat(old(transfers)) + data
    {
      var rest := data;
      while |rest| > maxTransfer
        invariant Valid() && Flat(transfers) + rest == Flat(old(transfers)) + data
      {
        assert rest == rest[..maxTransfer] + rest[maxTransfer..];
        Post(rest[..maxTransfer]);
        rest := rest[maxTransfer..];
      }
      if |rest| > 0 {
        Post(rest);
      } else {
        assert Flat(transfers) + rest == Flat(transfers);
      }
    }

    method Post(piece: seq<byte>)
      requires Valid() && hasBegun && 0 < |piece| <= maxTransfer
      modifies this`transferredSize, this`transfers
      ensures Valid() && Flat(transfers) == Flat(old(transfers)) + piece
    {
      FlatSnoc(transfers, piece);
      transfers := transfers + [piece];
      transferredSize := transferredSize + |piece|;
    }

    /** Collects an object and returns its index. */
    method Object(id: u32) returns (index: nat)
      requires Valid() && hasBegun
      modifies this`objects
      ensures Valid() && index == |old(objects)| && objects == old(objects) + [id]
    {
      index := |objects|;
      objects := objects + [id];
    }

    method PackValue(v: Data)
      requires Valid() && hasBegun
      modifies this`transferredSize, this`transfers, this`objects
      ensures Valid() && Sent() == Pack(v, old(Sent()))
      decreases v, 0
    {
      match v {
        case Plain(bytes) => SendData(bytes);
        case Vector(count, bytes) =>
          SendData(Bytes(count, 8));
          SendData(bytes);
        case Items(items) =>
          SendData(Bytes(|items|, 8));
          PackValues(items);
        case Obj(id) =>
          var index := Object(id);
          SendData(Bytes(index, 4));
      }
    }

    method PackValues(vs: seq<Data>)
      requires Valid() && hasBegun
      modifies this`transferredSize, this`transfers, this`objects
      ensures Valid() && Sent() == PackAll(vs, old(Sent()))
      decreases vs, 1
    {
      var i := 0;
      while i < |vs|
        invariant 0 <= i <= |vs| && Valid() && hasBegun
        invariant PackAll(vs[i..], Sent()) == PackAll(vs, old(Sent()))
      {
        assert vs[i..][1..] == vs[i + 1..];
        PackValue(vs[i]);
        i := i + 1;
      }
    }

    /** False is the abort: the announced sizes were not kept. */
    method Finalize() returns (ok: bool)
      requires Valid() && hasBegun
      modifies this`objectIds
      ensures Valid()
      ensures ok <==> |Flat(transfers)| == totalSize && |objects| == objectCount
      ensures ok && objectCount > 0 ==> objectIds == Some(objects)
      ensures ok && objectCount == 0 ==> objectIds == old(objectIds)
    {
      if transferredSize != totalSize { return false; }
      if |objects| != objectCount { return false; }
      if objectCount > 0 {
        objectIds := Some(objects);
      }
      return true;
    }

    /**
     Answers a request with these values. It aborts only when the request was answered before or there are more objects
     than a transfer has room for; never because the announced sizes were wrong.
     */
    method RespondOk(vs: seq<Data>) returns (ok: bool)
      requires Valid()
      modifies this
      ensures Valid() && hasBegun == (old(hasBegun) || ok)
      ensures ok <==> !old(hasBegun) && GetObjectCounts(vs) * 4 <= maxTransfer
      ensures ok ==> header == Some(Announced(0, |Flat(transfers)|, |objects|))
      ensures ok ==> Sent() == PackAll(vs, Emitted([], []))
      ensures ok ==> objectIds == if objects == [] then None else Some(objects)
      ensures !ok ==> header == old(header) && transfers == old(transfers) && objectIds == old(objectIds)
    {
      var size := SizesOf(vs);
      var count := CountsOf(vs);
      ok := BeginError(0, size, count);
      if !ok { return; }
      PackAllEmits(vs, Sent());
      PackValues(vs);
      ok := Finalize();
    }

    method RespondError(code: u32) returns (ok: bool)
      requires Valid()
      modifies this
      ensures Valid() && hasBegun
      ensures ok <==> !old(hasBegun)
      ensures ok ==> header == Some(Announced(code, 0, 0)) && transfers == [] && objectIds == None
      ensures !ok ==> header == old(header) && transfers == old(transfers) && objectIds == old(objectIds)
    {
      ok := BeginError(code, 0, 0);
      if ok {
        ok := Finalize();
      }
    }
  }
}
