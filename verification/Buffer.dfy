/** The compacting byte buffer: a vector with a read head and a write head, refined to a byte queue. */
module Buffers {
  import opened Common

  const INITIAL_SIZE := 2048

  function Min(a: int, b: int): int { if a < b then a else b }

  class Buffer {
    var data: array<byte>
    var readHead: nat
    var writeHead: nat
    const limit: Option<nat>

    ghost predicate Valid()
      reads this, data
    {
      && readHead <= writeHead <= data.Length
      && (limit.Some? ==> data.Length <= limit.value)
    }

    /** The unread bytes. */
    ghost function Contents(): (s: seq<byte>)
      reads this, data
      requires Valid()
      ensures |s| == writeHead - readHead
    {
      data[readHead..writeHead]
    }

    /** Whether `size` more unread bytes stay within the limit. */
    ghost predicate Fits(size: nat)
      reads this, data
      requires Valid()
    {
      limit.Some? ==> |Contents()| + size <= limit.value
    }

    constructor ()
      ensures Valid() && fresh(data) && Contents() == [] && limit == None
    {
      data := new byte[INITIAL_SIZE](_ => 0);
      readHead, writeHead, limit := 0, 0, None;
    }

    constructor Limited(max: nat)
      ensures Valid() && fresh(data) && Contents() == [] && limit == Some(max)
    {
      data := new byte[Min(INITIAL_SIZE, max)](_ => 0);
      readHead, writeHead, limit := 0, 0, Some(max);
    }

    constructor FromBytes(bytes: seq<byte>)
      ensures Valid() && fresh(data) && Contents() == bytes && limit == None
    {
      data := new byte[|bytes|](i requires 0 <= i < |bytes| => bytes[i]);
      readHead, writeHead, limit := 0, |bytes|, None;
      new;
      assert data[..] == bytes;
    }

    /** Moves the unread bytes to the front, one by one from the left as the ranges overlap. */
    method Compact()
      requires Valid()
      modifies this`readHead, this`writeHead, data
      ensures Valid() && data == old(data)
      ensures Contents() == old(Contents()) && readHead == 0
    {
      var i := readHead;
      while i < data.Length
        invariant readHead <= i <= data.Length
        invariant readHead == old(readHead) && writeHead == old(writeHead) && data == old(data)
        invariant forall k :: 0 <= k < i - readHead ==> data[k] == old(data[k + readHead])
        invariant forall k :: i <= k < data.Length ==> data[k] == old(data[k])
      {
        data[i - readHead] := data[i];
        i := i + 1;
      }
      writeHead := writeHead - readHead;
      readHead := 0;
    }

    /** `data.resize`, to a larger size: the new elements are zero. */
    method Grow(size: nat)
      requires Valid() && size >= data.Length && (limit.Some? ==> size <= limit.value)
      modifies this`data
      ensures Valid() && fresh(data) && data.Length == size
      ensures Contents() == old(Contents())
    {
      var old' := data;
      data := new byte[size](i reads old' => if 0 <= i < old'.Length then old'[i] else 0);
      assert forall k :: 0 <= k < old'.Length ==> data[k] == old'[k];
    }

    /** Makes room for `size` bytes, or leaves the vector alone when the limit does not allow it. */
    method EnsureSpace(size: nat) returns (ok: bool)
      requires Valid()
      modifies this`data, this`readHead, this`writeHead, data
      ensures Valid() && (data == old(data) || fresh(data))
      ensures Contents() == old(Contents())
      ensures ok <==> Fits(size)
      ensures ok ==> writeHead + size <= data.Length
    {
      if writeHead + size > data.Length {
        Compact();
      }
      if writeHead + size > data.Length {
        if limit.Some? && writeHead + size > limit.value {
          return false;
        }
        Grow(writeHead + size);
      }
      return true;
    }

    /** Makes room for `size` bytes, or for as many as the limit allows. */
    method TryEnsureSpace(size: nat)
      requires Valid()
      modifies this`data, this`readHead, this`writeHead, data
      ensures Valid() && (data == old(data) || fresh(data))
      ensures Contents() == old(Contents())
      ensures Fits(size) ==> writeHead + size <= data.Length
      ensures !Fits(size) ==> data.Length - writeHead == limit.value - |Contents()|
    {
      if writeHead + size > data.Length {
        Compact();
      }
      if writeHead + size > data.Length {
        if limit.Some? && writeHead + size > limit.value {
          Grow(limit.value);
        } else {
          Grow(writeHead + size);
        }
      }
    }

    /** Appends all the bytes, or nothing: fails exactly when they would exceed the limit. */
    method Write(bytes: seq<byte>) returns (ok: bool)
      requires Valid()
      modifies this`data, this`readHead, this`writeHead, data
      ensures Valid() && (data == old(data) || fresh(data))
      ensures ok <==> old(Fits(|bytes|))
      ensures Contents() == if ok then old(Contents()) + bytes else old(Contents())
    {
      ok := EnsureSpace(|bytes|);
      if !ok { return; }
      ghost var before := Contents();
      Fill(bytes);
      MarkWritten(|bytes|);
    }

    /** Offers room after the write head: at least `size` bytes, or all that the limit leaves. */
    method Reserve(size: nat) returns (room: nat)
      requires Valid()
      modifies this`data, this`readHead, this`writeHead, data
      ensures Valid() && (data == old(data) || fresh(data))
      ensures Contents() == old(Contents())
      ensures room == data.Length - writeHead
      ensures room >= if limit.None? then size else Min(size, limit.value - |Contents()|)
      ensures limit.Some? ==> room <= limit.value - |Contents()|
    {
      TryEnsureSpace(size);
      room := data.Length - writeHead;
    }

    /** A caller copying bytes to the pointer `Reserve` returned. */
    method Fill(bytes: seq<byte>)
      requires Valid() && |bytes| <= data.Length - writeHead
      modifies data
      ensures Valid() && Contents() == old(Contents())
      ensures data[writeHead..writeHead + |bytes|] == bytes
    {
      var i := 0;
      while i < |bytes|
        invariant 0 <= i <= |bytes|
        invariant forall k :: 0 <= k < writeHead ==> data[k] == old(data[k])
        invariant data[writeHead..writeHead + i] == bytes[..i]
      {
        data[writeHead + i] := bytes[i];
        i := i + 1;
      }
      assert bytes[..i] == bytes;
    }

    /** Commits bytes that were copied into reserved room. */
    method MarkWritten(size: nat)
      requires Valid() && size <= data.Length - writeHead
      modifies this`writeHead
      ensures Valid()
      ensures Contents() == old(Contents()) + old(data[writeHead..writeHead + size])
    {
      writeHead := writeHead + size;
    }

    /** Takes exactly `size` bytes, or nothing when fewer are unread. */
    method Read(size: nat) returns (r: Option<seq<byte>>)
      requires Valid()
      modifies this`readHead
      ensures Valid()
      ensures r.Some? <==> size <= |old(Contents())|
      ensures r.Some? ==> r.value == old(Contents())[..size] && Contents() == old(Contents())[size..]
      ensures r.None? ==> Contents() == old(Contents())
    {
      if readHead + size > writeHead {
        return None;
      }
      r := Some(data[readHead..readHead + size]);
      readHead := readHead + size;
    }

    /** Moves exactly `size` bytes to the end of another buffer, or nothing when fewer are unread. */
    method ReadInto(other: Buffer, size: nat) returns (ok: bool)
      requires Valid() && other.Valid() && other != this && other.data != data
      requires size <= |Contents()| ==> other.Fits(size)
      modifies this`readHead, other`data, other`readHead, other`writeHead, other.data
      ensures Valid() && other.Valid() && (other.data == old(other.data) || fresh(other.data))
      ensures ok <==> size <= |old(Contents())|
      ensures ok ==> other.Contents() == old(other.Contents()) + old(Contents())[..size] && Contents() == old(Contents())[size..]
      ensures !ok ==> other.Contents() == old(other.Contents()) && Contents() == old(Contents())
    {
      var _ := other.Reserve(size);
      var r := Read(size);
      match r {
        case None => return false;
        case Some(bytes) =>
          other.Fill(bytes);
          other.MarkWritten(size);
          return true;
      }
    }

    method MarkRead(size: nat)
      requires Valid() && size <= |Contents()|
      modifies this`readHead
      ensures Valid() && Contents() == old(Contents())[size..]
    {
      readHead := readHead + size;
    }

    method Clear()
      requires Valid()
      modifies this`readHead, this`writeHead
      ensures Valid() && Contents() == []
    {
      readHead, writeHead := 0, 0;
    }

    /** The first unread byte, which stays unread. */
    method Peek() returns (b: Option<byte>)
      requires Valid()
      ensures b == if Contents() == [] then None else Some(Contents()[0])
    {
      b := if readHead < writeHead then Some(data[readHead]) else None;
    }

    method ReadAvailable() returns (n: nat)
      requires Valid()
      ensures n == |Contents()|
    {
      n := writeHead - readHead;
    }

    /** A copy of the unread bytes. */
    method GetData() returns (bytes: seq<byte>)
      requires Valid()
      ensures bytes == Contents()
    {
      bytes := data[readHead..writeHead];
    }
  }
}
